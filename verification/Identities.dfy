/** Once the client has read the answer to a request for an object, no object with the number is
    without an id. */
module Identities {
  import opened Bytes
  import opened Arguments
  import opened Specs
  import opened SpecNames
  import opened Messages
  import opened WireObject
  import opened Dispatch
  import opened Session
  import opened Invariant
  import opened SessionTheorems
  import C = Client
  import S = Server
  import SessionSteps
  import SessionSafety
  import ClientLaws
  import Farewells
  import Answers

  predicate Given(objects: seq<C.ClientObject>, q: u32) {
    forall o :: o in objects && o.seq_ == q ==> o.id != 0
  }

  lemma GivenUpdate(objects: seq<C.ClientObject>, i: nat, o: C.ClientObject, q: u32)
    requires Given(objects, q) && i < |objects| && (o.seq_ == q ==> o.id != 0)
    ensures Given(objects[i := o], q)
  {
  }

  lemma GivenAppend(objects: seq<C.ClientObject>, o: C.ClientObject, q: u32)
    requires Given(objects, q) && o.seq_ != q
    ensures Given(objects + [o], q)
  {
  }

  /** An object at position i is in the table. */
  lemma GivenAt(objects: seq<C.ClientObject>, i: nat, q: u32)
    requires Given(objects, q) && i < |objects| && objects[i].seq_ == q
    ensures objects[i].id != 0
  {
  }

  lemma GivenIdentified(c: C.ClientState, q: u32)
    requires Given(c.objects, q)
    ensures Identified(c, q)
  {
  }

  // Acts of the client.

  lemma CallGives(impls: seq<ProtocolSpec>, c: C.ClientState, i: nat, k: u32, args: seq<Value>, q: u32)
    requires i < |c.objects| && Given(c.objects, q) && q <= c.seq_ < 0xFFFF_FFFF
    ensures Given(C.CallObject(impls, c, i, k, args).objects, q)
  {
    hide Given, FindProtocol, FindObject, Marshallable;
    var o := c.objects[i];
    if C.Callable(o, k) {
      var marked := if o.spec.c2s[k].isDestructor then c.objects[i := o.(destroyed := true)] else c.objects;
      assert Given(marked, q) by {
        if o.seq_ == q {
          GivenAt(c.objects, i, q);
        }
        GivenUpdate(c.objects, i, o.(destroyed := true), q);
      }
      OnGives(impls, c.(objects := marked), o, k, args, q);
    }
  }

  /** The table of a new object's maker; what else the maker did is left open. */
  lemma MakeGives(impls: seq<ProtocolSpec>, c: C.ClientState, protocol: Text, name: Text, n: u32, q: u32)
    requires Given(c.objects, q) && n != q
    ensures forall d: C.ClientState :: d.objects == c.objects ==>
      Given(C.MakeObject(impls, d, protocol, name, n).objects, q)
  {
    hide Given, FindProtocol, FindObject;
    match FindProtocol(impls, protocol)
    case Missing =>
    case Found(p) =>
      match FindObject(p.objects, name)
      case NoSpec =>
      case Spec(os) => GivenAppend(c.objects, C.ClientObject(0, n, 0, os, protocol, false, {}, false), q);
  }

  lemma OnGives(impls: seq<ProtocolSpec>, c: C.ClientState, o: C.ClientObject, k: u32, args: seq<Value>, q: u32)
    requires C.Callable(o, k) && Given(c.objects, q) && q <= c.seq_ < 0xFFFF_FFFF
    ensures Given(C.CallOn(impls, c, o, k, args).objects, q)
  {
    hide Given, FindProtocol, FindObject, Marshallable;
    var m := o.spec.c2s[k];
    if m.Returns() {
      MakeGives(impls, c.(seq_ := c.seq_ + 1), o.protocol, m.returnsType, c.seq_ + 1, q);
    }
  }

  lemma WithoutGives(c: C.ClientState, i: nat, m: Method, q: u32)
    requires i < |c.objects| && Given(c.objects, q)
    ensures Given(C.DestroyIfNeeded(c, i, m).objects, q)
  {
    ClientLaws.WithoutIdExactly(c.objects, c.objects[i].id);
    if c.objects[i].seq_ == q {
      GivenAt(c.objects, i, q);
    }
  }

  lemma EventGives(c: C.ClientState, target: u32, k: u32, args: seq<Value>, q: u32)
    requires Given(c.objects, q)
    ensures Given(C.OnGeneric(c, target, k, args).objects, q)
  {
    hide Given, TypesOf, SlotsOf, C.FindId, C.WithoutId, C.DestroyIfNeeded;
    var i := C.FindId(c.objects, target);
    if i >= 0 {
      var o := c.objects[i];
      match CalledOutcome(o.spec.s2c, o.listeners, o.version, k, args)
      case Ignored => WithoutGives(c, i, o.spec.s2c[k], q);
      case Delivered(f) => WithoutGives(c.(calls := c.calls + [S.Call(o.id, k, f)]), i, o.spec.s2c[k], q);
      case _ =>
    }
  }

  /** Reading a message gives ids and takes none. */
  lemma HandleGives(c: C.ClientState, m: Message, q: u32)
    requires Given(c.objects, q) && (m.NewObject? ==> m.id != 0)
    ensures Given(C.Handle(c, m).c.objects, q)
  {
    hide Given, C.OnGeneric, C.ReadSpecs, C.FindSeq;
    match m
    case NewObject(id, s) =>
      var i := C.FindSeq(c.objects, s);
      if i >= 0 {
        GivenUpdate(c.objects, i, c.objects[i].(id := id), q);
      }
    case Generic(o, k, args) => EventGives(c, o, k, args, q);
    case _ =>
  }

  /** And the answer gives the object its id. */
  lemma AnswerGives(c: C.ClientState, bound: int, id: u32, q: u32)
    requires SeqsRise(c.objects, bound) && id != 0
    ensures Given(C.OnSeq(c, q, id).objects, q)
  {
    hide SeqsRise, C.FindSeq;
    var i := C.FindSeq(c.objects, q);
    forall j | 0 <= j < |c.objects| && c.objects[j].seq_ == q ensures j == i {
      SessionSteps.FindSeqAt(c.objects, bound, j);
    }
  }

  lemma CollectGives(impls: seq<ProtocolSpec>, c: C.ClientState, q: u32)
    requires Given(c.objects, q) && Farewells.AllNumbered(c.objects)
    ensures Given(C.Collect(impls, c).objects, q)
  {
    hide C.Collect, Farewells.AllNumbered;
    var out := Farewells.CollectSays(impls, c);
  }

  lemma EndBatchGives(impls: seq<ProtocolSpec>, c: C.ClientState, q: u32)
    requires Given(c.objects, q) && Farewells.AllNumbered(c.objects)
    ensures Given(C.EndBatch(impls, c).objects, q)
  {
    hide Given, C.Collect, Farewells.AllNumbered, C.FlushAll;
    ClientLaws.FlushSpares(c.(pending := []), c.pending);
    CollectGives(impls, C.Flush(c), q);
  }

  lemma BindGives(c: C.ClientState, spec: ProtocolSpec, version: u32, q: u32)
    requires spec.objects != [] && Given(c.objects, q) && q <= c.seq_ < 0xFFFF_FFFF
    ensures Given(C.Bind(c, spec, version).objects, q)
  {
    hide Given;
    GivenAppend(c.objects, C.ClientObject(0, c.seq_ + 1, version, spec.objects[0], spec.name, false, {}, true), q);
  }

  // Steps and runs.

  /** The client reads an announcement for the number. */
  predicate Answered(y: System, step: Step, q: u32) {
    step.ClientHandle? && y.cRead < |y.s.sent| && y.s.sent[y.cRead].NewObject? && y.s.sent[y.cRead].forSeq == q
  }

  lemma ReadGives(env: Env, y: System, q: u32)
    requires Reachable(env, y) && y.cRead < |y.s.sent|
    ensures Given(y.c.objects, q) || Answered(y, ClientHandle, q) ==> Given(HandleOnClient(y).c.objects, q)
  {
    hide Reachable, Given, Inv, SeqsRise, C.Handle, Births, LastDone, Offers;
    ReachableInv(env, y);
    SessionSafety.ReadNext(env, y);
    SessionSafety.SeqsOfClient(env, y);
    HandledObjects(y);
    if Given(y.c.objects, q) {
      HandleGives(y.c, y.s.sent[y.cRead], q);
    } else if Answered(y, ClientHandle, q) {
      AnswerGives(y.c, |y.h.kinds|, y.s.sent[y.cRead].id, q);
      AnnouncementHandled(y.c, y.s.sent[y.cRead]);
    }
  }

  lemma HandledObjects(y: System)
    requires y.cRead < |y.s.sent|
    ensures HandleOnClient(y).c.objects == C.Handle(y.c, y.s.sent[y.cRead]).c.objects
  {
    hide C.Handle;
  }

  lemma AnnouncementHandled(c: C.ClientState, m: Message)
    requires m.NewObject?
    ensures C.Handle(c, m).c == C.OnSeq(c, m.forSeq, m.id)
  {
  }

  /** No step takes an object's id, or makes an object with an old number; and reading the answer
      gives it. */
  lemma StepGives(env: Env, y: System, step: Step, q: u32)
    requires Reachable(env, y) && Enabled(env, y, step) && q <= y.c.seq_
    requires Given(y.c.objects, q) || Answered(y, step, q)
    ensures Given(Next(env, y, step).c.objects, q)
  {
    hide Reachable, Given, C.Bind, C.CallObject, C.Collect, C.EndBatch, HandleOnClient, S.Handle, S.CreateObject,
      OwedBy, CallKinds, S.EndBatch, S.CallOut, S.Listen, HasPending, FindProtocol, Advertised, HonestServerCall,
      C.Callable, Farewells.AllNumbered, AllSendable;
    match step
    case ClientBind(spec, version) => BindGives(y.c, spec, version, q);
    case ClientCall(i, k, args) => CallGives(env.clientImpls, y.c, i, k, args, q);
    case ClientHold(i, held) => ChangeGives(y.c, i, y.c.objects[i].(held := held), q);
    case ClientListen(i, k) =>
      ChangeGives(y.c, i, y.c.objects[i].(listeners := y.c.objects[i].listeners + {k}), q);
    case ClientCollect => AllAreNumbered(env, y); CollectGives(env.clientImpls, y.c, q);
    case ClientEndBatch => AllAreNumbered(env, y); EndBatchGives(env.clientImpls, y.c, q);
    case ClientHandle => ReadGives(env, y, q);
    case _ =>
  }

  lemma AllAreNumbered(env: Env, y: System)
    requires Reachable(env, y)
    ensures Farewells.AllNumbered(y.c.objects)
  {
    hide Reachable, Farewells.AllNumbered;
    Farewells.NumberedObjects(env, y, 0);
    assert y.c.objects[0..] == y.c.objects;
  }

  lemma ChangeGives(c: C.ClientState, i: nat, o: C.ClientObject, q: u32)
    requires i < |c.objects| && Given(c.objects, q) && o.seq_ == c.objects[i].seq_ && o.id == c.objects[i].id
    ensures Given(c.objects[i := o], q)
  {
    hide Given;
    if o.seq_ == q {
      GivenAt(c.objects, i, q);
    }
    GivenUpdate(c.objects, i, o, q);
  }

  /** Numbers are only counted up. */
  lemma SeqNext(env: Env, y: System, step: Step)
    requires Reachable(env, y) && Enabled(env, y, step)
    ensures y.c.seq_ <= Next(env, y, step).c.seq_
  {
    hide Reachable, Inv, Agreed, Enabled, Next;
    ReachableInv(env, y);
    SessionSafety.StepKeeps(env, y, step);
    SessionSafety.SeqsOfClient(env, y);
    SessionSafety.SeqsOfClient(env, Next(env, y, step));
    KindsGrow(env, y, step);
  }

  lemma KindsGrow(env: Env, y: System, step: Step)
    requires Enabled(env, y, step)
    ensures |y.h.kinds| <= |Next(env, y, step).h.kinds|
  {
    hide C.Bind, C.CallObject, C.Collect, C.EndBatch, C.Handle, S.Handle, S.CreateObject, S.CallOut, OwedBy, HonestCall,
      HonestServerCall, ChildKind;
  }

  /** No announcement for the number stands in this part of the server's log. */
  ghost predicate Unasked(sent: seq<Message>, from: nat, to: nat, q: u32) {
    forall p :: from <= p < to && p < |sent| && sent[p].NewObject? ==> sent[p].forSeq != q
  }

  /** If after a run some object with the number has no id, the run has not read its answer. */
  lemma {:induction false} RunGives(env: Env, y: System, steps: seq<Step>, q: u32)
    requires Reachable(env, y) && Honest(env, y, steps) && q <= y.c.seq_
    ensures var z := Run(env, y, steps); Given(z.c.objects, q) || Unasked(z.s.sent, y.cRead, z.cRead, q)
    ensures Given(y.c.objects, q) ==> Given(Run(env, y, steps).c.objects, q)
    ensures y.s.sent <= Run(env, y, steps).s.sent
    decreases |steps|
  {
    hide Reachable, Enabled, Next, Given, Answered, Unasked;
    if steps == [] {
      assert Unasked(y.s.sent, y.cRead, y.cRead, q) by { UnaskedNone(y.s.sent, y.cRead, q); }
    } else {
      var x, z := Next(env, y, steps[0]), Run(env, y, steps);
      ReachableStep(env, y, steps[0]);
      SeqNext(env, y, steps[0]);
      ReadsKnown(env, y);
      ReadsOnward(env, y, steps[0]);
      RunGives(env, x, steps[1..], q);
      if Given(y.c.objects, q) || Answered(y, steps[0], q) {
        StepGives(env, y, steps[0], q);
      } else if !Given(z.c.objects, q) {
        ReadsOne(env, y, steps[0], q);
        UnaskedMore(y, steps[0], x.cRead, z, q);
      }
    }
  }

  lemma UnaskedNone(sent: seq<Message>, n: nat, q: u32)
    ensures Unasked(sent, n, n, q)
  {
  }

  lemma ReadsKnown(env: Env, y: System)
    requires Reachable(env, y)
    ensures y.cRead <= |y.s.sent|
  {
    hide Reachable, Inv;
    ReachableInv(env, y);
    Answers.LogsRead(env, y);
  }

  /** A step reads one message at most. */
  lemma ReadsOne(env: Env, y: System, step: Step, q: u32)
    requires Enabled(env, y, step)
    ensures Next(env, y, step).cRead == if step.ClientHandle? then y.cRead + 1 else y.cRead
    ensures step.ClientHandle? ==> y.cRead < |y.s.sent|
  {
    hide C.Bind, C.CallObject, C.Collect, C.EndBatch, C.Handle, S.Handle, S.CreateObject, S.CallOut, OwedBy, HonestCall,
      HonestServerCall, CallKinds;
  }

  lemma UnaskedMore(y: System, step: Step, mid: nat, z: System, q: u32)
    requires !Answered(y, step, q) && y.s.sent <= z.s.sent && Unasked(z.s.sent, mid, z.cRead, q)
    requires mid == (if step.ClientHandle? then y.cRead + 1 else y.cRead)
    requires step.ClientHandle? ==> y.cRead < |y.s.sent|
    ensures Unasked(z.s.sent, y.cRead, z.cRead, q)
  {
  }

  /** Before a bind nothing answers its number. */
  lemma NotYetAsked(env: Env, y: System, q: u32, n: nat)
    requires Reachable(env, y) && q > y.c.seq_ && n <= |y.s.sent|
    ensures Unasked(y.s.sent, 0, n, q)
  {
    hide Reachable, Inv, AllBorn, ServerLogOk, AllEvents, Answers.Unanswered;
    ReachableInv(env, y);
    Answers.BornOf(env, y);
    Answers.BornUnanswered(y.h.kinds, y.h.born, y.s.sent, y.c.seq_, q);
    forall p | 0 <= p < n && y.s.sent[p].NewObject? ensures y.s.sent[p].forSeq != q {
      Answers.UnansweredAt(y.s.sent, q, p);
    }
  }
}
