/** Calls kept back until their object has an id: where each goes when the batch is over,
    and in which order the calls of one object reach the wire. */
module Deferred {
  import opened Bytes
  import opened Arguments
  import opened Specs
  import opened SpecNames
  import opened Messages
  import opened WireObject
  import opened CallRoundTrip
  import opened Session
  import opened Invariant
  import C = Client
  import S = Server
  import CT = ClientTables
  import CS = ClientSteps
  import SS = ServerSteps
  import SessionSteps
  import SessionSafety
  import SessionTheorems
  import ServerSafety

  /** The calls made on the object with number q, in order, the object's id left out. */
  function CallsOf(q: u32, es: seq<C.Outgoing>): seq<C.Outgoing> {
    if es == [] then [] else CallsOf(q, es[..|es| - 1]) + CallOf(q, es[|es| - 1])
  }

  function CallOf(q: u32, e: C.Outgoing): seq<C.Outgoing> {
    if e.msg.Generic? && e.origin == q then [C.ResolvedTo(e, 0)] else []
  }

  lemma {:induction false} CallsOfAppend(q: u32, a: seq<C.Outgoing>, b: seq<C.Outgoing>)
    ensures CallsOf(q, a + b) == CallsOf(q, a) + CallsOf(q, b)
  {
    if b == [] {
      assert a + b == a;
    } else {
      var n := |b| - 1;
      assert (a + b)[..|a + b| - 1] == a + b[..n] && (a + b)[|a + b| - 1] == b[n];
      CallsOfAppend(q, a, b[..n]);
    }
  }

  lemma CallsOfOne(q: u32, e: C.Outgoing)
    ensures CallsOf(q, [e]) == CallOf(q, e)
  {
    assert [e][..0] == [];
  }

  // One flush.

  /** What becomes of the calls kept back for number q. */
  datatype Fate = Dropped | Kept | SentTo(id: u32)

  function FateOf(objects: seq<C.ClientObject>, q: u32): Fate {
    var i := C.FindSeq(objects, q);
    if i < 0 then Dropped else if objects[i].id == 0 then Kept else SentTo(objects[i].id)
  }

  /** Every message of the list that number q's calls went into carries the id. */
  predicate Addressed(q: u32, id: u32, es: seq<C.Outgoing>) {
    es == [] ||
    ((es[|es| - 1].origin == q && es[|es| - 1].msg.Generic? ==> es[|es| - 1].msg.objectId == id) &&
      Addressed(q, id, es[..|es| - 1]))
  }

  /** From c to t, the calls es kept back for number q have met their fate. */
  ghost predicate Settled(c: C.ClientState, t: C.ClientState, q: u32, es: seq<C.Outgoing>) {
    var fate := FateOf(c.objects, q);
    && t == c.(pending := t.pending, sent := t.sent)
    && CallsOf(q, t.pending) == CallsOf(q, c.pending) + (if fate.Kept? then CallsOf(q, es) else [])
    && CallsOf(q, t.sent) == CallsOf(q, c.sent) + (if fate.SentTo? then CallsOf(q, es) else [])
  }

  lemma SettledNone(c: C.ClientState, q: u32)
    ensures Settled(c, c, q, [])
  {
    hide FateOf;
    assert CallsOf(q, c.pending) + [] == CallsOf(q, c.pending) && CallsOf(q, c.sent) + [] == CallsOf(q, c.sent);
  }

  lemma SettledThen(a: C.ClientState, b: C.ClientState, c: C.ClientState, q: u32, e: C.Outgoing, es: seq<C.Outgoing>)
    requires Settled(a, b, q, [e]) && Settled(b, c, q, es)
    ensures Settled(a, c, q, [e] + es)
  {
    hide FateOf, CallsOf;
    CallsOfAppend(q, [e], es);
    var x, y := CallsOf(q, [e]), CallsOf(q, es);
    assert CallsOf(q, a.pending) + x + y == CallsOf(q, a.pending) + (x + y);
    assert CallsOf(q, a.sent) + x + y == CallsOf(q, a.sent) + (x + y);
    assert CallsOf(q, a.pending) + [] + [] == CallsOf(q, a.pending) + [];
    assert CallsOf(q, a.sent) + [] + [] == CallsOf(q, a.sent) + [];
  }

  lemma SettledOne(c: C.ClientState, e: C.Outgoing, q: u32)
    requires c.connected && e.msg.Generic?
    ensures Settled(c, C.FlushOne(c, e), q, [e])
  {
    hide C.FindSeq, CallsOf;
    CallsOfOne(q, e);
    assert CallsOf(q, c.pending) + [] == CallsOf(q, c.pending) && CallsOf(q, c.sent) + [] == CallsOf(q, c.sent);
    var i := C.FindSeq(c.objects, e.origin);
    if i >= 0 && c.objects[i].id == 0 {
      CallsOfAppend(q, c.pending, [e]);
    } else if i >= 0 {
      var r := C.ResolvedTo(e, c.objects[i].id);
      CallsOfAppend(q, c.sent, [r]);
      CallsOfOne(q, r);
    }
  }

  lemma {:induction false} SettledAll(c: C.ClientState, es: seq<C.Outgoing>, q: u32)
    requires c.connected && SessionSteps.AllCalls(es)
    ensures Settled(c, C.FlushAll(c, es), q, es)
    decreases |es|
  {
    if es == [] {
      SettledNone(c, q);
    } else {
      hide Settled, C.FlushOne;
      var d := C.FlushOne(c, es[0]);
      SettledOne(c, es[0], q);
      assert d.connected by { FlushOneStays(c, es[0]); }
      SettledAll(d, es[1..], q);
      SettledThen(c, d, C.FlushAll(d, es[1..]), q, es[0], es[1..]);
      assert [es[0]] + es[1..] == es;
    }
  }

  lemma FlushOneStays(c: C.ClientState, e: C.Outgoing)
    ensures var t := C.FlushOne(c, e); t.connected == c.connected && t.objects == c.objects && c.sent <= t.sent
  {
  }

  lemma AddressedSnoc(q: u32, id: u32, es: seq<C.Outgoing>, e: C.Outgoing)
    requires Addressed(q, id, es) && (e.origin == q && e.msg.Generic? ==> e.msg.objectId == id)
    ensures Addressed(q, id, es + [e])
  {
    assert (es + [e])[..|es|] == es;
  }

  lemma AddressedOne(c: C.ClientState, e: C.Outgoing, q: u32, n: nat)
    requires n <= |c.sent| && FateOf(c.objects, q).SentTo? && Addressed(q, FateOf(c.objects, q).id, c.sent[n..])
    ensures Addressed(q, FateOf(c.objects, q).id, C.FlushOne(c, e).sent[n..])
  {
    hide C.FindSeq, Addressed;
    var i := C.FindSeq(c.objects, e.origin);
    if i >= 0 && c.objects[i].id != 0 && c.connected {
      var r := C.ResolvedTo(e, c.objects[i].id);
      AddressedSnoc(q, FateOf(c.objects, q).id, c.sent[n..], r);
      assert C.FlushOne(c, e).sent == c.sent + [r];
      assert (c.sent + [r])[n..] == c.sent[n..] + [r];
    } else {
      assert C.FlushOne(c, e).sent == c.sent;
    }
  }

  lemma {:induction false} AddressedAll(c: C.ClientState, es: seq<C.Outgoing>, q: u32, n: nat)
    requires n <= |c.sent| && FateOf(c.objects, q).SentTo? && Addressed(q, FateOf(c.objects, q).id, c.sent[n..])
    ensures c.sent <= C.FlushAll(c, es).sent && C.FlushAll(c, es).objects == c.objects
    ensures Addressed(q, FateOf(c.objects, q).id, C.FlushAll(c, es).sent[n..])
    decreases |es|
  {
    if es == [] {
    } else {
      hide Addressed, C.FlushOne;
      AddressedOne(c, es[0], q, n);
      FlushOneStays(c, es[0]);
      AddressedAll(C.FlushOne(c, es[0]), es[1..], q, n);
    }
  }

  lemma FlushCalls(c: C.ClientState, q: u32)
    requires c.connected && SessionSteps.AllCalls(c.pending)
    ensures Settled(c.(pending := []), C.Flush(c), q, c.pending)
  {
    hide C.FlushAll, Settled;
    SettledAll(c.(pending := []), c.pending, q);
  }

  lemma FlushAddresses(c: C.ClientState, q: u32)
    requires FateOf(c.objects, q).SentTo?
    ensures c.sent <= C.Flush(c).sent && Addressed(q, FateOf(c.objects, q).id, C.Flush(c).sent[|c.sent|..])
  {
    assert c.sent[|c.sent|..] == [];
    assert Addressed(q, FateOf(c.objects, q).id, []);
    hide C.FlushAll, FateOf, Addressed;
    AddressedAll(c.(pending := []), c.pending, q, |c.sent|);
  }

  /** The end of a batch decides, object by object, over all calls kept back for it: they
      go out once each, in the order they were made and addressed to the id the object has
      got by now; or, while there is none, they are kept in order; or, only if the object is
      gone, they are dropped. */
  lemma FlushFate(env: Env, kinds: seq<Kind>, c: C.ClientState, q: u32)
    requires c.connected && AllKept(env, kinds, c.pending)
    ensures var t := C.Flush(c); var fate := FateOf(c.objects, q);
      && t.objects == c.objects && t == c.(pending := t.pending, sent := t.sent)
      && CallsOf(q, t.pending) == (if fate.Kept? then CallsOf(q, c.pending) else [])
      && CallsOf(q, t.sent) == CallsOf(q, c.sent) + (if fate.SentTo? then CallsOf(q, c.pending) else [])
      && (fate.SentTo? ==> c.sent <= t.sent && Addressed(q, fate.id, t.sent[|c.sent|..]))
  {
    assert CallsOf(q, []) == [];
    hide AllKept, C.Flush, FateOf, CallsOf, Addressed;
    SessionSteps.KeptAreCalls(env, kinds, c.pending);
    FlushCalls(c, q);
    assert [] + CallsOf(q, c.pending) == CallsOf(q, c.pending) && CallsOf(q, []) + [] == CallsOf(q, []);
    if FateOf(c.objects, q).SentTo? {
      FlushAddresses(c, q);
    }
  }

  // Whole runs.

  /** The call of the object with number q that a step makes, if it makes one. */
  function MadeBy(y: System, step: Step, q: u32): seq<C.Outgoing> {
    match step
    case ClientCall(i, k, args) =>
      if i < |y.c.objects| && y.c.objects[i].seq_ == q && C.Callable(y.c.objects[i], k) then
        var m := y.c.objects[i].spec.c2s[k];
        [C.Outgoing(Generic(0, k, CallArgs(m, C.SeqAfter(y.c, m), args)), q, m.isDestructor)]
      else []
    case _ => []
  }

  /** A call of the object made by a listener after the object got its id, in the same batch,
      while earlier calls are still kept back. */
  predicate Overtakes(y: System, step: Step, q: u32) {
    match step
    case ClientCall(i, _, _) =>
      i < |y.c.objects| && y.c.objects[i].seq_ == q && y.c.objects[i].id != 0 && HasPending(y.c.pending, q)
    case _ => false
  }

  function MadeOn(env: Env, y: System, steps: seq<Step>, q: u32): seq<C.Outgoing>
    requires Honest(env, y, steps)
    decreases |steps|
  {
    if steps == [] then [] else MadeBy(y, steps[0], q) + MadeOn(env, Next(env, y, steps[0]), steps[1..], q)
  }

  predicate NeverOvertaken(env: Env, y: System, steps: seq<Step>, q: u32)
    requires Honest(env, y, steps)
    decreases |steps|
  {
    steps == [] || (!Overtakes(y, steps[0], q) && NeverOvertaken(env, Next(env, y, steps[0]), steps[1..], q))
  }

  /** The object's calls on the wire, followed by those kept back. */
  function Issued(c: C.ClientState, q: u32): seq<C.Outgoing> {
    CallsOf(q, c.sent) + CallsOf(q, c.pending)
  }

  lemma {:induction false} NotPendingNoCalls(ps: seq<C.Outgoing>, q: u32)
    requires !HasPending(ps, q)
    ensures CallsOf(q, ps) == []
  {
    if ps == [] {
    } else {
      NotPendingNoCalls(ps[..|ps| - 1], q);
    }
  }

  lemma SentOther(c: C.ClientState, e: C.Outgoing, q: u32)
    requires CallOf(q, e) == []
    ensures Issued(C.Send(c, e), q) == Issued(c, q)
  {
    hide CallsOf, CallOf;
    CallsOfAppend(q, c.sent, [e]);
    CallsOfOne(q, e);
    assert CallsOf(q, c.sent) + [] == CallsOf(q, c.sent);
  }

  /** A call's message, kept back or sent with nothing kept back before it. */
  lemma IssuedCall(c: C.ClientState, o: C.ClientObject, e: C.Outgoing, q: u32)
    requires e.msg.Generic? && e.origin == o.seq_ && (o.id != 0 ==> c.connected)
    requires o.id != 0 && o.seq_ == q ==> !HasPending(c.pending, q)
    ensures Issued(CS.Emitted(c, o, e), q) == Issued(c, q) + CallOf(q, e)
  {
    hide CallsOf, HasPending;
    CallsOfOne(q, e);
    var x, p := CallsOf(q, c.sent), CallsOf(q, c.pending);
    if o.id == 0 {
      CallsOfAppend(q, c.pending, [e]);
      assert x + (p + CallOf(q, e)) == x + p + CallOf(q, e);
    } else {
      CallsOfAppend(q, c.sent, [e]);
      if o.seq_ == q {
        NotPendingNoCalls(c.pending, q);
        assert x + CallOf(q, e) + [] == x + [] + CallOf(q, e);
      } else {
        assert x + [] + p == x + p + [];
      }
    }
  }

  lemma MakeIssues(impls: seq<ProtocolSpec>, c: C.ClientState, protocol: Text, name: Text, q': u32, q: u32)
    ensures var t := C.MakeObject(impls, c, protocol, name, q');
      Issued(t, q) == Issued(c, q) && t.connected == c.connected
  {
  }

  lemma CallIssues(env: Env, y: System, i: nat, k: u32, args: seq<Value>, q: u32)
    requires HonestCall(y.c, i, k, args) && !Overtakes(y, ClientCall(i, k, args), q)
    requires C.CallObject(env.clientImpls, y.c, i, k, args).connected
    ensures Issued(C.CallObject(env.clientImpls, y.c, i, k, args), q)
      == Issued(y.c, q) + MadeBy(y, ClientCall(i, k, args), q)
  {
    hide Issued, C.CallObject, C.MakeObject, HasPending, FindProtocol, FindObject;
    var o := y.c.objects[i];
    if C.Callable(o, k) {
      var m := o.spec.c2s[k];
      var q' := C.SeqAfter(y.c, m);
      CS.CallObjectIs(env.clientImpls, y.c, i, k, args);
      var e := C.Outgoing(Generic(o.id, k, CallArgs(m, q', args)), o.seq_, m.isDestructor);
      var counted := CS.Marked(y.c, i, m.isDestructor).(seq_ := q');
      SameIssued(y.c, counted, q);
      MakeIssues(env.clientImpls, CS.Emitted(counted, o, e), o.protocol, m.returnsType, q', q);
      IssuedCall(counted, o, e, q);
    } else {
      SessionSteps.NotCallable(env.clientImpls, y.c, i, k, args);
      assert Issued(y.c, q) + [] == Issued(y.c, q);
    }
  }

  lemma SameIssued(c: C.ClientState, t: C.ClientState, q: u32)
    requires t.sent == c.sent && t.pending == c.pending
    ensures Issued(t, q) == Issued(c, q)
  {
  }

  // Orphans.

  predicate NoOrphan(objects: seq<C.ClientObject>, q: u32) {
    objects == [] || ((C.Orphaned(objects[0]) ==> objects[0].seq_ != q) && NoOrphan(objects[1..], q))
  }

  lemma FarewellIssues(impls: seq<ProtocolSpec>, c: C.ClientState, o: C.ClientObject, q: u32)
    requires o.seq_ != q && C.Orphaned(o)
    ensures Issued(C.Farewell(impls, c, o), q) == Issued(c, q)
  {
    hide Issued, C.AutoDestructor, C.MakeObject, C.CallOn;
    var auto := C.AutoDestructor(o.spec.c2s, o.version);
    if auto.Auto? && C.Callable(o, auto.idx) {
      CallOnIssues(impls, c, o, auto.idx, q);
    }
  }

  lemma CallOnIssues(impls: seq<ProtocolSpec>, c: C.ClientState, o: C.ClientObject, k: u32, q: u32)
    requires o.seq_ != q && o.id != 0 && C.Callable(o, k)
    ensures Issued(C.CallOn(impls, c, o, k, []), q) == Issued(c, q)
  {
    hide Issued, C.MakeObject, C.Send, Marshallable;
    var m := o.spec.c2s[k];
    var q' := C.SeqAfter(c, m);
    var counted := c.(seq_ := q');
    SameIssued(c, counted, q);
    SameIssued(c, counted.(error := true), q);
    var e := C.Outgoing(Generic(o.id, k, CallArgs(m, q', [])), o.seq_, m.isDestructor);
    SentOther(counted, e, q);
    MakeIssues(impls, C.Send(counted, e), o.protocol, m.returnsType, q', q);
  }

  lemma {:induction false} FarewellsIssue(impls: seq<ProtocolSpec>, c: C.ClientState, rest: seq<C.ClientObject>, q: u32)
    requires NoOrphan(rest, q)
    ensures Issued(C.Farewells(impls, c, rest), q) == Issued(c, q)
    decreases |rest|
  {
    if rest == [] {
    } else {
      hide Issued, C.Farewell;
      if C.Orphaned(rest[0]) {
        FarewellIssues(impls, c, rest[0], q);
      }
      FarewellsIssue(impls, if C.Orphaned(rest[0]) then C.Farewell(impls, c, rest[0]) else c, rest[1..], q);
    }
  }

  lemma {:induction false} SurvivorIsNoOrphan(objects: seq<C.ClientObject>, bound: int, q: u32, j: nat)
    requires SeqsRise(objects, bound) && C.FindSeq(C.Survivors(objects), q) >= 0 && j <= |objects|
    ensures NoOrphan(objects[j..], q)
    decreases |objects| - j
  {
    if j < |objects| {
      if C.Orphaned(objects[j]) {
        CS.OrphanFree(objects, bound, j);
        var kept := C.Survivors(objects);
        CT.FreeAt(kept, objects[j].seq_, C.FindSeq(kept, q));
      }
      assert objects[j..][1..] == objects[j + 1..];
      SurvivorIsNoOrphan(objects, bound, q, j + 1);
    }
  }

  lemma CollectIssues(env: Env, kinds: seq<Kind>, born: seq<u32>, known: nat, c: C.ClientState, q: u32)
    requires Agreed(env) && AllKinds(env, kinds) && ClientInv(env, kinds, born, known, c)
    requires C.FindSeq(C.Collect(env.clientImpls, c).objects, q) >= 0
    ensures Issued(C.Collect(env.clientImpls, c), q) == Issued(c, q) && C.FindSeq(c.objects, q) >= 0
  {
    hide Issued, C.Farewells, AllObjects, Agreed, AllKinds, AllEntries, AllKept, ClientLogOk, SeqsRise,
      SessionSteps.OrphansCallPlain;
    var kept := c.(objects := C.Survivors(c.objects));
    SessionSteps.OrphansPlain(env, kinds, born, known, c.pending, Dead(c.sent), c.objects);
    SessionSteps.FarewellsTables(env.clientImpls, kept, c.objects);
    SurvivorIsNoOrphan(c.objects, |kinds|, q, 0);
    assert c.objects[0..] == c.objects;
    FarewellsIssue(env.clientImpls, kept, c.objects, q);
    SameIssued(c, kept, q);
    SurvivorFound(c.objects, q);
  }

  lemma {:induction false} SurvivorFound(objects: seq<C.ClientObject>, q: u32)
    requires C.FindSeq(C.Survivors(objects), q) >= 0
    ensures C.FindSeq(objects, q) >= 0
  {
    if objects != [] && objects[0].seq_ != q {
      var rest := C.Survivors(objects[1..]);
      assert [] + rest == rest && ([objects[0]] + rest)[1..] == rest;
      SurvivorFound(objects[1..], q);
    }
  }

  lemma EndBatchIssues(env: Env, kinds: seq<Kind>, born: seq<u32>, known: nat, c: C.ClientState, q: u32)
    requires Agreed(env) && AllKinds(env, kinds) && ClientInv(env, kinds, born, known, c) && c.connected
    requires C.FindSeq(C.EndBatch(env.clientImpls, c).objects, q) >= 0
    ensures Issued(C.EndBatch(env.clientImpls, c), q) == Issued(c, q) && C.FindSeq(c.objects, q) >= 0
  {
    hide ClientInv, C.Flush, C.Collect, Agreed, AllKinds, Issued, C.FindSeq;
    CS.FlushKeeps(env, kinds, born, known, c);
    CollectIssues(env, kinds, born, known, C.Flush(c), q);
    FlushIssues(env, kinds, born, known, c, q);
  }

  /** Calls of an object that is not gone only move from the kept-back ones to the wire. */
  lemma FlushIssues(env: Env, kinds: seq<Kind>, born: seq<u32>, known: nat, c: C.ClientState, q: u32)
    requires ClientInv(env, kinds, born, known, c) && c.connected
    ensures C.Flush(c).objects == c.objects
    ensures C.FindSeq(c.objects, q) >= 0 ==> Issued(C.Flush(c), q) == Issued(c, q)
  {
    hide C.Flush, AllObjects, AllEntries, AllKept, ClientLogOk, SeqsRise, CallsOf, Addressed, C.FindSeq;
    FlushFate(env, kinds, c, q);
    var x, p := CallsOf(q, c.sent), CallsOf(q, c.pending);
    assert x + [] + p == x + p && x + p + [] == x + p;
  }

  lemma {:induction false} FoundWithout(objects: seq<C.ClientObject>, id: u32, q: u32)
    requires C.FindSeq(C.WithoutId(objects, id), q) >= 0
    ensures C.FindSeq(objects, q) >= 0
  {
    if objects != [] && objects[0].seq_ != q {
      var rest := C.WithoutId(objects[1..], id);
      assert [] + rest == rest && ([objects[0]] + rest)[1..] == rest;
      FoundWithout(objects[1..], id, q);
    }
  }

  lemma {:induction false} FoundAppend(objects: seq<C.ClientObject>, o: C.ClientObject, q: u32)
    requires C.FindSeq(objects + [o], q) >= 0 && o.seq_ != q
    ensures C.FindSeq(objects, q) >= 0
  {
    assert [o][1..] == [];
    if objects != [] && objects[0].seq_ != q {
      assert (objects + [o])[1..] == objects[1..] + [o];
      FoundAppend(objects[1..], o, q);
    }
  }

  lemma OnGenericIssues(c: C.ClientState, target: u32, k: u32, args: seq<Value>, q: u32)
    ensures var t := C.OnGeneric(c, target, k, args);
      && Issued(t, q) == Issued(c, q) && (C.FindSeq(t.objects, q) >= 0 ==> C.FindSeq(c.objects, q) >= 0)
  {
    hide CalledOutcome, C.FindSeq, C.WithoutId, CallsOf;
    var i := C.FindId(c.objects, target);
    if i >= 0 {
      SessionSteps.FindSeqUpdate(c.objects, i, c.objects[i].(destroyed := true), q);
      if C.FindSeq(C.WithoutId(c.objects, c.objects[i].id), q) >= 0 {
        FoundWithout(c.objects, c.objects[i].id, q);
      }
    }
  }

  /** Reading messages makes and moves no calls. */
  lemma HandleIssues(c: C.ClientState, m: Message, q: u32)
    ensures var t := C.Handle(c, m).c;
      && Issued(t, q) == Issued(c, q) && (C.FindSeq(t.objects, q) >= 0 ==> C.FindSeq(c.objects, q) >= 0)
  {
    hide C.OnGeneric, C.FindSeq, CallsOf, C.ReadSpecs, C.Send;
    match m
    case HandshakeBegin(vs) =>
      SentOther(c, C.Outgoing(HandshakeAck(S.PROTOCOL_VERSION), 0, false), q);
      SendStays(c, C.Outgoing(HandshakeAck(S.PROTOCOL_VERSION), 0, false));
    case NewObject(id, s) =>
      var i := C.FindSeq(c.objects, s);
      if i >= 0 {
        SessionSteps.FindSeqUpdate(c.objects, i, c.objects[i].(id := id), q);
      }
    case Generic(o, k, args) => OnGenericIssues(c, o, k, args, q);
    case _ =>
  }

  lemma SendStays(c: C.ClientState, e: C.Outgoing)
    ensures C.Send(c, e).objects == c.objects
  {
  }

  /** A connection lost is not found again. */
  lemma ConnectedBefore(env: Env, y: System, step: Step)
    requires Inv(env, y) && Enabled(env, y, step) && Next(env, y, step).c.connected
    ensures y.c.connected
  {
    hide Inv, C.CallObject, C.Collect, C.EndBatch, C.Handle, CallKinds, HonestCall, HonestServerCall, S.Handle,
      S.CreateObject, S.CallOut, FindProtocol, SessionSteps.AllQuiet;
    match step
    case ClientCall(i, k, args) =>
      CallIndex(y.c, i, k, args);
      SessionSteps.CallQuietly(env.clientImpls, y.c, i, k, args);
    case ClientCollect => SessionSteps.CollectQuietly(env.clientImpls, y.c);
    case ClientEndBatch =>
      SessionSafety.SeqsOfClient(env, y);
      SessionSteps.EndBatchQuietly(env, y.h.kinds, y.c);
    case ClientHandle => HandleConnected(y.c, y.s.sent[y.cRead]);
    case _ =>
  }

  lemma CallIndex(c: C.ClientState, i: nat, k: u32, args: seq<Value>)
    requires HonestCall(c, i, k, args)
    ensures i < |c.objects|
  {
  }

  lemma HandleConnected(c: C.ClientState, m: Message)
    ensures C.Handle(c, m).c.connected ==> c.connected
  {
    hide CalledOutcome, C.FindSeq, C.FindId, C.WithoutId, C.ReadSpecs;
  }

  lemma BindIssues(c: C.ClientState, spec: ProtocolSpec, version: u32, q: u32)
    requires spec.objects != [] && version <= spec.version
    ensures Issued(C.Bind(c, spec, version), q) == Issued(c, q)
  {
    hide Issued;
    var q' := S.Increment(c.seq_);
    var grown := c.(
      seq_ := q', objects := c.objects + [C.ClientObject(0, q', version, spec.objects[0], spec.name, false, {}, true)]);
    SameIssued(c, grown, q);
    SentOther(grown, C.Outgoing(BindProtocol(q', spec.name, version), 0, false), q);
  }

  lemma RoundtripIssues(c: C.ClientState, q: u32)
    ensures Issued(C.Roundtrip(c), q) == Issued(c, q)
  {
    hide Issued;
    if !c.error {
      var n := S.Increment(c.lastSent);
      SameIssued(c, c.(lastSent := n), q);
      SentOther(c.(lastSent := n), C.Outgoing(RoundtripRequest(n), 0, false), q);
    }
  }

  /** A step adds to the calls of an object exactly the one it makes, at the end. */
  lemma StepIssues(env: Env, y: System, step: Step, q: u32)
    requires Agreed(env) && Inv(env, y) && Enabled(env, y, step) && !Overtakes(y, step, q)
    requires Next(env, y, step).c.connected && C.FindSeq(Next(env, y, step).c.objects, q) >= 0
    ensures Issued(Next(env, y, step).c, q) == Issued(y.c, q) + MadeBy(y, step, q)
  {
    hide ClientInv, ServerInv, ClientHandshake, ServerHandshake, Roundtrips, StageOk, AllWaiting, Births, Dead, Agreed,
      AllKinds, C.CallObject, C.Collect, C.EndBatch, C.Handle, C.Bind, C.Roundtrip, CallKinds, HonestCall,
      HonestServerCall, S.Handle, S.CreateObject, S.CallOut, FindProtocol, Issued, C.FindSeq, Overtakes;
    assert Issued(y.c, q) + [] == Issued(y.c, q);
    ConnectedBefore(env, y, step);
    SessionSafety.KindsOfServer(env, y);
    match step
    case ClientBind(spec, version) => BindIssues(y.c, spec, version, q);
    case ClientCall(i, k, args) => CallIssues(env, y, i, k, args, q);
    case ClientRoundtrip => RoundtripIssues(y.c, q);
    case ClientCollect => CollectIssues(env, y.h.kinds, y.h.born, Known(y), y.c, q);
    case ClientEndBatch => EndBatchIssues(env, y.h.kinds, y.h.born, Known(y), y.c, q);
    case ClientHandle =>
      HandleIssues(y.c, y.s.sent[y.cRead], q);
      DisconnectIssues(C.Handle(y.c, y.s.sent[y.cRead]).c, q);
    case ClientHold(i, held) => SameIssued(y.c, C.Hold(y.c, i, held), q);
    case ClientListen(i, k) => SameIssued(y.c, C.Listen(y.c, i, k), q);
    case _ =>
  }

  lemma DisconnectIssues(c: C.ClientState, q: u32)
    ensures Issued(C.Disconnect(c), q) == Issued(c, q)
  {
  }

  lemma MakeBack(impls: seq<ProtocolSpec>, c: C.ClientState, protocol: Text, name: Text, q': u32, q: u32)
    requires q != q' && C.FindSeq(C.MakeObject(impls, c, protocol, name, q').objects, q) >= 0
    ensures C.FindSeq(c.objects, q) >= 0
  {
    hide FindProtocol, FindObject, C.FindSeq;
    var t := C.MakeObject(impls, c, protocol, name, q');
    if t != c {
      FoundAppend(c.objects, t.objects[|c.objects|], q);
    }
  }

  lemma CallBack(impls: seq<ProtocolSpec>, c: C.ClientState, i: nat, k: u32, args: seq<Value>, q: u32)
    requires HonestCall(c, i, k, args) && q <= c.seq_ && C.FindSeq(C.CallObject(impls, c, i, k, args).objects, q) >= 0
    ensures C.FindSeq(c.objects, q) >= 0
  {
    hide C.FindSeq, C.CallObject, C.MakeObject, HasPending;
    if !C.Callable(c.objects[i], k) {
      SessionSteps.NotCallable(impls, c, i, k, args);
    } else {
      CS.CallObjectIs(impls, c, i, k, args);
      var o := c.objects[i];
      var m := o.spec.c2s[k];
      var q' := C.SeqAfter(c, m);
      var e := C.Outgoing(Generic(o.id, k, CallArgs(m, q', args)), o.seq_, m.isDestructor);
      var out := CS.Emitted(CS.Marked(c, i, m.isDestructor).(seq_ := q'), o, e);
      if m.Returns() {
        MakeBack(impls, out, o.protocol, m.returnsType, q', q);
      }
      SessionSteps.FindSeqUpdate(c.objects, i, o.(destroyed := true), q);
    }
  }

  /** The table never takes back an object it let go. */
  lemma FoundBefore(env: Env, y: System, step: Step, q: u32)
    requires Agreed(env) && Inv(env, y) && Enabled(env, y, step) && q <= y.c.seq_ && Next(env, y, step).c.connected
    requires C.FindSeq(Next(env, y, step).c.objects, q) >= 0
    ensures C.FindSeq(y.c.objects, q) >= 0
  {
    hide ClientInv, ServerInv, ClientHandshake, ServerHandshake, Roundtrips, StageOk, AllWaiting, Births, Dead, Agreed,
      AllKinds, C.CallObject, C.Collect, C.EndBatch, C.Handle, C.Bind, CallKinds, HonestCall, HonestServerCall,
      S.Handle, S.CreateObject, S.CallOut, FindProtocol, C.FindSeq, Issued;
    ConnectedBefore(env, y, step);
    SessionSafety.KindsOfServer(env, y);
    match step
    case ClientBind(spec, version) =>
      SessionSafety.BindQuietly(y.c, spec, version);
      FoundAppend(y.c.objects, C.Bind(y.c, spec, version).objects[|y.c.objects|], q);
    case ClientCall(i, k, args) => CallBack(env.clientImpls, y.c, i, k, args, q);
    case ClientCollect => CollectIssues(env, y.h.kinds, y.h.born, Known(y), y.c, q);
    case ClientEndBatch => EndBatchIssues(env, y.h.kinds, y.h.born, Known(y), y.c, q);
    case ClientHandle => HandleIssues(y.c, y.s.sent[y.cRead], q);
    case ClientHold(i, held) => SessionSteps.FindSeqUpdate(y.c.objects, i, y.c.objects[i].(held := held), q);
    case ClientListen(i, k) =>
      SessionSteps.FindSeqUpdate(y.c.objects, i, y.c.objects[i].(listeners := y.c.objects[i].listeners + {k as nat}),
        q);
    case _ =>
  }

  lemma {:induction false} FreshOnWire(env: Env, kinds: seq<Kind>, born: seq<u32>, known: nat, sent: seq<C.Outgoing>,
      q: u32)
    requires AllEntries(env, kinds, born, known, sent) && |kinds| < q
    ensures CallsOf(q, sent) == []
  {
    if sent == [] {
    } else {
      FreshOnWire(env, kinds, born, known, sent[..|sent| - 1], q);
    }
  }

  /** A number not yet given out has no calls. */
  lemma FreshIssues(env: Env, y: System, step: Step, q: u32)
    requires Inv(env, y) && y.c.seq_ < q
    ensures Issued(y.c, q) == [] && MadeBy(y, step, q) == []
  {
    hide ServerInv, ClientHandshake, ServerHandshake, Roundtrips, StageOk, AllWaiting, Births, Dead, AllObjects,
      AllKept, AllEntries, ClientLogOk, SeqsRise, CallsOf;
    FreshOnWire(env, y.h.kinds, y.h.born, Known(y), y.c.sent, q);
    CS.FreshNotPending(env, y.h.kinds, y.c.pending, q);
    NotPendingNoCalls(y.c.pending, q);
    match step
    case ClientCall(i, k, args) =>
      if i < |y.c.objects| {
        CT.SeqBelow(y.c.objects, |y.h.kinds|, i);
      }
    case _ =>
  }

  lemma {:induction false} ConnectedThroughout(env: Env, y: System, steps: seq<Step>)
    requires Agreed(env) && Inv(env, y) && Honest(env, y, steps) && Run(env, y, steps).c.connected
    ensures y.c.connected
    decreases |steps|
  {
    if steps == [] {
    } else {
      hide Inv, Next, Enabled;
      SessionSafety.StepKeeps(env, y, steps[0]);
      ConnectedThroughout(env, Next(env, y, steps[0]), steps[1..]);
      ConnectedBefore(env, y, steps[0]);
    }
  }

  lemma SeqGrows(env: Env, y: System, step: Step)
    requires Agreed(env) && Inv(env, y) && Enabled(env, y, step)
    ensures y.c.seq_ <= Next(env, y, step).c.seq_
  {
    hide Inv, C.Bind, C.Roundtrip, C.Handle, Agreed, HonestCall, HonestServerCall, C.CallObject, C.EndBatch, C.Collect,
      S.Handle, S.CreateObject, S.CallOut, OwedBy, ChildKind;
    SessionSafety.StepKeeps(env, y, step);
    SessionSafety.CountsOfClient(env, y);
    SessionSafety.CountsOfClient(env, Next(env, y, step));
  }

  lemma {:induction false} FoundThroughout(env: Env, y: System, steps: seq<Step>, q: u32)
    requires Agreed(env) && Inv(env, y) && Honest(env, y, steps) && Run(env, y, steps).c.connected
    requires q <= y.c.seq_ && C.FindSeq(Run(env, y, steps).c.objects, q) >= 0
    ensures C.FindSeq(y.c.objects, q) >= 0
    decreases |steps|
  {
    if steps == [] {
    } else {
      hide Inv, Next, Enabled, C.FindSeq;
      var z := Next(env, y, steps[0]);
      SessionSafety.StepKeeps(env, y, steps[0]);
      ConnectedThroughout(env, z, steps[1..]);
      SeqGrows(env, y, steps[0]);
      FoundThroughout(env, z, steps[1..], q);
      FoundBefore(env, y, steps[0], q);
    }
  }

  /** The first step of a run, for an object that is there at its end. */
  lemma FirstIssues(env: Env, y: System, steps: seq<Step>, q: u32)
    requires Agreed(env) && Inv(env, y) && steps != [] && Honest(env, y, steps) && !Overtakes(y, steps[0], q)
    requires Run(env, y, steps).c.connected && C.FindSeq(Run(env, y, steps).c.objects, q) >= 0
    ensures Inv(env, Next(env, y, steps[0]))
    ensures Issued(Next(env, y, steps[0]).c, q) == Issued(y.c, q) + MadeBy(y, steps[0], q)
  {
    hide Inv, Next, Enabled, C.FindSeq, Overtakes, MadeBy, Issued;
    var z := Next(env, y, steps[0]);
    SessionSafety.StepKeeps(env, y, steps[0]);
    ConnectedThroughout(env, z, steps[1..]);
    if q <= z.c.seq_ {
      FoundThroughout(env, z, steps[1..], q);
      StepIssues(env, y, steps[0], q);
    } else {
      SeqGrows(env, y, steps[0]);
      FreshIssues(env, y, steps[0], q);
      FreshIssues(env, z, steps[0], q);
    }
  }

  lemma Together(a: seq<C.Outgoing>, b: seq<C.Outgoing>, c: seq<C.Outgoing>)
    ensures a + b + c == a + (b + c)
  {
  }

  /** Order. While an object is in the client's table and the connection stands, the calls
      made on it are on the wire or kept back, each once, in the order they were made,
      unless a listener overtook calls still kept back. */
  lemma {:induction false} OrderKept(env: Env, y: System, steps: seq<Step>, q: u32)
    requires Agreed(env) && Inv(env, y) && Honest(env, y, steps) && NeverOvertaken(env, y, steps, q)
    requires Run(env, y, steps).c.connected && C.FindSeq(Run(env, y, steps).c.objects, q) >= 0
    ensures Issued(Run(env, y, steps).c, q) == Issued(y.c, q) + MadeOn(env, y, steps, q)
    decreases |steps|
  {
    if steps == [] {
      assert Issued(y.c, q) + [] == Issued(y.c, q);
    } else {
      hide Inv, Next, Enabled, C.FindSeq, Overtakes, MadeBy, Issued;
      var z := Next(env, y, steps[0]);
      FirstIssues(env, y, steps, q);
      OrderKept(env, z, steps[1..], q);
      Together(Issued(y.c, q), MadeBy(y, steps[0], q), MadeOn(env, z, steps[1..], q));
    }
  }

  lemma {:induction false} PendingWaits(objects: seq<C.ClientObject>, ps: seq<C.Outgoing>, j: nat)
    requires AllWaiting(objects, ps) && j < |ps|
    ensures Waiting(objects, ps[j])
  {
    if j < |ps| - 1 {
      PendingWaits(objects, ps[..|ps| - 1], j);
    }
  }

  /** Between dispatches, a call is kept back only while its object is in the table and has
      no id; and the calls of every object in the table are on the wire or kept back in the
      order they were made. */
  lemma DeferredCalls(env: Env, steps: seq<Step>, q: u32, j: nat)
    requires Agreed(env) && Honest(env, Init(), steps)
    requires var y := Run(env, Init(), steps); y.c.connected
    ensures var y := Run(env, Init(), steps);
      && (!y.inBatch && j < |y.c.pending| ==> Waiting(y.c.objects, y.c.pending[j]))
      && (C.FindSeq(y.c.objects, q) >= 0 && NeverOvertaken(env, Init(), steps, q) ==>
          CallsOf(q, y.c.sent) + CallsOf(q, y.c.pending) == MadeOn(env, Init(), steps, q))
  {
    hide ClientInv, ServerInv, ClientHandshake, ServerHandshake, Roundtrips, StageOk, AllWaiting, Births, Dead, Agreed,
      Waiting, C.FindSeq, NeverOvertaken, MadeOn, CallsOf;
    var y := Run(env, Init(), steps);
    SessionSafety.InitInv(env);
    SessionSafety.RunKeeps(env, Init(), steps);
    if !y.inBatch && j < |y.c.pending| {
      PendingWaits(y.c.objects, y.c.pending, j);
    }
    if C.FindSeq(y.c.objects, q) >= 0 && NeverOvertaken(env, Init(), steps, q) {
      OrderKept(env, Init(), steps, q);
      NothingIssued(q);
      assert [] + MadeOn(env, Init(), steps, q) == MadeOn(env, Init(), steps, q);
    }
  }

  lemma NothingIssued(q: u32)
    ensures Issued(Init().c, q) == []
  {
    CallsOfOne(q, C.Outgoing(Hello, 0, false));
  }

  // Overtaking.

  predicate AllSame(es: seq<C.Outgoing>, e: C.Outgoing) {
    es == [] || (es[0] == e && AllSame(es[1..], e))
  }

  /** Moving an element from the back of a list to the front changes the list, unless all are
      the same. */
  lemma {:induction false} Rotated(es: seq<C.Outgoing>, e: C.Outgoing)
    ensures [e] + es == es + [e] <==> AllSame(es, e)
  {
    if es != [] {
      Rotated(es[1..], e);
      assert es + [e] == [es[0]] + (es[1..] + [e]) && [e] + es == [e] + ([es[0]] + es[1..]);
      assert ([e] + es)[0] == e && (es + [e])[0] == es[0] && ([e] + es)[1..] == es && (es + [e])[1..] == es[1..] + [e];
      if es[0] == e {
        assert es == [e] + es[1..];
      }
    } else {
      assert [e] + [] == [] + [e];
    }
  }

  lemma IssuedAhead(c: C.ClientState, o: C.ClientObject, e: C.Outgoing)
    requires e.msg.Generic? && e.origin == o.seq_ && o.id != 0 && c.connected
    ensures Issued(CS.Emitted(c, o, e), o.seq_)
      == CallsOf(o.seq_, c.sent) + ([C.ResolvedTo(e, 0)] + CallsOf(o.seq_, c.pending))
  {
    hide CallsOf;
    CallsOfOne(o.seq_, e);
    CallsOfAppend(o.seq_, c.sent, [e]);
    var x, p := CallsOf(o.seq_, c.sent), CallsOf(o.seq_, c.pending);
    assert x + [C.ResolvedTo(e, 0)] + p == x + ([C.ResolvedTo(e, 0)] + p);
  }

  /** A call that overtakes puts itself in front of the calls kept back: the order in which the
      object's calls were made is lost, unless all of them are the same call. */
  lemma OvertakingReorders(env: Env, y: System, i: nat, k: u32, args: seq<Value>, q: u32)
    requires HonestCall(y.c, i, k, args) && Overtakes(y, ClientCall(i, k, args), q)
    requires C.Callable(y.c.objects[i], k) && y.c.connected
    ensures |MadeBy(y, ClientCall(i, k, args), q)| == 1
    ensures Issued(C.CallObject(env.clientImpls, y.c, i, k, args), q)
      == Issued(y.c, q) + MadeBy(y, ClientCall(i, k, args), q)
      <==> AllSame(CallsOf(q, y.c.pending), MadeBy(y, ClientCall(i, k, args), q)[0])
  {
    hide C.CallObject, C.MakeObject, HasPending, FindProtocol, FindObject, CallsOf, AllSame;
    var o := y.c.objects[i];
    var m := o.spec.c2s[k];
    var q' := C.SeqAfter(y.c, m);
    CS.CallObjectIs(env.clientImpls, y.c, i, k, args);
    var e := C.Outgoing(Generic(o.id, k, CallArgs(m, q', args)), o.seq_, m.isDestructor);
    var counted := CS.Marked(y.c, i, m.isDestructor).(seq_ := q');
    MakeIssues(env.clientImpls, CS.Emitted(counted, o, e), o.protocol, m.returnsType, q', q);
    IssuedAhead(counted, o, e);
    var x, p, made := CallsOf(q, y.c.sent), CallsOf(q, y.c.pending), C.ResolvedTo(e, 0);
    Together(x, p, [made]);
    Rotated(p, made);
    SameTail(x, [made] + p, p + [made]);
  }

  lemma SameTail(x: seq<C.Outgoing>, a: seq<C.Outgoing>, b: seq<C.Outgoing>)
    ensures x + a == x + b <==> a == b
  {
    assert (x + a)[|x|..] == a && (x + b)[|x|..] == b;
  }

  lemma {:induction false} CallsFound(es: seq<C.Outgoing>, q: u32) returns (j: nat)
    requires CallsOf(q, es) != []
    ensures j < |es| && es[j].msg.Generic? && es[j].origin == q
  {
    var n := |es| - 1;
    if es[n].msg.Generic? && es[n].origin == q {
      j := n;
    } else {
      j := CallsFound(es[..n], q);
    }
  }

  lemma {:induction false} AddressedAt(q: u32, id: u32, es: seq<C.Outgoing>, j: nat)
    requires Addressed(q, id, es) && j < |es| && es[j].msg.Generic? && es[j].origin == q
    ensures es[j].msg.objectId == id
  {
    if j < |es| - 1 {
      AddressedAt(q, id, es[..|es| - 1], j);
    }
  }

  lemma {:induction false} PendingCalls(env: Env, kinds: seq<Kind>, ps: seq<C.Outgoing>, q: u32)
    requires AllKept(env, kinds, ps) && HasPending(ps, q)
    ensures CallsOf(q, ps) != []
  {
    if ps[|ps| - 1].origin != q {
      PendingCalls(env, kinds, ps[..|ps| - 1], q);
    }
  }

  /** All that makes a destructor call honest except that it does not overtake. */
  predicate DestructorCall(c: C.ClientState, i: nat, k: u32, args: seq<Value>) {
    i < |c.objects| && c.seq_ < 0xFFFF_FFFF &&
    var o := c.objects[i];
    o.id != 0 && !o.destroyed && C.Callable(o, k) && o.spec.c2s[k].isDestructor
    && TypesOf(args) == o.spec.c2s[k].params && AllSendable(args) && Marshallable(o.spec.c2s[k].params, 0)
  }

  lemma DestructorSent(impls: seq<ProtocolSpec>, c: C.ClientState, i: nat, k: u32, args: seq<Value>)
    requires DestructorCall(c, i, k, args) && c.connected
    ensures var o := c.objects[i]; var t := C.CallObject(impls, c, i, k, args);
      && t.connected && t.pending == c.pending
      && t.sent == c.sent + [C.Outgoing(Generic(o.id, k, CallArgs(o.spec.c2s[k], C.SeqAfter(c, o.spec.c2s[k]), args)),
        o.seq_, true)]
      && (t.objects == c.objects[i := o.(destroyed := true)] ||
          (|t.objects| == |c.objects| + 1 &&
            t.objects == c.objects[i := o.(destroyed := true)] + [t.objects[|c.objects|]]))
  {
    hide C.CallObject, FindProtocol, FindObject;
    CS.CallObjectIs(impls, c, i, k, args);
  }

  lemma OvertakenTable(env: Env, y: System, i: nat, k: u32, args: seq<Value>)
    requires Inv(env, y) && y.c.connected && DestructorCall(y.c, i, k, args)
    ensures var t := C.CallObject(env.clientImpls, y.c, i, k, args); var o := y.c.objects[i];
      FateOf(t.objects, o.seq_) == SentTo(o.id)
  {
    hide Inv, C.FindSeq, SeqsRise, C.CallObject;
    var o := y.c.objects[i];
    var q := o.seq_;
    var t := C.CallObject(env.clientImpls, y.c, i, k, args);
    DestructorSent(env.clientImpls, y.c, i, k, args);
    SessionSafety.SeqsOfClient(env, y);
    SessionSteps.FindSeqAt(y.c.objects, |y.h.kinds|, i);
    SessionSteps.FindSeqUpdate(y.c.objects, i, o.(destroyed := true), q);
    var marked := y.c.objects[i := o.(destroyed := true)];
    if t.objects != marked {
      SessionSteps.FindSeqAppend(marked, t.objects[|marked|], q);
    }
  }

  lemma Behind(a: seq<C.Outgoing>, b: seq<C.Outgoing>)
    requires a <= b
    ensures b == a + b[|a|..]
  {
  }

  /** What the flush adds for an object with an id are the calls kept back for it. */
  lemma LateCalls(c: C.ClientState, q: u32, id: u32)
    requires c.connected && SessionSteps.AllCalls(c.pending) && FateOf(c.objects, q) == SentTo(id)
    ensures var u := C.Flush(c);
      c.sent <= u.sent && Addressed(q, id, u.sent[|c.sent|..]) &&
        CallsOf(q, u.sent[|c.sent|..]) == CallsOf(q, c.pending)
  {
    hide C.Flush, CallsOf, Addressed, FateOf, SessionSteps.AllCalls;
    FlushCalls(c, q);
    FlushAddresses(c, q);
    var u := C.Flush(c);
    var late := u.sent[|c.sent|..];
    Behind(c.sent, u.sent);
    CallsOfAppend(q, c.sent, late);
    SameTail(CallsOf(q, c.sent), CallsOf(q, late), CallsOf(q, c.pending));
  }

  /** A call kept back for an object that has its id by now goes out in the flush. */
  lemma LateAt(c: C.ClientState, q: u32, id: u32) returns (j: nat)
    requires c.connected && SessionSteps.AllCalls(c.pending) && CallsOf(q, c.pending) != []
    requires FateOf(c.objects, q) == SentTo(id)
    ensures var u := C.Flush(c);
      c.sent <= u.sent && |c.sent| <= j < |u.sent| && u.sent[j].msg.Generic? && u.sent[j].msg.objectId == id
  {
    hide C.Flush, CallsOf, Addressed, FateOf, SessionSteps.AllCalls;
    LateCalls(c, q, id);
    var u := C.Flush(c);
    var late := u.sent[|c.sent|..];
    var l := CallsFound(late, q);
    AddressedAt(q, id, late, l);
    j := |c.sent| + l;
  }

  /** In the log of the client at the end of the batch: the destructor where the log ended
      before, and behind it a call of the same object that was kept back. */
  lemma OvertakenAt(env: Env, y: System, i: nat, k: u32, args: seq<Value>) returns (j: nat)
    requires Inv(env, y) && y.c.connected && DestructorCall(y.c, i, k, args)
    requires HasPending(y.c.pending, y.c.objects[i].seq_)
    ensures var u := C.Flush(C.CallObject(env.clientImpls, y.c, i, k, args));
      var n, id := |y.c.sent|, y.c.objects[i].id;
      && n < j < |u.sent| && u.sent[..n] == y.c.sent
      && u.sent[n].dtor && u.sent[n].msg.Generic? && u.sent[n].msg.objectId == id && u.sent[n].msg.method_ == k
      && u.sent[j].msg.Generic? && u.sent[j].msg.objectId == id
  {
    hide Inv, C.Flush, C.CallObject, HasPending, CallsOf, FateOf, AllKept, CallArgs;
    var q := y.c.objects[i].seq_;
    var t := C.CallObject(env.clientImpls, y.c, i, k, args);
    DestructorSent(env.clientImpls, y.c, i, k, args);
    SessionSafety.SeqsOfClient(env, y);
    PendingCalls(env, y.h.kinds, t.pending, q);
    SessionSteps.KeptAreCalls(env, y.h.kinds, t.pending);
    OvertakenTable(env, y, i, k, args);
    j := LateAt(t, q, y.c.objects[i].id);
  }

  lemma OvertakenIsStale(env: Env, y: System, i: nat, k: u32, args: seq<Value>)
    requires Inv(env, y) && y.c.connected && DestructorCall(y.c, i, k, args)
    requires HasPending(y.c.pending, y.c.objects[i].seq_)
    ensures !ClientLogOk(C.Flush(C.CallObject(env.clientImpls, y.c, i, k, args)).sent)
  {
    hide Inv, C.Flush, C.CallObject, HasPending, ClientLogOk, LastRequest, Dead;
    var j := OvertakenAt(env, y, i, k, args);
    var u := C.Flush(C.CallObject(env.clientImpls, y.c, i, k, args));
    if ClientLogOk(u.sent) {
      CT.ClientLogAt(u.sent, j);
      SessionTheorems.DeadAt(u.sent, j, |y.c.sent|);
      assert false;
    }
  }

  /** When a destructor is called on an object that already has its id, the log stays free
      of calls behind destructors after the coming flush if and only if no call of the object
      is still kept back. */
  lemma OvertakingStains(env: Env, y: System, i: nat, k: u32, args: seq<Value>)
    requires Agreed(env) && Inv(env, y) && y.c.connected && DestructorCall(y.c, i, k, args)
    ensures ClientLogOk(C.Flush(C.CallObject(env.clientImpls, y.c, i, k, args)).sent)
      <==> !HasPending(y.c.pending, y.c.objects[i].seq_)
  {
    hide ClientInv, ServerInv, ClientHandshake, ServerHandshake, Roundtrips, StageOk, AllWaiting, Births, Dead, Agreed,
      C.Flush, C.CallObject, HasPending, ClientLogOk, AllKinds, ChildKind;
    var t := C.CallObject(env.clientImpls, y.c, i, k, args);
    if HasPending(y.c.pending, y.c.objects[i].seq_) {
      OvertakenIsStale(env, y, i, k, args);
    } else {
      var kinds := CallKinds(env, y.h.kinds, y.c.objects[i], k);
      SessionSafety.KindsOfServer(env, y);
      if y.c.objects[i].spec.c2s[k].Returns() {
        CS.MakingCallKeeps(env, y.h.kinds, y.h.born, Known(y), y.c, i, k, args);
      } else {
        CS.PlainCallKeeps(env, y.h.kinds, y.h.born, Known(y), y.c, i, k, args);
      }
      CS.FlushKeeps(env, kinds, y.h.born, Known(y), t);
      LogOf(env, kinds, y.h.born, Known(y), C.Flush(t));
    }
  }

  lemma LogOf(env: Env, kinds: seq<Kind>, born: seq<u32>, known: nat, c: C.ClientState)
    requires ClientInv(env, kinds, born, known, c)
    ensures ClientLogOk(c.sent)
  {
  }

  // What the server makes of it.

  /** The client when the batch in which it calls the destructor is over. */
  function Overtaken(env: Env, c: C.ClientState, i: nat, k: u32, args: seq<Value>): C.ClientState
    requires i < |c.objects|
  {
    C.EndBatch(env.clientImpls, C.CallObject(env.clientImpls, c, i, k, args))
  }

  /** What of a client's log the server has not taken yet. */
  function Unread(c: C.ClientState, read: nat): seq<Message>
    requires read <= |c.sent|
  {
    C.MessagesOf(c.sent[read..])
  }

  lemma {:induction false} MessagesAt(es: seq<C.Outgoing>, j: nat)
    requires j < |es|
    ensures C.MessagesOf(es)[j] == es[j].msg
  {
    if j < |es| - 1 {
      MessagesAt(es[..|es| - 1], j);
    }
  }

  lemma UnreadAt(c: C.ClientState, read: nat, j: nat)
    requires read <= j < |c.sent|
    ensures j - read < |Unread(c, read)| && Unread(c, read)[j - read] == c.sent[j].msg
  {
    MessagesAt(c.sent[read..], j - read);
  }

  lemma OvertakenGrows(env: Env, y: System, i: nat, k: u32, args: seq<Value>)
    requires Inv(env, y) && y.c.connected && DestructorCall(y.c, i, k, args)
    ensures y.c.sent <= Overtaken(env, y.c, i, k, args).sent
    ensures C.Flush(C.CallObject(env.clientImpls, y.c, i, k, args)).sent <= Overtaken(env, y.c, i, k, args).sent
  {
    hide Inv, C.CallObject, C.Collect, AllKept, C.FlushAll, SessionSteps.AllQuiet;
    var t := C.CallObject(env.clientImpls, y.c, i, k, args);
    DestructorSent(env.clientImpls, y.c, i, k, args);
    SessionSafety.SeqsOfClient(env, y);
    SessionSteps.KeptAreCalls(env, y.h.kinds, t.pending);
    SessionSteps.FlushAllQuietly(env, y.h.kinds, t.(pending := []), t.pending);
    SessionSteps.CollectQuietly(env.clientImpls, C.Flush(t));
  }

  lemma {:induction false} TwinsTyped(kinds: seq<Kind>, born: seq<u32>, objects: seq<S.ServerObject>, id: u32)
    requires AllTwins(kinds, born, objects) && 1 <= id <= |born| && 1 <= born[id - 1] <= |kinds|
    ensures ServerSafety.Typed(objects, id, kinds[born[id - 1] - 1].spec)
  {
    forall o | o in objects && o.id == id ensures o.spec == Spec(kinds[born[id - 1] - 1].spec) {
      var j :| 0 <= j < |objects| && objects[j] == o;
      SS.TwinAt(kinds, born, objects, j);
    }
  }

  /** The server's half of the client's object has the client's methods, or is gone. */
  lemma HalvesTyped(env: Env, y: System, i: nat)
    requires Inv(env, y) && i < |y.c.objects| && y.c.objects[i].id != 0
    ensures ServerSafety.Typed(y.s.objects, y.c.objects[i].id, y.c.objects[i].spec) && y.c.objects[i].id < y.s.maxId
  {
    hide ClientHandshake, ServerHandshake, Roundtrips, StageOk, AllWaiting, Births, Dead, AllObjects, AllKept,
      AllEntries, ClientLogOk, SeqsRise, AllTwins, Present, AllKinds, AllOwed, AllBorn, ServerLogOk, AllEvents,
      HasPending, DtorPending, ServerSafety.Typed;
    CT.ObjectAt(y.h.kinds, y.h.born, Known(y), y.c.pending, Dead(y.c.sent), y.c.objects, i);
    TwinsTyped(y.h.kinds, y.h.born, y.s.objects, y.c.objects[i].id);
  }

  // The rest of the batch.

  /** What a client that is in the middle of a batch does before its end. */
  predicate Midway(steps: seq<Step>) {
    steps == [] || (!steps[0].ClientEndBatch? && !steps[0].ClientCollect? && Midway(steps[1..]))
  }

  /** Logs and kept-back calls only grow. */
  ghost predicate Grown(a: C.ClientState, b: C.ClientState) {
    a.sent <= b.sent && a.pending <= b.pending &&
      (SessionSteps.AllCalls(a.pending) ==> SessionSteps.AllCalls(b.pending))
  }

  lemma CallGrows(impls: seq<ProtocolSpec>, c: C.ClientState, i: nat, k: u32, args: seq<Value>)
    requires HonestCall(c, i, k, args)
    ensures Grown(c, C.CallObject(impls, c, i, k, args))
  {
    hide C.CallObject, HasPending, FindProtocol, FindObject, SessionSteps.AllCalls;
    if C.Callable(c.objects[i], k) {
      var o := c.objects[i];
      var m := o.spec.c2s[k];
      CS.CallObjectIs(impls, c, i, k, args);
      var e := C.Outgoing(Generic(o.id, k, CallArgs(m, C.SeqAfter(c, m), args)), o.seq_, m.isDestructor);
      if SessionSteps.AllCalls(c.pending) {
        SessionSteps.CallsSnoc(c.pending, e);
      }
    } else {
      SessionSteps.NotCallable(impls, c, i, k, args);
    }
  }

  lemma HandleGrows(c: C.ClientState, m: Message)
    ensures c.sent <= C.Handle(c, m).c.sent && C.Handle(c, m).c.pending == c.pending
  {
    hide C.OnGeneric, C.FindSeq, C.ReadSpecs;
    if m.Generic? {
      EventGrows(c, m.objectId, m.method_, m.args);
    }
  }

  lemma EventGrows(c: C.ClientState, target: u32, k: u32, args: seq<Value>)
    ensures var t := C.OnGeneric(c, target, k, args); t.sent == c.sent && t.pending == c.pending
  {
    hide CalledOutcome, C.FindId, C.WithoutId;
  }

  lemma StepGrows(env: Env, y: System, step: Step)
    requires Enabled(env, y, step) && Midway([step])
    ensures Grown(y.c, Next(env, y, step).c)
  {
    hide C.CallObject, C.Handle, CallKinds, HonestCall, HonestServerCall, S.Handle, S.CreateObject, S.CallOut, OwedBy,
      FindProtocol, Advertised, SessionSteps.AllCalls;
    match step
    case ClientCall(i, k, args) => CallGrows(env.clientImpls, y.c, i, k, args);
    case ClientHandle => HandleGrows(y.c, y.s.sent[y.cRead]);
    case _ =>
  }

  lemma {:induction false} RunGrows(env: Env, y: System, steps: seq<Step>)
    requires Honest(env, y, steps) && Midway(steps)
    ensures Grown(y.c, Run(env, y, steps).c)
    decreases |steps|
  {
    if steps == [] {
    } else {
      assert [steps[0]][1..] == [];
      hide Enabled, Next, SessionSteps.AllCalls;
      StepGrows(env, y, steps[0]);
      RunGrows(env, Next(env, y, steps[0]), steps[1..]);
    }
  }

  lemma {:induction false} CallsGrow(q: u32, a: seq<C.Outgoing>, b: seq<C.Outgoing>)
    requires a <= b && CallsOf(q, a) != []
    ensures CallsOf(q, b) != []
  {
    CallsOfAppend(q, a, b[|a|..]);
    assert b == a + b[|a|..];
  }

  lemma EndBatchFlushes(impls: seq<ProtocolSpec>, c: C.ClientState)
    ensures C.Flush(c).sent <= C.EndBatch(impls, c).sent
  {
    hide C.Flush, C.Collect, SessionSteps.AllQuiet;
    SessionSteps.CollectQuietly(impls, C.Flush(c));
  }

  /** The state right behind the destructor call. */
  function AfterCall(env: Env, y: System, i: nat, k: u32, args: seq<Value>): System
    requires i < |y.c.objects|
  {
    y.(c := C.CallObject(env.clientImpls, y.c, i, k, args))
  }

  /** Where destructor and late call stand in the log, however the batch goes on. */
  lemma OvertakenLater(env: Env, y: System, i: nat, k: u32, args: seq<Value>, steps: seq<Step>) returns (j: nat)
    requires Inv(env, y) && y.c.connected && DestructorCall(y.c, i, k, args)
    requires HasPending(y.c.pending, y.c.objects[i].seq_)
    requires Honest(env, AfterCall(env, y, i, k, args), steps) && Midway(steps)
    requires var w := Run(env, AfterCall(env, y, i, k, args), steps);
      w.c.connected && FateOf(w.c.objects, y.c.objects[i].seq_) == SentTo(y.c.objects[i].id)
    ensures var u := C.EndBatch(env.clientImpls, Run(env, AfterCall(env, y, i, k, args), steps).c);
      var n, id := |y.c.sent|, y.c.objects[i].id;
      && n < j < |u.sent|
      && u.sent[n].msg.Generic? && u.sent[n].msg.objectId == id && u.sent[n].msg.method_ == k
      && u.sent[j].msg.Generic? && u.sent[j].msg.objectId == id
  {
    hide Inv, C.Flush, C.CallObject, C.EndBatch, HasPending, CallsOf, FateOf, AllKept, CallArgs, Honest, Run, Midway,
      SessionSteps.AllCalls;
    var q := y.c.objects[i].seq_;
    var z := AfterCall(env, y, i, k, args);
    DestructorSent(env.clientImpls, y.c, i, k, args);
    SessionSafety.SeqsOfClient(env, y);
    PendingCalls(env, y.h.kinds, y.c.pending, q);
    SessionSteps.KeptAreCalls(env, y.h.kinds, y.c.pending);
    RunGrows(env, z, steps);
    var w := Run(env, z, steps);
    CallsGrow(q, z.c.pending, w.c.pending);
    j := LateAt(w.c, q, y.c.objects[i].id);
    EndBatchFlushes(env.clientImpls, w.c);
    var n := |y.c.sent|;
    assert z.c.sent[n] == w.c.sent[n] == C.EndBatch(env.clientImpls, w.c).sent[n];
  }

  /** The destructor overtook. However the batch goes on, if the object is still there with its
      id when it is over, then whatever the server's application does and whatever the client
      sends after, the server ends up in error for this client. */
  lemma OvertakingFails(env: Env, y: System, i: nat, k: u32, args: seq<Value>, steps: seq<Step>,
      events: seq<ServerSafety.Event>)
    requires SessionTheorems.Reachable(env, y) && y.c.connected && DestructorCall(y.c, i, k, args)
    requires HasPending(y.c.pending, y.c.objects[i].seq_) && y.s.maxId + |events| <= 0xFFFF_FFFF
    requires Honest(env, AfterCall(env, y, i, k, args), steps) && Midway(steps)
    requires var w := Run(env, AfterCall(env, y, i, k, args), steps);
      && w.c.connected && FateOf(w.c.objects, y.c.objects[i].seq_) == SentTo(y.c.objects[i].id)
      && y.sRead <= |C.EndBatch(env.clientImpls, w.c).sent|
      && Unread(C.EndBatch(env.clientImpls, w.c), y.sRead) <= ServerSafety.Heard(events)
    ensures ServerSafety.After(env.server, y.s, events).error
  {
    hide Inv, SessionTheorems.Reachable, HasPending, ServerSafety.Heard, ServerSafety.After, Unread, C.EndBatch,
      ServerSafety.Typed, C.Flush, C.CallObject, Honest, Run, Midway, FateOf;
    SessionTheorems.ReachableInv(env, y);
    var u, n := C.EndBatch(env.clientImpls, Run(env, AfterCall(env, y, i, k, args), steps).c), |y.c.sent|;
    var j := OvertakenLater(env, y, i, k, args, steps);
    LogsRead(env, y);
    UnreadAt(u, y.sRead, n);
    UnreadAt(u, y.sRead, j);
    HalvesTyped(env, y, i);
    ServerSafety.LateCallFails(env.server, y.s, events, n - y.sRead, j - y.sRead, y.c.objects[i].id,
      y.c.objects[i].spec);
  }

  lemma LogsRead(env: Env, y: System)
    requires Inv(env, y)
    ensures y.sRead <= |y.c.sent| && y.cRead <= |y.s.sent|
  {
    hide ClientInv, ServerInv, ClientHandshake, ServerHandshake, Roundtrips, StageOk, AllWaiting, Births, Dead;
  }

  /** The destructor overtook nothing: the server takes all of the log without an error. */
  lemma NotOvertakingPasses(env: Env, y: System, i: nat, k: u32, args: seq<Value>)
    requires Agreed(env) && Inv(env, y) && y.c.connected && DestructorCall(y.c, i, k, args)
    requires !HasPending(y.c.pending, y.c.objects[i].seq_)
    requires y.sRead <= |y.c.sent| <= |Overtaken(env, y.c, i, k, args).sent|
    requires y.s.maxId + |Unread(Overtaken(env, y.c, i, k, args), y.sRead)| <= 0xFFFF_FFFF
    ensures !S.HandleAll(env.server, y.s, Unread(Overtaken(env, y.c, i, k, args), y.sRead)).error
  {
    hide Inv, Agreed, HasPending, C.CallObject, C.EndBatch, CallKinds, Unread, S.HandleAll, SessionTheorems.TakeBatch;
    var step := ClientCall(i, k, args);
    SessionSafety.StepKeeps(env, y, step);
    var z := Next(env, y, step);
    SessionSafety.EndBatchStep(env, z);
    var w := z.(c := C.EndBatch(env.clientImpls, z.c), inBatch := false);
    var ms := Unread(w.c, w.sRead);
    UnreadLength(w.c, w.sRead);
    forall j | 0 <= j < |ms| ensures ms[j] == w.c.sent[w.sRead + j].msg {
      UnreadAt(w.c, w.sRead, w.sRead + j);
    }
    SessionTheorems.BatchTaken(env, w, |ms|, ms);
    SessionTheorems.NoServerError(env, SessionTheorems.TakeBatch(env, w, |ms|));
  }

  lemma UnreadLength(c: C.ClientState, read: nat)
    requires read <= |c.sent|
    ensures |Unread(c, read)| == |c.sent| - read
  {
  }

  /** When a listener calls a destructor on an object that already has its id, the server
      fails on what the client will have sent when the batch is over, if and only if a call of
      the object is still kept back. Its log shows it: that is when a call stands behind the
      destructor of its object. */
  lemma OvertakingCondition(env: Env, y: System, i: nat, k: u32, args: seq<Value>)
    requires SessionTheorems.Reachable(env, y) && y.c.connected && DestructorCall(y.c, i, k, args)
    ensures var u := Overtaken(env, y.c, i, k, args);
      && y.sRead <= |y.c.sent| <= |u.sent| && y.c.sent <= u.sent
      && (y.s.maxId + |Unread(u, y.sRead)| <= 0xFFFF_FFFF ==>
          (S.HandleAll(env.server, y.s, Unread(u, y.sRead)).error <==> HasPending(y.c.pending, y.c.objects[i].seq_)))
    ensures ClientLogOk(C.Flush(C.CallObject(env.clientImpls, y.c, i, k, args)).sent)
      <==> !HasPending(y.c.pending, y.c.objects[i].seq_)
  {
    hide Agreed, SessionTheorems.Reachable, HasPending, Unread, Overtaken, C.Flush, C.CallObject, S.HandleAll,
      ClientLogOk, ClientInv, ServerInv, ClientHandshake, ServerHandshake, Roundtrips, StageOk, AllWaiting, Births,
      Dead, ServerSafety.Heard, ServerSafety.After;
    SessionTheorems.ReachableInv(env, y);
    OvertakingStains(env, y, i, k, args);
    OvertakenGrows(env, y, i, k, args);
    var rest := Unread(Overtaken(env, y.c, i, k, args), y.sRead);
    if y.s.maxId + |rest| <= 0xFFFF_FFFF {
      if HasPending(y.c.pending, y.c.objects[i].seq_) {
        ServerSafety.BatchIsEvents(env.server, y.s, rest);
        OvertakenTable(env, y, i, k, args);
        OvertakenConnected(env, y, i, k, args);
        OvertakingFails(env, y, i, k, args, [], ServerSafety.Receipts(rest));
      } else {
        NotOvertakingPasses(env, y, i, k, args);
      }
    }
  }

  lemma OvertakenConnected(env: Env, y: System, i: nat, k: u32, args: seq<Value>)
    requires y.c.connected && DestructorCall(y.c, i, k, args)
    ensures C.CallObject(env.clientImpls, y.c, i, k, args).connected
    ensures Honest(env, AfterCall(env, y, i, k, args), []) && Midway([])
    ensures Run(env, AfterCall(env, y, i, k, args), []) == AfterCall(env, y, i, k, args)
    ensures C.EndBatch(env.clientImpls, AfterCall(env, y, i, k, args).c) == Overtaken(env, y.c, i, k, args)
  {
    hide C.CallObject, C.EndBatch;
    DestructorSent(env.clientImpls, y.c, i, k, args);
  }
}
