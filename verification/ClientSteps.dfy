/** The client's half of the invariant, kept by each thing that happens to the client. */
module ClientSteps {
  import opened Bytes
  import opened VarInt
  import opened Arguments
  import opened Specs
  import opened SpecNames
  import opened Messages
  import opened WireObject
  import opened CallRoundTrip
  import opened Session
  import opened Invariant
  import opened ClientTables
  import C = Client
  import S = Server
  import ServerSteps

  // Pieces of a call.

  /** A fresh number for a new kind. */
  lemma CountKeeps(env: Env, kinds: seq<Kind>, born: seq<u32>, known: nat, c: C.ClientState, k: Kind)
    requires ClientInv(env, kinds, born, known, c) && c.seq_ < 0xFFFF_FFFF
    ensures ClientInv(env, kinds + [k], born, known, c.(seq_ := c.seq_ + 1))
  {
    hide AllObjects, AllKept, AllEntries, ClientLogOk, SeqsRise, Dead;
    assert born + [] == born;
    AllEntriesGrow(env, kinds, [k], born, [], known, known, c.sent);
    AllKeptGrow(env, kinds, [k], c.pending);
    AllObjectsGrow(kinds, [k], born, [], known, known, c.pending, Dead(c.sent), c.objects);
    SeqsRiseWeaken(c.objects, |kinds|, |kinds| + 1);
  }

  lemma UpdateKeeps(env: Env, kinds: seq<Kind>, born: seq<u32>, known: nat, c: C.ClientState, i: nat, o: C.ClientObject)
    requires ClientInv(env, kinds, born, known, c) && i < |c.objects|
    requires o.seq_ == c.objects[i].seq_ && ObjectOk(kinds, born, known, c.pending, Dead(c.sent), o)
    ensures ClientInv(env, kinds, born, known, c.(objects := c.objects[i := o]))
  {
    hide AllObjects, AllKept, AllEntries, ClientLogOk, SeqsRise, Dead, ObjectOk;
    AllObjectsUpdate(kinds, born, known, c.pending, Dead(c.sent), c.objects, i, o);
    SeqsRiseUpdate(c.objects, |kinds|, i, o);
  }

  /** Marking an object destroyed, referenced or listened to. */
  lemma MarkKeeps(env: Env, kinds: seq<Kind>, born: seq<u32>, known: nat, c: C.ClientState, i: nat, o: C.ClientObject)
    requires ClientInv(env, kinds, born, known, c) && i < |c.objects|
    requires o == c.objects[i].(destroyed := o.destroyed, listeners := o.listeners, held := o.held)
    requires c.objects[i].destroyed ==> o.destroyed
    ensures ClientInv(env, kinds, born, known, c.(objects := c.objects[i := o]))
  {
    hide AllObjects, AllKept, AllEntries, ClientLogOk, SeqsRise, Dead;
    ObjectAt(kinds, born, known, c.pending, Dead(c.sent), c.objects, i);
    UpdateKeeps(env, kinds, born, known, c, i, o);
  }

  lemma AddKeeps(env: Env, kinds: seq<Kind>, born: seq<u32>, known: nat, c: C.ClientState, bound: nat,
      o: C.ClientObject)
    requires ClientInv(env, kinds, born, known, c) && SeqsRise(c.objects, bound) && o.seq_ == bound + 1 == |kinds|
    requires ObjectOk(kinds, born, known, c.pending, Dead(c.sent), o)
    ensures ClientInv(env, kinds, born, known, c.(objects := c.objects + [o]))
  {
    hide AllObjects, AllKept, AllEntries, ClientLogOk, SeqsRise, Dead, ObjectOk;
    AllObjectsAppend(kinds, born, known, c.pending, Dead(c.sent), c.objects, o);
    SeqsRiseAppend(c.objects, bound, o);
  }

  /** Sending anything that is right, may follow, and kills nothing that is still in use. */
  lemma SendKeeps(env: Env, kinds: seq<Kind>, born: seq<u32>, known: nat, c: C.ClientState, e: C.Outgoing)
    requires ClientInv(env, kinds, born, known, c)
    requires c.connected ==> EntryOk(env, kinds, born, known, e) && MayFollow(Dead(c.sent), LastRequest(c.sent), e.msg)
    requires c.connected && e.msg.Generic? && e.dtor ==> Spent(c.objects, c.pending, e.msg.objectId)
    ensures ClientInv(env, kinds, born, known, C.Send(c, e))
  {
    hide AllObjects, AllKept, AllEntries, ClientLogOk, SeqsRise, Dead, EntryOk, Spent, MayFollow;
    if c.connected {
      ClientLogAppend(c.sent, e);
      AllEntriesAppend(env, kinds, born, known, c.sent, e);
      if e.msg.Generic? && e.dtor {
        AllObjectsKill(kinds, born, known, c.pending, Dead(c.sent), c.objects, e.msg.objectId);
      } else {
        assert Dead(c.sent) + {} == Dead(c.sent);
      }
    }
  }

  lemma DeferKeeps(env: Env, kinds: seq<Kind>, born: seq<u32>, known: nat, c: C.ClientState, e: C.Outgoing)
    requires ClientInv(env, kinds, born, known, c)
    requires KeptOk(env, kinds, e) && !DtorPending(c.pending, e.origin) && Silent(c.objects, e.origin, e.dtor)
    ensures ClientInv(env, kinds, born, known, c.(pending := c.pending + [e]))
  {
    hide AllObjects, AllKept, AllEntries, ClientLogOk, SeqsRise, Dead, KeptOk, Silent, DtorPending;
    AllKeptAppend(env, kinds, c.pending, e);
    AllObjectsDefer(kinds, born, known, c.pending, Dead(c.sent), c.objects, e);
  }

  // Calls.

  /** The arguments of an honest call are right for the object's kind. */
  lemma HonestArgs(env: Env, kinds: seq<Kind>, o: C.ClientObject, k: u32, q: u32, args: seq<Value>)
    requires 1 <= o.seq_ <= |kinds| && o.spec == kinds[o.seq_ - 1].spec && o.version <= kinds[o.seq_ - 1].version
    requires C.Callable(o, k) && TypesOf(args) == o.spec.c2s[k].params && AllSendable(args)
    requires o.spec.c2s[k].Returns() ==>
      1 <= q <= |kinds| && kinds[q - 1] == ChildKind(env, kinds[o.seq_ - 1], o.spec.c2s[k].returnsType)
    ensures CallOk(env, kinds, o.seq_, k, CallArgs(o.spec.c2s[k], q, args), o.spec.c2s[k].isDestructor)
  {
    hide FindProtocol, FindObject, ChildKind;
    var m := o.spec.c2s[k];
    CallArgsTypes(m, q, args);
    assert AllSendable(CallArgs(m, q, args)) by {
      assert Sendable(Word(SEQ, q));
    }
    assert [] + TypesOf(args) == TypesOf(args);
  }

  /** The message of a call, kept back or sent at once. */
  lemma OutKeeps(env: Env, kinds: seq<Kind>, born: seq<u32>, known: nat, c: C.ClientState, i: nat, o: C.ClientObject,
                 k: u32, args: seq<Value>, dtor: bool)
    requires ClientInv(env, kinds, born, known, c) && i < |c.objects| &&
      ObjectOk(kinds, born, known, c.pending, Dead(c.sent), o)
    requires o.id == c.objects[i].id && o.seq_ == c.objects[i].seq_ && !o.destroyed && (dtor ==> c.objects[i].destroyed)
    requires CallOk(env, kinds, o.seq_, k, args, dtor)
    requires dtor && o.id != 0 ==> !HasPending(c.pending, o.seq_)
    ensures var e := C.Outgoing(Generic(o.id, k, args), o.seq_, dtor);
      ClientInv(env, kinds, born, known, if o.id == 0 then c.(pending := c.pending + [e]) else C.Send(c, e))
  {
    hide AllObjects, AllKept, AllEntries, ClientLogOk, SeqsRise, Dead, CallOk, HasPending, DtorPending;
    var e := C.Outgoing(Generic(o.id, k, args), o.seq_, dtor);
    if o.id == 0 {
      SilentAt(c.objects, |kinds|, i, dtor);
      DeferKeeps(env, kinds, born, known, c, e);
    } else {
      if dtor {
        SpentAt(kinds, born, known, c.pending, Dead(c.sent), c.objects, |kinds|, c.pending, i);
      }
      SendKeeps(env, kinds, born, known, c, e);
    }
  }

  /** The object a new number stands for, as far as the client knows its type. */
  lemma MakeKeeps(env: Env, kinds: seq<Kind>, born: seq<u32>, known: nat, c: C.ClientState, parent: Kind, name: Text)
    requires Agreed(env) && ClientInv(env, kinds, born, known, c) && kinds != [] && name != []
    requires SeqsRise(c.objects, |kinds| - 1) && !DtorPending(c.pending, |kinds|)
    requires KindOk(env, parent) && kinds[|kinds| - 1] == ChildKind(env, parent, name)
    ensures ClientInv(env, kinds, born, known, C.MakeObject(env.clientImpls, c, parent.protocol, name, |kinds|))
  {
    hide AllObjects, AllKept, AllEntries, ClientLogOk, SeqsRise, Dead, FindProtocol, FindObject, DtorPending;
    var t := C.MakeObject(env.clientImpls, c, parent.protocol, name, |kinds|);
    assert Compatible(FindProtocol(env.clientImpls, parent.protocol), FindProtocol(env.server.impls, parent.protocol));
    if t != c {
      AddKeeps(env, kinds, born, known, c, |kinds| - 1, t.objects[|c.objects|]);
    }
  }

  lemma {:induction false} FreshNotPending(env: Env, kinds: seq<Kind>, ps: seq<C.Outgoing>, q: u32)
    requires AllKept(env, kinds, ps) && |kinds| < q
    ensures !HasPending(ps, q) && !DtorPending(ps, q)
  {
    if ps == [] {
    } else {
      FreshNotPending(env, kinds, ps[..|ps| - 1], q);
    }
  }

  lemma ObjectOkGrow(kinds: seq<Kind>, more: seq<Kind>, born: seq<u32>, known: nat, ps: seq<C.Outgoing>,
      dead: set<u32>, o: C.ClientObject)
    requires ObjectOk(kinds, born, known, ps, dead, o)
    ensures ObjectOk(kinds + more, born, known, ps, dead, o)
  {
  }

  /** Marking the callee, if the method is a destructor. */
  function Marked(c: C.ClientState, i: nat, dtor: bool): C.ClientState
    requires i < |c.objects|
  {
    if dtor then c.(objects := c.objects[i := c.objects[i].(destroyed := true)]) else c
  }

  lemma MarkedKeeps(env: Env, kinds: seq<Kind>, born: seq<u32>, known: nat, c: C.ClientState, i: nat, dtor: bool)
    requires ClientInv(env, kinds, born, known, c) && i < |c.objects|
    ensures ClientInv(env, kinds, born, known, Marked(c, i, dtor))
  {
    hide ClientInv;
    if dtor {
      MarkKeeps(env, kinds, born, known, c, i, c.objects[i].(destroyed := true));
    }
  }

  /** The message of a call, once the callee is marked and the new number counted. */
  function Emitted(c: C.ClientState, o: C.ClientObject, e: C.Outgoing): C.ClientState {
    if o.id == 0 then c.(pending := c.pending + [e]) else C.Send(c, e)
  }

  lemma CallObjectIs(impls: seq<ProtocolSpec>, c: C.ClientState, i: nat, k: u32, args: seq<Value>)
    requires i < |c.objects| && C.Callable(c.objects[i], k) && Marshallable(c.objects[i].spec.c2s[k].params, 0)
    ensures var o := c.objects[i]; var m := o.spec.c2s[k]; var q := C.SeqAfter(c, m);
      var out := Emitted(Marked(c, i, m.isDestructor).(seq_ := q), o,
                        C.Outgoing(Generic(o.id, k, CallArgs(m, q, args)), o.seq_, m.isDestructor));
      C.CallObject(impls, c, i, k, args) == if m.Returns() then C.MakeObject(impls, out, o.protocol, m.returnsType, q)
        else out
  {
    hide C.MakeObject;
  }

  lemma PlainCallKeeps(env: Env, kinds: seq<Kind>, born: seq<u32>, known: nat, c: C.ClientState, i: nat, k: u32,
      args: seq<Value>)
    requires ClientInv(env, kinds, born, known, c) && HonestCall(c, i, k, args)
    requires C.Callable(c.objects[i], k) && !c.objects[i].spec.c2s[k].Returns()
    ensures ClientInv(env, kinds, born, known, C.CallObject(env.clientImpls, c, i, k, args))
  {
    hide AllObjects, AllKept, AllEntries, ClientLogOk, SeqsRise, Dead, C.CallObject, CallOk, HasPending, DtorPending;
    var o := c.objects[i];
    var m := o.spec.c2s[k];
    CallObjectIs(env.clientImpls, c, i, k, args);
    ObjectAt(kinds, born, known, c.pending, Dead(c.sent), c.objects, i);
    HonestArgs(env, kinds, o, k, c.seq_, args);
    MarkedKeeps(env, kinds, born, known, c, i, m.isDestructor);
    OutKeeps(env, kinds, born, known, Marked(c, i, m.isDestructor), i, o, k, CallArgs(m, c.seq_, args), m.isDestructor);
  }

  lemma MakingCallKeeps(env: Env, kinds: seq<Kind>, born: seq<u32>, known: nat, c: C.ClientState, i: nat, k: u32,
      args: seq<Value>)
    requires Agreed(env) && ClientInv(env, kinds, born, known, c) && AllKinds(env, kinds) && HonestCall(c, i, k, args)
    requires C.Callable(c.objects[i], k) && c.objects[i].spec.c2s[k].Returns()
    ensures ClientInv(env, CallKinds(env, kinds, c.objects[i], k), born, known,
      C.CallObject(env.clientImpls, c, i, k, args))
    ensures AllKinds(env, CallKinds(env, kinds, c.objects[i], k))
  {
    hide AllObjects, AllKept, AllEntries, AllKinds, ClientLogOk, SeqsRise, Dead, C.CallObject, C.MakeObject, CallOk,
      ChildKind, HasPending, DtorPending, Agreed, KindOk;
    var o, q := c.objects[i], |kinds| + 1;
    var m := o.spec.c2s[k];
    CallObjectIs(env.clientImpls, c, i, k, args);
    ObjectAt(kinds, born, known, c.pending, Dead(c.sent), c.objects, i);
    var child := ChildKind(env, kinds[o.seq_ - 1], m.returnsType);
    var kinds' := kinds + [child];
    assert CallKinds(env, kinds, o, k) == kinds';
    ChildKindKnown(env, kinds, o.seq_, k);
    ServerSteps.AllKindsAppend(env, kinds, child);
    var marked := Marked(c, i, m.isDestructor);
    MarkedKeeps(env, kinds, born, known, c, i, m.isDestructor);
    CountKeeps(env, kinds, born, known, marked, child);
    ObjectOkGrow(kinds, [child], born, known, c.pending, Dead(c.sent), o);
    HonestArgs(env, kinds', o, k, q, args);
    var counted := marked.(seq_ := q);
    OutKeeps(env, kinds', born, known, counted, i, o, k, CallArgs(m, q, args), m.isDestructor);
    var e := C.Outgoing(Generic(o.id, k, CallArgs(m, q, args)), o.seq_, m.isDestructor);
    FreshNotPending(env, kinds, c.pending, q);
    HasAppend(c.pending, [e], q);
    HasOne(e, q);
    MakeKeeps(env, kinds', born, known, Emitted(counted, o, e), kinds[o.seq_ - 1], m.returnsType);
  }

  lemma ChildKindKnown(env: Env, kinds: seq<Kind>, q: u32, k: nat)
    requires Agreed(env) && AllKinds(env, kinds) && 1 <= q <= |kinds|
    requires k < |kinds[q - 1].spec.c2s| && kinds[q - 1].spec.c2s[k].Returns()
    ensures KindOk(env, kinds[q - 1]) && KindOk(env, ChildKind(env, kinds[q - 1], kinds[q - 1].spec.c2s[k].returnsType))
  {
    hide AllKinds, Agreed;
    ServerSteps.KindAt(env, kinds, q - 1);
    ServerSteps.ChildKindFound(env, kinds[q - 1], k);
  }

  // Other acts of the application.

  lemma BindKeeps(env: Env, kinds: seq<Kind>, born: seq<u32>, known: nat, c: C.ClientState, spec: ProtocolSpec,
      version: u32)
    requires ClientInv(env, kinds, born, known, c) && c.seq_ < 0xFFFF_FFFF
    requires FindProtocol(env.server.impls, spec.name) == Found(spec) && spec.objects != [] &&
      1 <= version <= spec.version
    requires spec.name in S.ExposedNames(env.server.impls, env.server.filter) && |spec.name| < LIMIT
    ensures ClientInv(env, kinds + [Kind(spec.name, spec.objects[0], version)], born, known, C.Bind(c, spec, version))
  {
    hide AllObjects, AllKept, AllEntries, ClientLogOk, SeqsRise, Dead, FindProtocol, HasPending, DtorPending,
      S.ExposedNames;
    var kind, q := Kind(spec.name, spec.objects[0], version), |kinds| + 1;
    CountKeeps(env, kinds, born, known, c, kind);
    FreshNotPending(env, kinds, c.pending, q);
    var o := C.ClientObject(0, q, version, spec.objects[0], spec.name, false, {}, true);
    var counted := c.(seq_ := q);
    AddKeeps(env, kinds + [kind], born, known, counted, |kinds|, o);
    SendKeeps(env, kinds + [kind], born, known, counted.(objects := c.objects + [o]),
              C.Outgoing(BindProtocol(q, spec.name, version), 0, false));
  }

  lemma RoundtripKeeps(env: Env, kinds: seq<Kind>, born: seq<u32>, known: nat, c: C.ClientState)
    requires ClientInv(env, kinds, born, known, c) && c.lastSent < 0xFFFF_FFFF
    requires c.connected ==> LastRequest(c.sent) == c.lastSent
    ensures ClientInv(env, kinds, born, known, C.Roundtrip(c))
  {
    hide AllObjects, AllKept, AllEntries, ClientLogOk, SeqsRise, Dead, LastRequest;
    if !c.error {
      SendKeeps(env, kinds, born, known, c.(lastSent := c.lastSent + 1),
        C.Outgoing(RoundtripRequest(c.lastSent + 1), 0, false));
    }
  }

  // Incoming messages.

  lemma AckSent(env: Env, kinds: seq<Kind>, born: seq<u32>, known: nat, c: C.ClientState)
    requires ClientInv(env, kinds, born, known, c)
    ensures ClientInv(env, kinds, born, known, C.Send(c, C.Outgoing(HandshakeAck(S.PROTOCOL_VERSION), 0, false)))
  {
    hide ClientInv, LastRequest;
    SendKeeps(env, kinds, born, known, c, C.Outgoing(HandshakeAck(S.PROTOCOL_VERSION), 0, false));
  }

  /** The next announcement the client reads gives the next id to the number it was made for. */
  lemma OnSeqKeeps(env: Env, kinds: seq<Kind>, born: seq<u32>, known: nat, c: C.ClientState, q: u32, id: u32)
    requires ClientInv(env, kinds, born, known, c) && known < |born| && id == known + 1 && q == born[known]
    ensures ClientInv(env, kinds, born, known + 1, C.OnSeq(c, q, id))
  {
    hide AllObjects, AllKept, AllEntries, ClientLogOk, SeqsRise, Dead, HasPending, DtorPending;
    assert kinds + [] == kinds && born + [] == born;
    AllEntriesGrow(env, kinds, [], born, [], known, known + 1, c.sent);
    AllObjectsGrow(kinds, [], born, [], known, known + 1, c.pending, Dead(c.sent), c.objects);
    var i := C.FindSeq(c.objects, q);
    if i >= 0 {
      ObjectAt(kinds, born, known + 1, c.pending, Dead(c.sent), c.objects, i);
      if id in Dead(c.sent) {
        DeadKnown(env, kinds, born, known, c.sent, id);
      }
      UpdateKeeps(env, kinds, born, known + 1, c, i, c.objects[i].(id := id));
    }
  }

  lemma DestroyKeeps(env: Env, kinds: seq<Kind>, born: seq<u32>, known: nat, c: C.ClientState, i: nat, m: Method)
    requires ClientInv(env, kinds, born, known, c) && i < |c.objects|
    ensures ClientInv(env, kinds, born, known, C.DestroyIfNeeded(c, i, m))
  {
    hide AllObjects, AllKept, AllEntries, ClientLogOk, SeqsRise, Dead;
    if m.isDestructor && c.objects[i].id == 0 {
      MarkKeeps(env, kinds, born, known, c, i, c.objects[i].(destroyed := true));
    } else if m.isDestructor {
      AllObjectsWithout(kinds, born, known, c.pending, Dead(c.sent), c.objects, c.objects[i].id);
      SeqsRiseWithout(c.objects, |kinds|, c.objects[i].id);
    }
  }

  lemma OnGenericKeeps(env: Env, kinds: seq<Kind>, born: seq<u32>, known: nat, c: C.ClientState, target: u32, k: u32,
      args: seq<Value>)
    requires ClientInv(env, kinds, born, known, c)
    ensures ClientInv(env, kinds, born, known, C.OnGeneric(c, target, k, args))
  {
    hide AllObjects, AllKept, AllEntries, ClientLogOk, SeqsRise, Dead, C.DestroyIfNeeded;
    var i := C.FindId(c.objects, target);
    if i >= 0 {
      var o := c.objects[i];
      match CalledOutcome(o.spec.s2c, o.listeners, o.version, k, args)
      case Ignored => DestroyKeeps(env, kinds, born, known, c, i, o.spec.s2c[k]);
      case Delivered(frame) =>
        DestroyKeeps(env, kinds, born, known, c.(calls := c.calls + [S.Call(o.id, k, frame)]), i, o.spec.s2c[k]);
      case _ =>
    }
  }

  // The end of a dispatch.

  /** The invariant while kept-back messages are gone through: those kept again, and the rest. */
  ghost predicate Flushing(env: Env, kinds: seq<Kind>, born: seq<u32>, known: nat, c: C.ClientState,
      rest: seq<C.Outgoing>) {
    ClientInv(env, kinds, born, known, c.(pending := c.pending + rest)) && AllWaiting(c.objects, c.pending)
  }

  lemma {:induction false} WaitingExcludes(objects: seq<C.ClientObject>, ps: seq<C.Outgoing>, q: u32)
    requires AllWaiting(objects, ps) && C.FindSeq(objects, q) >= 0 && objects[C.FindSeq(objects, q)].id != 0
    ensures !HasPending(ps, q)
  {
    if ps == [] {
    } else {
      WaitingExcludes(objects, ps[..|ps| - 1], q);
    }
  }

  lemma AllWaitingAppend(objects: seq<C.ClientObject>, ps: seq<C.Outgoing>, e: C.Outgoing)
    requires AllWaiting(objects, ps) && Waiting(objects, e)
    ensures AllWaiting(objects, ps + [e])
  {
    assert (ps + [e])[..|ps|] == ps;
  }

  /** One kept-back message taken out. */
  lemma DropKeeps(env: Env, kinds: seq<Kind>, born: seq<u32>, known: nat, c: C.ClientState, a: seq<C.Outgoing>,
      e: C.Outgoing, b: seq<C.Outgoing>)
    requires ClientInv(env, kinds, born, known, c) && c.pending == a + [e] + b
    ensures ClientInv(env, kinds, born, known, c.(pending := a + b)) && KeptOk(env, kinds, e)
    ensures e.dtor ==> !HasPending(b, e.origin)
  {
    hide AllObjects, AllKept, AllEntries, ClientLogOk, SeqsRise, Dead, KeptOk, HasPending;
    AllKeptRemove(env, kinds, a, e, b);
    if e.dtor {
      DtorIsLast(env, kinds, a, e, b);
    }
    RemovedIsFewer(a, e, b, c.objects);
    AllObjectsFewer(kinds, born, known, c.pending, a + b, Dead(c.sent), c.objects);
  }

  /** A kept-back message whose object has its id by now goes out: the object has not been
      destroyed, and if the message destroys it, nothing else waits for it. */
  lemma ResolveKeeps(env: Env, kinds: seq<Kind>, born: seq<u32>, known: nat, c: C.ClientState, a: seq<C.Outgoing>,
      e: C.Outgoing, b: seq<C.Outgoing>, i: nat)
    requires ClientInv(env, kinds, born, known, c) && c.pending == a + [e] + b
    requires i < |c.objects| && c.objects[i].seq_ == e.origin && c.objects[i].id != 0 && !HasPending(a, e.origin)
    ensures ClientInv(env, kinds, born, known, C.Send(c.(pending := a + b), C.ResolvedTo(e, c.objects[i].id)))
  {
    hide AllObjects, AllKept, AllEntries, ClientLogOk, SeqsRise, Dead, HasPending, DtorPending, CallOk;
    var o := c.objects[i];
    ObjectAt(kinds, born, known, c.pending, Dead(c.sent), c.objects, i);
    HasAppend(a + [e], b, o.seq_);
    HasAppend(a, [e], o.seq_);
    HasAppend(a, b, o.seq_);
    HasOne(e, o.seq_);
    DropKeeps(env, kinds, born, known, c, a, e, b);
    if e.dtor {
      SpentAt(kinds, born, known, a + b, Dead(c.sent), c.objects, |kinds|, c.pending, i);
    }
    SendKeeps(env, kinds, born, known, c.(pending := a + b), C.ResolvedTo(e, o.id));
  }

  lemma FlushOneKeeps(env: Env, kinds: seq<Kind>, born: seq<u32>, known: nat, c: C.ClientState, rest: seq<C.Outgoing>)
    requires Flushing(env, kinds, born, known, c, rest) && rest != []
    ensures Flushing(env, kinds, born, known, C.FlushOne(c, rest[0]), rest[1..])
  {
    hide ClientInv, AllWaiting, HasPending;
    var e, a, b := rest[0], c.pending, rest[1..];
    assert a + [e] + b == a + rest;
    var all := c.(pending := a + rest);
    var i := C.FindSeq(c.objects, e.origin);
    if i < 0 {
      DropKeeps(env, kinds, born, known, all, a, e, b);
    } else if c.objects[i].id == 0 {
      AllWaitingAppend(c.objects, a, e);
    } else {
      WaitingExcludes(c.objects, a, e.origin);
      ResolveKeeps(env, kinds, born, known, all, a, e, b, i);
    }
  }

  lemma {:induction false} FlushAllKeeps(env: Env, kinds: seq<Kind>, born: seq<u32>, known: nat, c: C.ClientState,
      rest: seq<C.Outgoing>)
    requires Flushing(env, kinds, born, known, c, rest)
    ensures ClientInv(env, kinds, born, known, C.FlushAll(c, rest))
    ensures AllWaiting(C.FlushAll(c, rest).objects, C.FlushAll(c, rest).pending)
    decreases |rest|
  {
    if rest == [] {
      assert c.pending + rest == c.pending;
      assert c.(pending := c.pending) == c;
    } else {
      hide Flushing;
      FlushOneKeeps(env, kinds, born, known, c, rest);
      FlushAllKeeps(env, kinds, born, known, C.FlushOne(c, rest[0]), rest[1..]);
    }
  }

  lemma FlushKeeps(env: Env, kinds: seq<Kind>, born: seq<u32>, known: nat, c: C.ClientState)
    requires ClientInv(env, kinds, born, known, c)
    ensures ClientInv(env, kinds, born, known, C.Flush(c)) && AllWaiting(C.Flush(c).objects, C.Flush(c).pending)
  {
    hide ClientInv;
    assert [] + c.pending == c.pending;
    assert c.(pending := []).(pending := c.pending) == c;
    FlushAllKeeps(env, kinds, born, known, c.(pending := []), c.pending);
  }

  // Orphans.

  /** The destructor an orphan calls is one of its methods, allowed by its version and
      without arguments. */
  lemma {:induction false} AutoAt(methods: seq<Method>, version: nat, j: nat) returns (n: nat)
    requires j <= |methods| && C.AutoDestructor(methods[j..], version).Auto?
    ensures n < |methods| && methods[n].idx == C.AutoDestructor(methods[j..], version).idx
    ensures methods[n].isDestructor && methods[n].since <= version && !methods[n].Returns() && methods[n].params == []
    decreases |methods| - j
  {
    if !methods[j].isDestructor || methods[j].since > version {
      assert methods[j..][1..] == methods[j + 1..];
      n := AutoAt(methods, version, j + 1);
    } else {
      n := j;
    }
  }

  /** An orphan sends its destructor at most once, and only if it has not been sent. */
  lemma FarewellKeeps(env: Env, kinds: seq<Kind>, born: seq<u32>, known: nat, c: C.ClientState, o: C.ClientObject)
    requires Agreed(env) && AllKinds(env, kinds) && ClientInv(env, kinds, born, known, c)
    requires ObjectOk(kinds, born, known, c.pending, Dead(c.sent), o) && C.Orphaned(o) && Free(c.objects, o.seq_)
    ensures var t := C.Farewell(env.clientImpls, c, o);
      && ClientInv(env, kinds, born, known, t) && t == c.(sent := t.sent)
      && (Dead(t.sent) == Dead(c.sent) || Dead(t.sent) == Dead(c.sent) + {o.id})
      && (t.sent == c.sent || (t.sent == c.sent + [t.sent[|c.sent|]] && t.sent[|c.sent|].msg.Generic?))
  {
    hide AllObjects, AllKept, AllEntries, AllKinds, ClientLogOk, SeqsRise, Dead, HasPending, DtorPending, CallOk,
      Agreed, KindOk, FindProtocol, FindObject, LastRequest, C.AutoDestructor, Free;
    var auto := C.AutoDestructor(o.spec.c2s, o.version);
    if !o.destroyed && c.connected && auto.Auto? && C.Callable(o, auto.idx) {
      var k := auto.idx;
      OrphanMethod(env, kinds, o);
      HonestArgs(env, kinds, o, k, c.seq_, []);
      var m := o.spec.c2s[k];
      var e := C.Outgoing(Generic(o.id, k, CallArgs(m, c.seq_, [])), o.seq_, true);
      SpentFree(kinds, born, known, c.pending, Dead(c.sent), c.objects, c.pending, o.id);
      SendKeeps(env, kinds, born, known, c, e);
      ClientLogAppend(c.sent, e);
      assert C.CallOn(env.clientImpls, c, o, k, []) == C.Send(c, e);
    }
  }

  lemma OrphanMethod(env: Env, kinds: seq<Kind>, o: C.ClientObject)
    requires Agreed(env) && AllKinds(env, kinds) && 1 <= o.seq_ <= |kinds| && o.spec == kinds[o.seq_ - 1].spec
    requires C.AutoDestructor(o.spec.c2s, o.version).Auto?
    ensures var k := C.AutoDestructor(o.spec.c2s, o.version).idx;
      && C.Callable(o, k) && o.spec.c2s[k].isDestructor && !o.spec.c2s[k].Returns() && o.spec.c2s[k].params == []
  {
    hide AllKinds, FindProtocol, FindObject;
    ServerSteps.KindAt(env, kinds, o.seq_ - 1);
    var p := FindProtocol(env.server.impls, kinds[o.seq_ - 1].protocol).spec;
    assert p in env.server.impls && WellFormedProtocol(p) && WellFormedObject(p, o.spec);
    assert o.spec.c2s[0..] == o.spec.c2s;
    var n := AutoAt(o.spec.c2s, o.version, 0);
    assert o.spec.c2s[n].idx == n;
  }

  /** No orphan still to be visited shares its number with a survivor or a later one. */
  predicate Separate(rest: seq<C.ClientObject>, survivors: seq<C.ClientObject>) {
    rest == [] ||
    ((C.Orphaned(rest[0]) ==> Free(survivors, rest[0].seq_)) && Free(rest[1..], rest[0].seq_) &&
      Separate(rest[1..], survivors))
  }

  lemma {:induction false} FreeSurvivors(objects: seq<C.ClientObject>, q: u32)
    requires Free(objects, q)
    ensures Free(C.Survivors(objects), q)
  {
    if objects == [] {
    } else {
      FreeSurvivors(objects[1..], q);
      var rest := C.Survivors(objects[1..]);
      assert [] + rest == rest && ([objects[0]] + rest)[1..] == rest;
    }
  }

  lemma {:induction false} OrphanFree(objects: seq<C.ClientObject>, bound: int, i: nat)
    requires SeqsRise(objects, bound) && i < |objects| && C.Orphaned(objects[i])
    ensures Free(C.Survivors(objects), objects[i].seq_)
    decreases i
  {
    RiseTail(objects, bound);
    var rest := C.Survivors(objects[1..]);
    assert [] + rest == rest && ([objects[0]] + rest)[1..] == rest;
    if i == 0 {
      FreeSurvivors(objects[1..], objects[0].seq_);
    } else {
      FreeAt(objects[1..], objects[0].seq_, i - 1);
      OrphanFree(objects[1..], bound, i - 1);
    }
  }

  lemma {:induction false} RiseFrom(objects: seq<C.ClientObject>, bound: int, j: nat)
    requires SeqsRise(objects, bound) && j <= |objects|
    ensures SeqsRise(objects[j..], bound)
  {
    if j > 0 {
      RiseFrom(objects, bound, j - 1);
      RiseTail(objects[j - 1..], bound);
      assert objects[j - 1..][1..] == objects[j..];
    } else {
      assert objects[0..] == objects;
    }
  }

  lemma {:induction false} SeparateFrom(objects: seq<C.ClientObject>, bound: int, j: nat)
    requires SeqsRise(objects, bound) && j <= |objects|
    ensures Separate(objects[j..], C.Survivors(objects))
    decreases |objects| - j
  {
    if j < |objects| {
      RiseFrom(objects, bound, j);
      RiseTail(objects[j..], bound);
      assert objects[j..][1..] == objects[j + 1..];
      if C.Orphaned(objects[j]) {
        OrphanFree(objects, bound, j);
      }
      SeparateFrom(objects, bound, j + 1);
    }
  }

  lemma {:induction false} FarewellsKeep(env: Env, kinds: seq<Kind>, born: seq<u32>, known: nat, c: C.ClientState,
      rest: seq<C.ClientObject>)
    requires Agreed(env) && AllKinds(env, kinds) && ClientInv(env, kinds, born, known, c)
    requires AllObjects(kinds, born, known, c.pending, Dead(c.sent), rest) && Separate(rest, c.objects)
    ensures ClientInv(env, kinds, born, known, C.Farewells(env.clientImpls, c, rest))
    decreases |rest|
  {
    if rest == [] {
    } else {
      hide ClientInv, AllObjects, AllKinds, Agreed, Dead, ObjectOk, C.Farewell, Free;
      AllObjectsTail(kinds, born, known, c.pending, Dead(c.sent), rest);
      if C.Orphaned(rest[0]) {
        FarewellKeeps(env, kinds, born, known, c, rest[0]);
        OtherOrphans(kinds, born, known, c.pending, Dead(c.sent), rest);
        FarewellsKeep(env, kinds, born, known, C.Farewell(env.clientImpls, c, rest[0]), rest[1..]);
      } else {
        FarewellsKeep(env, kinds, born, known, c, rest[1..]);
      }
    }
  }

  lemma OtherOrphans(kinds: seq<Kind>, born: seq<u32>, known: nat, ps: seq<C.Outgoing>, dead: set<u32>,
      rest: seq<C.ClientObject>)
    requires rest != [] && AllObjects(kinds, born, known, ps, dead, rest) && C.Orphaned(rest[0]) &&
      Free(rest[1..], rest[0].seq_)
    ensures AllObjects(kinds, born, known, ps, dead + {rest[0].id}, rest[1..])
  {
    hide AllObjects, Free, HasPending, DtorPending;
    AllObjectsTail(kinds, born, known, ps, dead, rest);
    SpentFree(kinds, born, known, ps, dead, rest[1..], ps, rest[0].id);
    AllObjectsKill(kinds, born, known, ps, dead, rest[1..], rest[0].id);
  }

  lemma CollectKeeps(env: Env, kinds: seq<Kind>, born: seq<u32>, known: nat, c: C.ClientState)
    requires Agreed(env) && AllKinds(env, kinds) && ClientInv(env, kinds, born, known, c)
    ensures ClientInv(env, kinds, born, known, C.Collect(env.clientImpls, c))
  {
    hide AllObjects, AllKept, AllEntries, AllKinds, ClientLogOk, SeqsRise, Dead, Agreed;
    AllObjectsSurvivors(kinds, born, known, c.pending, Dead(c.sent), c.objects);
    SeqsRiseWithout(c.objects, |kinds|, 0);
    SeparateFrom(c.objects, |kinds|, 0);
    assert c.objects[0..] == c.objects;
    FarewellsKeep(env, kinds, born, known, c.(objects := C.Survivors(c.objects)), c.objects);
  }
}
