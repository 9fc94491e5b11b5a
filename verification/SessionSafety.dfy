/** Honest runs: the invariant over every step, and what follows from it. */
module SessionSafety {
  import opened Bytes
  import opened VarInt
  import opened Arguments
  import opened Specs
  import opened SpecNames
  import opened Messages
  import opened WireObject
  import opened Session
  import opened Invariant
  import opened SessionSteps
  import C = Client
  import S = Server
  import CT = ClientTables
  import CS = ClientSteps
  import SS = ServerSteps

  // Steps of the client's application.

  lemma {:induction false} OfferedNames(impls: seq<ProtocolSpec>, exposed: seq<Text>, s: ServerSpec)
    requires s in S.Offered(impls, exposed)
    ensures s.name in exposed
  {
    if !(impls[0].name in exposed && s == ServerSpec(impls[0].name, impls[0].version)) {
      OfferedNames(impls[1..], exposed, s);
    }
  }

  /** What was advertised is exposed, and short. */
  lemma AdvertisedExposed(env: Env, name: Text, spec: ProtocolSpec)
    requires Agreed(env) && Advertised(Offers(env), name) && FindProtocol(env.server.impls, name) == Found(spec)
    ensures name in S.ExposedNames(env.server.impls, env.server.filter) && |name| < LIMIT
    ensures spec.name == name && spec in env.server.impls
  {
    hide S.ExposedNames, S.Offered, FindProtocol;
    var v :| ServerSpec(name, v) in Offers(env);
    OfferedNames(env.server.impls, S.ExposedNames(env.server.impls, env.server.filter), ServerSpec(name, v));
    assert WellFormedProtocol(spec);
  }

  lemma BindQuietly(c: C.ClientState, spec: ProtocolSpec, version: u32)
    requires spec.objects != [] && version <= spec.version
    ensures Quietly(c, C.Bind(c, spec, version))
    ensures C.Bind(c, spec, version).pending == c.pending
    ensures C.Bind(c, spec, version).objects
      == c.objects + [C.ClientObject(0, S.Increment(c.seq_), version, spec.objects[0], spec.name, false, {}, true)]
  {
    hide Quietly;
    var q := S.Increment(c.seq_);
    var o := C.ClientObject(0, q, version, spec.objects[0], spec.name, false, {}, true);
    var grown := c.(seq_ := q, objects := c.objects + [o]);
    QuietlySame(c, grown);
    QuietlySend(grown, C.Outgoing(BindProtocol(q, spec.name, version), 0, false));
    QuietlyTwice(c, grown, C.Bind(c, spec, version));
  }

  lemma BindStep(env: Env, y: System, spec: ProtocolSpec, version: u32)
    requires Agreed(env) && Inv(env, y) && Enabled(env, y, ClientBind(spec, version))
    ensures Inv(env, Next(env, y, ClientBind(spec, version)))
  {
    hide ClientInv, ServerInv, ClientHandshake, ServerHandshake, Roundtrips, AllWaiting, AllKinds, Births, Dead, Agreed,
      C.Bind, S.ExposedNames, FindProtocol, Offers, Quietly, Advertised;
    var kind := Kind(spec.name, spec.objects[0], version);
    AdvertisedExposed(env, spec.name, spec);
    CS.BindKeeps(env, y.h.kinds, y.h.born, Known(y), y.c, spec, version);
    KindsOfServer(env, y);
    assert KindOk(env, kind);
    SS.AllKindsAppend(env, y.h.kinds, kind);
    var c := C.Bind(y.c, spec, version);
    BindQuietly(y.c, spec, version);
    if !y.inBatch && c.connected {
      assert y.c.connected by { QuietlyConnected(y.c, c); }
      WaitingAppend(y.c.objects, c.objects[|y.c.objects|], y.c.pending);
    }
    ClientGrows(env, y, c, [kind], y.inBatch);
  }

  lemma QuietlyConnected(c: C.ClientState, c': C.ClientState)
    requires Quietly(c, c') && c'.connected
    ensures c.connected
  {
  }

  /** Parts of the invariant steps ask for by name. */
  lemma KindsOfServer(env: Env, y: System)
    requires Inv(env, y)
    ensures AllKinds(env, y.h.kinds)
  {
    hide ClientInv, ClientHandshake, ServerHandshake, Roundtrips, AllWaiting, AllKinds, Births, Dead;
  }

  lemma SeqsOfClient(env: Env, y: System)
    requires Inv(env, y)
    ensures SeqsRise(y.c.objects, |y.h.kinds|) && AllKept(env, y.h.kinds, y.c.pending) && |y.h.kinds| == y.c.seq_
    ensures y.c.objects != [] ==> y.c.seq_ > 0
  {
    hide ServerInv, ClientHandshake, ServerHandshake, Roundtrips, AllWaiting, Births, Dead, AllEntries, ClientLogOk,
      AllKept, SeqsRise, AllObjects;
    if y.c.objects != [] {
      CT.ObjectAt(y.h.kinds, y.h.born, Known(y), y.c.pending, Dead(y.c.sent), y.c.objects, 0);
    }
  }

  lemma CallStep(env: Env, y: System, i: nat, k: u32, args: seq<Value>)
    requires Agreed(env) && Inv(env, y) && Enabled(env, y, ClientCall(i, k, args))
    ensures Inv(env, Next(env, y, ClientCall(i, k, args)))
  {
    var o := y.c.objects[i];
    hide ClientInv, ServerInv, ClientHandshake, ServerHandshake, Roundtrips, AllWaiting, AllKinds, Births, Dead, Agreed,
      C.CallObject, HonestCall, Quietly, AllKept, SeqsRise, ChildKind, Offers, S.ExposedNames;
    var c := C.CallObject(env.clientImpls, y.c, i, k, args);
    SeqsOfClient(env, y);
    KindsOfServer(env, y);
    CallQuietly(env.clientImpls, y.c, i, k, args);
    if !y.inBatch && c.connected {
      assert y.c.connected by { QuietlyConnected(y.c, c); }
      CallWaiting(env.clientImpls, y.c, |y.h.kinds|, i, k, args);
    }
    var more := CallKinds(env, y.h.kinds, o, k)[|y.h.kinds|..];
    assert CallKinds(env, y.h.kinds, o, k) == y.h.kinds + more;
    if !C.Callable(o, k) {
      NotCallable(env.clientImpls, y.c, i, k, args);
    } else if o.spec.c2s[k].Returns() {
      CS.MakingCallKeeps(env, y.h.kinds, y.h.born, Known(y), y.c, i, k, args);
    } else {
      CS.PlainCallKeeps(env, y.h.kinds, y.h.born, Known(y), y.c, i, k, args);
    }
    ClientGrows(env, y, c, more, y.inBatch);
  }

  lemma MarkStep(env: Env, y: System, i: nat, o: C.ClientObject)
    requires Inv(env, y) && i < |y.c.objects| && o == y.c.objects[i].(listeners := o.listeners, held := o.held)
    ensures Inv(env, y.(c := y.c.(objects := y.c.objects[i := o])))
  {
    hide ClientInv, ServerInv, ClientHandshake, ServerHandshake, Roundtrips, AllWaiting, AllKinds, Births, Dead,
      Quietly, StageOk;
    var c := y.c.(objects := y.c.objects[i := o]);
    CS.MarkKeeps(env, y.h.kinds, y.h.born, Known(y), y.c, i, o);
    QuietlySame(y.c, c);
    if !y.inBatch && c.connected {
      WaitingUpdate(y.c.objects, i, o, y.c.pending);
    }
    ClientActs(env, y, c, y.inBatch);
  }

  lemma CollectStep(env: Env, y: System)
    requires Agreed(env) && Inv(env, y) && !y.inBatch
    ensures Inv(env, y.(c := C.Collect(env.clientImpls, y.c)))
  {
    hide ClientInv, ServerInv, ClientHandshake, ServerHandshake, Roundtrips, AllWaiting, AllKinds, Births, Dead,
      Quietly, StageOk, C.Collect, Agreed;
    var c := C.Collect(env.clientImpls, y.c);
    KindsOfServer(env, y);
    CS.CollectKeeps(env, y.h.kinds, y.h.born, Known(y), y.c);
    CollectQuietly(env.clientImpls, y.c);
    if c.connected {
      assert y.c.connected by { QuietlyConnected(y.c, c); }
      CollectWaiting(env, y.h.kinds, y.h.born, Known(y), y.c);
    }
    ClientActs(env, y, c, y.inBatch);
  }

  lemma EndBatchStep(env: Env, y: System)
    requires Agreed(env) && Inv(env, y)
    ensures Inv(env, y.(c := C.EndBatch(env.clientImpls, y.c), inBatch := false))
  {
    hide ClientInv, ServerInv, ClientHandshake, ServerHandshake, Roundtrips, AllWaiting, AllKinds, Births, Dead,
      Quietly, StageOk, C.Collect, C.Flush, Agreed, AllKept, SeqsRise;
    var c := C.EndBatch(env.clientImpls, y.c);
    KindsOfServer(env, y);
    SeqsOfClient(env, y);
    EndBatchQuietly(env, y.h.kinds, y.c);
    CS.FlushKeeps(env, y.h.kinds, y.h.born, Known(y), y.c);
    CS.CollectKeeps(env, y.h.kinds, y.h.born, Known(y), C.Flush(y.c));
    CollectWaiting(env, y.h.kinds, y.h.born, Known(y), C.Flush(y.c));
    ClientActs(env, y, c, false);
  }

  /** A request is numbered right behind the last one. */
  lemma RoundtripStep(env: Env, y: System)
    requires Inv(env, y) && y.c.lastSent < 0xFFFF_FFFF
    ensures Inv(env, y.(c := C.Roundtrip(y.c)))
  {
    hide ClientInv, ServerInv, ClientHandshake, ServerHandshake, AllWaiting, AllKinds, Births, Dead, Offers,
      S.ExposedNames, LastRequest, LastDone, AnswersMarked, MarksBelow;
    CS.RoundtripKeeps(env, y.h.kinds, y.h.born, Known(y), y.c);
    if !y.c.error {
      ConnectedUnlessError(env, y);
      var e := C.Outgoing(RoundtripRequest(y.c.lastSent + 1), 0, false);
      assert (y.c.sent + [e])[..y.sRead] == y.c.sent[..y.sRead];
      LastRequestAppend(y.c.sent, e);
      ClientHandshakeAppend(y.h.stage, y.c.sent, y.sRead, e);
      AnswersExtend(y.s.sent, y.c.sent, [e], y.h.mark);
    }
  }

  lemma ConnectedUnlessError(env: Env, y: System)
    requires Inv(env, y) && !y.c.error
    ensures y.c.connected
  {
    hide ServerInv, ClientHandshake, ServerHandshake, AllWaiting, Births, Dead, Roundtrips, AllObjects, AllKept,
      AllEntries, ClientLogOk;
  }

  lemma LastRequestAppend(sent: seq<C.Outgoing>, e: C.Outgoing)
    requires e.msg.RoundtripRequest?
    ensures LastRequest(sent + [e]) == e.msg.request
  {
  }

  // Steps of the client's dispatch.

  /** The message read next, and what reading it tells the client. */
  lemma ReadNext(env: Env, y: System)
    requires Inv(env, y) && y.cRead < |y.s.sent|
    ensures var m := y.s.sent[y.cRead];
      && ServerMayFollow(y.h.born, Known(y), LastDone(y.s.sent[..y.cRead]), m)
      && ServerSays(env, y.h.stage, y.cRead, m)
      && Births(y.s.sent[..y.cRead + 1]) == Known(y) + (if m.NewObject? then 1 else 0)
      && LastDone(y.s.sent[..y.cRead + 1]) == (if m.RoundtripDone? then m.answered else LastDone(y.s.sent[..y.cRead]))
  {
    hide ClientInv, ClientHandshake, AllWaiting, AllTwins, AllKinds, AllOwed, AllBorn, Present, Dead, Roundtrips,
      StageOk;
    SS.ServerLogAt(y.s.sent, y.h.born, y.cRead);
    ServerSaysAt(env, y.h.stage, y.s.sent, y.cRead, y.cRead);
    assert y.s.sent[..y.cRead + 1] == y.s.sent[..y.cRead] + [y.s.sent[y.cRead]];
    assert (y.s.sent[..y.cRead] + [y.s.sent[y.cRead]])[..y.cRead] == y.s.sent[..y.cRead];
  }

  /** What a step of the client's dispatch has to show. */
  lemma ClientReads(env: Env, y: System, c: C.ClientState, stage: Stage, inBatch: bool)
    requires Inv(env, y) && y.cRead < |y.s.sent|
    requires ClientInv(env, y.h.kinds, y.h.born, Births(y.s.sent[..y.cRead + 1]), c)
    requires y.c.sent <= c.sent && LastRequest(c.sent) == LastRequest(y.c.sent)
    requires c.acked == LastDone(y.s.sent[..y.cRead + 1]) && c.lastSent == y.c.lastSent &&
      (c.connected ==> y.c.connected)
    requires ClientHandshake(stage, c.sent, y.sRead) && ServerHandshake(env, stage, y.s.sent, y.cRead + 1)
    requires StageOk(env, stage, c, y.s) && (!inBatch ==> !c.connected)
    ensures Inv(env, y.(c := c, inBatch := inBatch, cRead := y.cRead + 1, h := y.h.(stage := stage)))
  {
    hide ClientInv, ServerInv, ClientHandshake, ServerHandshake, AllWaiting, Births, LastRequest, LastDone, Dead,
      Offers, S.ExposedNames, AnswersMarked, MarksBelow;
    assert c.sent[..y.sRead] == y.c.sent[..y.sRead];
    RoundtripsGrow(y, c, y.cRead + 1);
  }

  /** Reading a message that is not part of the handshake. */
  lemma ReadsQuietly(env: Env, y: System, c: C.ClientState, inBatch: bool)
    requires Inv(env, y) && y.cRead < |y.s.sent|
    requires !y.s.sent[y.cRead].HandshakeBegin? && !y.s.sent[y.cRead].HandshakeProtocols?
    requires ClientInv(env, y.h.kinds, y.h.born, Births(y.s.sent[..y.cRead + 1]), c)
    requires Quietly(y.c, c.(acked := y.c.acked)) && c.acked == LastDone(y.s.sent[..y.cRead + 1]) && c.seq_ == y.c.seq_
    requires !inBatch ==> !c.connected
    ensures Inv(env, y.(c := c, inBatch := inBatch, cRead := y.cRead + 1))
  {
    hide ClientInv, ServerInv, ClientHandshake, ServerHandshake, AllWaiting, Births, LastRequest, LastDone, Dead,
      Offers, S.ExposedNames, AnswersMarked, MarksBelow, AllQuiet;
    assert c.sent == y.c.sent + c.sent[|y.c.sent|..];
    QuietGrowth(y.h.stage, y.c.sent, c.sent[|y.c.sent|..], y.sRead);
    ServerHandshakeRead(env, y.h.stage, y.h.stage, y.s.sent, y.cRead);
    ClientReads(env, y, c, y.h.stage, inBatch);
    assert y.h.(stage := y.h.stage) == y.h;
  }

  lemma BeginStep(env: Env, y: System)
    requires Inv(env, y) && y.cRead < |y.s.sent| && y.s.sent[y.cRead].HandshakeBegin?
    ensures Inv(env, HandleOnClient(y))
  {
    hide ClientInv, ServerInv, ClientHandshake, ServerHandshake, AllWaiting, Births, LastRequest, LastDone, Dead,
      Offers, S.ExposedNames, AnswersMarked, MarksBelow;
    ReadNext(env, y);
    var e := C.Outgoing(HandshakeAck(S.PROTOCOL_VERSION), 0, false);
    var c := C.Send(y.c, e);
    CS.AckSent(env, y.h.kinds, y.h.born, Known(y), y.c);
    AckAppend(y.c.sent, e);
    ClientHandshakeIdle(y.h.stage, Acked(|y.c.sent|), y.c.sent, y.sRead);
    ClientHandshakeAppend(Acked(|y.c.sent|), y.c.sent, y.sRead, e);
    ServerHandshakeRead(env, y.h.stage, Acked(|y.c.sent|), y.s.sent, y.cRead);
    ClientReads(env, y, c, Acked(|y.c.sent|), true);
  }

  lemma AckAppend(sent: seq<C.Outgoing>, e: C.Outgoing)
    requires !e.msg.RoundtripRequest?
    ensures LastRequest(sent + [e]) == LastRequest(sent)
  {
    assert (sent + [e])[..|sent|] == sent;
  }

  /** The client reads back the list the server printed. */
  lemma {:induction false} ReadPrinted(specs: seq<ServerSpec>)
    ensures C.ReadSpecs(Printed(specs)) == C.SpecsRead(specs, true)
  {
    if specs == [] {
    } else {
      hide ParseSpec, PrintSpec;
      SpecRoundTrip(specs[0]);
      ReadPrinted(specs[1..]);
      assert Printed(specs)[1..] == Printed(specs[1..]);
      assert [specs[0]] + specs[1..] == specs;
    }
  }

  lemma ProtocolsStep(env: Env, y: System)
    requires Inv(env, y) && y.cRead < |y.s.sent| && y.s.sent[y.cRead].HandshakeProtocols?
    ensures Inv(env, HandleOnClient(y))
  {
    hide ServerInv, ClientHandshake, ServerHandshake, AllWaiting, Births, LastRequest, LastDone, Dead, Offers,
      S.ExposedNames, AnswersMarked, MarksBelow, AllObjects, AllKept, AllEntries, ClientLogOk, SeqsRise, C.ReadSpecs,
      Printed;
    ReadNext(env, y);
    ReadPrinted(Offers(env));
    var c := y.c.(serverSpecs := y.c.serverSpecs + Offers(env), handshakeDone := true);
    assert [] + Offers(env) == Offers(env);
    ClientHandshakeIdle(y.h.stage, Done, y.c.sent, y.sRead);
    ServerHandshakeRead(env, y.h.stage, Done, y.s.sent, y.cRead);
    ClientReads(env, y, c, Done, true);
  }

  lemma NewObjectStep(env: Env, y: System)
    requires Inv(env, y) && y.cRead < |y.s.sent| && y.s.sent[y.cRead].NewObject?
    ensures Inv(env, HandleOnClient(y))
  {
    hide ClientInv, ServerInv, ClientHandshake, ServerHandshake, AllWaiting, Births, LastRequest, LastDone, Dead,
      Offers, S.ExposedNames, AnswersMarked, MarksBelow, Roundtrips, StageOk, Quietly, C.FindSeq;
    var m := y.s.sent[y.cRead];
    ReadNext(env, y);
    CS.OnSeqKeeps(env, y.h.kinds, y.h.born, Known(y), y.c, m.forSeq, m.id);
    var c := C.OnSeq(y.c, m.forSeq, m.id);
    QuietlySame(y.c, c);
    AckedSoFar(env, y);
    assert c.(acked := y.c.acked) == c;
    ReadsQuietly(env, y, c, true);
  }

  lemma AckedSoFar(env: Env, y: System)
    requires Inv(env, y)
    ensures y.c.acked == LastDone(y.s.sent[..y.cRead])
  {
    hide ClientInv, ServerInv, ClientHandshake, ServerHandshake, AllWaiting, Births, LastRequest, LastDone, Dead,
      AnswersMarked, MarksBelow;
  }

  lemma GenericStep(env: Env, y: System)
    requires Inv(env, y) && y.cRead < |y.s.sent| && y.s.sent[y.cRead].Generic?
    ensures Inv(env, HandleOnClient(y))
  {
    hide ClientInv, ServerInv, ClientHandshake, ServerHandshake, AllWaiting, Births, LastRequest, LastDone, Dead,
      Offers, S.ExposedNames, AnswersMarked, MarksBelow, Roundtrips, StageOk, Quietly, C.OnGeneric;
    var m := y.s.sent[y.cRead];
    ReadNext(env, y);
    CS.OnGenericKeeps(env, y.h.kinds, y.h.born, Known(y), y.c, m.objectId, m.method_, m.args);
    OnGenericQuietly(y.c, m.objectId, m.method_, m.args);
    var c := C.OnGeneric(y.c, m.objectId, m.method_, m.args);
    AckedSoFar(env, y);
    OnGenericCounts(y.c, m.objectId, m.method_, m.args);
    assert c.(acked := y.c.acked) == c;
    ReadsQuietly(env, y, c, true);
  }

  lemma OnGenericCounts(c: C.ClientState, target: u32, k: u32, args: seq<Value>)
    ensures C.OnGeneric(c, target, k, args).acked == c.acked && C.OnGeneric(c, target, k, args).seq_ == c.seq_
  {
    hide CalledOutcome, C.FindId, C.WithoutId;
  }

  /** All else a server sends is an answer to a roundtrip. */
  lemma DoneStep(env: Env, y: System)
    requires Inv(env, y) && y.cRead < |y.s.sent|
    requires var m := y.s.sent[y.cRead];
      !m.HandshakeBegin? && !m.HandshakeProtocols? && !m.NewObject? && !m.Generic?
    ensures Inv(env, HandleOnClient(y))
  {
    hide ServerInv, ClientHandshake, ServerHandshake, AllWaiting, Births, LastRequest, LastDone, Dead, Offers,
      S.ExposedNames, AnswersMarked, MarksBelow, Roundtrips, StageOk, Quietly, AllObjects, AllKept, AllEntries,
      ClientLogOk, SeqsRise;
    var m := y.s.sent[y.cRead];
    ReadNext(env, y);
    AckedSoFar(env, y);
    var c := y.c.(acked := m.answered);
    QuietlySame(y.c, c.(acked := y.c.acked));
    ReadsQuietly(env, y, c, true);
  }

  lemma ClientHandleStep(env: Env, y: System)
    requires Inv(env, y) && y.cRead < |y.s.sent|
    ensures Inv(env, HandleOnClient(y))
  {
    hide Inv, HandleOnClient;
    var m := y.s.sent[y.cRead];
    if m.HandshakeBegin? {
      BeginStep(env, y);
    } else if m.HandshakeProtocols? {
      ProtocolsStep(env, y);
    } else if m.NewObject? {
      NewObjectStep(env, y);
    } else if m.Generic? {
      GenericStep(env, y);
    } else {
      DoneStep(env, y);
    }
  }

  // Steps of the server.

  lemma BornGrow(env: Env, kinds: seq<Kind>, born: seq<u32>, later: seq<u32>, known: nat, c: C.ClientState)
    requires ClientInv(env, kinds, born, known, c)
    ensures ClientInv(env, kinds, born + later, known, c)
  {
    hide AllObjects, AllKept, AllEntries, ClientLogOk, SeqsRise, Dead;
    assert kinds + [] == kinds;
    CT.AllEntriesGrow(env, kinds, [], born, later, known, known, c.sent);
    CT.AllObjectsGrow(kinds, [], born, later, known, known, c.pending, Dead(c.sent), c.objects);
  }

  /** The message taken next, and what it is allowed to be. */
  lemma TakeNext(env: Env, y: System)
    requires Inv(env, y) && y.sRead < |y.c.sent|
    ensures var e := y.c.sent[y.sRead]; var dead := Dead(y.c.sent[..y.sRead]);
      && EntryOk(env, y.h.kinds, y.h.born, Known(y), e)
      && MayFollow(dead, LastRequest(y.c.sent[..y.sRead]), e.msg)
      && ClientSays(y.h.stage, y.sRead, e.msg)
      && Dead(y.c.sent[..y.sRead + 1]) == dead + KilledBy(e)
      && LastRequest(y.c.sent[..y.sRead + 1])
        == (if e.msg.RoundtripRequest? then e.msg.request else LastRequest(y.c.sent[..y.sRead]))
  {
    hide ServerInv, ServerHandshake, AllWaiting, AllObjects, AllKept, SeqsRise, Births, Roundtrips, StageOk, EntryOk;
    CT.EntryAt(env, y.h.kinds, y.h.born, Known(y), y.c.sent, y.sRead);
    CT.ClientLogAt(y.c.sent, y.sRead);
    ClientSaysAt(y.h.stage, y.c.sent, y.sRead, y.sRead);
    assert y.c.sent[..y.sRead + 1][..y.sRead] == y.c.sent[..y.sRead];
  }

  lemma {:induction false} AllEntriesPrefix(env: Env, kinds: seq<Kind>, born: seq<u32>, known: nat,
      sent: seq<C.Outgoing>, j: nat)
    requires AllEntries(env, kinds, born, known, sent) && j <= |sent|
    ensures AllEntries(env, kinds, born, known, sent[..j])
  {
    if j < |sent| {
      AllEntriesPrefix(env, kinds, born, known, sent[..|sent| - 1], j);
      assert sent[..|sent| - 1][..j] == sent[..j];
    } else {
      assert sent[..j] == sent;
    }
  }

  /** The next id has not been heard of, let alone destroyed. */
  lemma NextIdFresh(env: Env, y: System)
    requires Inv(env, y)
    ensures y.s.maxId !in Dead(y.c.sent[..y.sRead])
  {
    hide ServerHandshake, ClientHandshake, AllWaiting, AllObjects, AllKept, SeqsRise, Births, Roundtrips, StageOk,
      AllEntries, ClientLogOk, Dead, AllTwins, AllKinds, AllOwed, AllBorn, Present, ServerLogOk, AllEvents;
    if y.s.maxId in Dead(y.c.sent[..y.sRead]) {
      AllEntriesPrefix(env, y.h.kinds, y.h.born, Known(y), y.c.sent, y.sRead);
      CT.DeadKnown(env, y.h.kinds, y.h.born, Known(y), y.c.sent[..y.sRead], y.s.maxId);
    }
  }

  lemma NotDone(sent: seq<Message>, m: Message)
    requires !m.RoundtripDone?
    ensures LastDone(sent + [m]) == LastDone(sent)
  {
    assert (sent + [m])[..|sent|] == sent;
  }

  /** At most one message goes out in answer, and it is not the answer to a roundtrip. */
  predicate Replied(s: S.ServerState, t: S.ServerState) {
    t.sent == s.sent || (|t.sent| == |s.sent| + 1 && t.sent[..|s.sent|] == s.sent && !t.sent[|s.sent|].RoundtripDone?)
  }

  lemma RoundtripsTake(env: Env, y: System, t: S.ServerState)
    requires Inv(env, y) && y.sRead < |y.c.sent| && Replied(y.s, t)
    requires t.scheduled == if y.c.sent[y.sRead].msg.RoundtripRequest? then y.c.sent[y.sRead].msg.request
      else y.s.scheduled
    ensures Roundtrips(y.c, t, y.cRead, y.sRead + 1, y.h.mark + [|y.s.sent|])
  {
    hide ClientInv, ServerHandshake, ClientHandshake, AllWaiting, Births, StageOk, Dead, LastRequest, LastDone,
      AnswersMarked, MarksBelow, AllTwins, AllKinds, AllOwed, AllBorn, Present, ServerLogOk, AllEvents, EntryOk;
    TakeNext(env, y);
    var at := |y.s.sent|;
    AnswersMark(y.s.sent, y.h.born, y.c.sent, y.h.mark, at);
    MarksAppend(y.h.mark, at, |t.sent|);
    assert t.sent[..y.cRead] == y.s.sent[..y.cRead];
    if t.sent != y.s.sent {
      assert t.sent == y.s.sent + [t.sent[at]];
      NotDone(y.s.sent, t.sent[at]);
      AnswersAppend(y.s.sent, t.sent[at], y.c.sent, y.h.mark + [at]);
    }
  }

  /** What a step of the server's dispatch has to show. */
  lemma ServerTakes(env: Env, y: System, t: S.ServerState, later: seq<u32>, owed: seq<Owed>, stage: Stage)
    requires Inv(env, y) && y.sRead < |y.c.sent| && Replied(y.s, t)
    requires ServerInv(env, y.h.kinds, y.h.born + later, owed, Dead(y.c.sent[..y.sRead + 1]), t)
    requires t.scheduled == if y.c.sent[y.sRead].msg.RoundtripRequest? then y.c.sent[y.sRead].msg.request
      else y.s.scheduled
    requires ClientHandshake(stage, y.c.sent, y.sRead + 1) && ServerHandshake(env, stage, t.sent, y.cRead)
    requires StageOk(env, stage, y.c, t)
    ensures Inv(env, y.(s := t, sRead := y.sRead + 1,
                        h := History(y.h.kinds, y.h.born + later, owed, y.h.mark + [|y.s.sent|], stage)))
  {
    hide ClientInv, ServerInv, ClientHandshake, ServerHandshake, AllWaiting, Births, LastRequest, LastDone, Dead,
      Offers, S.ExposedNames, Roundtrips, StageOk;
    RoundtripsTake(env, y, t);
    BornGrow(env, y.h.kinds, y.h.born, later, Known(y), y.c);
    assert t.sent[..y.cRead] == y.s.sent[..y.cRead];
  }

  lemma HelloStep(env: Env, y: System)
    requires Inv(env, y) && y.sRead < |y.c.sent| && y.c.sent[y.sRead].msg == Hello
    ensures Inv(env, HandleOnServer(env, y))
  {
    hide ClientInv, ServerInv, ClientHandshake, ServerHandshake, AllWaiting, Births, LastRequest, LastDone, Dead,
      Offers, S.ExposedNames, Roundtrips;
    TakeNext(env, y);
    var t := S.Handle(env.server, y.s, Hello);
    var stage := Began(|y.s.sent|);
    SS.HelloKeeps(env, y.h.kinds, y.h.born, y.h.owed, Dead(y.c.sent[..y.sRead]), y.s);
    ClientHandshakeRead(y.h.stage, stage, y.c.sent, y.sRead);
    ServerHandshakeIdle(env, y.h.stage, stage, y.s.sent, y.cRead);
    ServerHandshakeAppend(env, stage, y.s.sent, y.cRead, HandshakeBegin([S.PROTOCOL_VERSION]));
    assert Dead(y.c.sent[..y.sRead]) + {} == Dead(y.c.sent[..y.sRead]);
    assert [] + S.ExposedNames(env.server.impls, env.server.filter)
      == S.ExposedNames(env.server.impls, env.server.filter);
    assert y.h.owed + [] == y.h.owed && y.h.born + [] == y.h.born;
    ServerTakes(env, y, t, [], y.h.owed, stage);
  }

  lemma AckStep(env: Env, y: System)
    requires Inv(env, y) && y.sRead < |y.c.sent| && y.c.sent[y.sRead].msg.HandshakeAck?
    ensures Inv(env, HandleOnServer(env, y))
  {
    hide ClientInv, ServerInv, ClientHandshake, ServerHandshake, AllWaiting, Births, LastRequest, LastDone, Dead,
      S.Offered, Printed, S.ExposedNames, Roundtrips;
    TakeNext(env, y);
    var v := y.c.sent[y.sRead].msg.version;
    var t := S.Handle(env.server, y.s, HandshakeAck(v));
    var stage := Listed(|y.s.sent|);
    SS.AckKeeps(env, y.h.kinds, y.h.born, y.h.owed, Dead(y.c.sent[..y.sRead]), y.s, v);
    ClientHandshakeRead(y.h.stage, stage, y.c.sent, y.sRead);
    ServerHandshakeIdle(env, y.h.stage, stage, y.s.sent, y.cRead);
    ServerHandshakeAppend(env, stage, y.s.sent, y.cRead, HandshakeProtocols(Printed(Offers(env))));
    assert Dead(y.c.sent[..y.sRead]) + {} == Dead(y.c.sent[..y.sRead]);
    assert y.h.owed + [] == y.h.owed && y.h.born + [] == y.h.born;
    ServerTakes(env, y, t, [], y.h.owed, stage);
  }

  lemma RequestStep(env: Env, y: System)
    requires Inv(env, y) && y.sRead < |y.c.sent| && y.c.sent[y.sRead].msg.RoundtripRequest?
    ensures Inv(env, HandleOnServer(env, y))
  {
    hide ClientInv, ClientHandshake, ServerHandshake, AllWaiting, Births, LastRequest, LastDone, Dead, Offers,
      S.ExposedNames, Roundtrips, AllTwins, AllKinds, AllOwed, AllBorn, Present, ServerLogOk, AllEvents;
    TakeNext(env, y);
    var t := S.Handle(env.server, y.s, y.c.sent[y.sRead].msg);
    ClientHandshakeRead(y.h.stage, y.h.stage, y.c.sent, y.sRead);
    assert Dead(y.c.sent[..y.sRead]) + {} == Dead(y.c.sent[..y.sRead]);
    assert y.h.owed + [] == y.h.owed && y.h.born + [] == y.h.born;
    ServerTakes(env, y, t, [], y.h.owed, y.h.stage);
  }

  /** A bind is for an exposed protocol, in a version it has: the greeting was handled
      long ago. */
  lemma BindHandled(env: Env, y: System)
    requires Agreed(env) && Inv(env, y) && y.sRead < |y.c.sent| && y.c.sent[y.sRead].msg.BindProtocol? &&
      y.s.maxId < 0xFFFF_FFFF
    ensures Inv(env, HandleOnServer(env, y))
  {
    hide ClientInv, ServerInv, ClientHandshake, ServerHandshake, AllWaiting, Births, LastRequest, LastDone, Dead,
      Offers, S.ExposedNames, Roundtrips, FindProtocol, S.CreateObject;
    TakeNext(env, y);
    var m := y.c.sent[y.sRead].msg;
    var w := Owed(m.seq_, m.protocol, [], m.bindVersion);
    CountsOfClient(env, y);
    NextIdFresh(env, y);
    SS.CreateKeeps(env, y.h.kinds, y.h.born, y.h.owed, Dead(y.c.sent[..y.sRead]), y.s, w);
    var t := S.CreateObject(env.server, y.s, m.protocol, [], m.bindVersion, m.seq_);
    ClientHandshakeRead(y.h.stage, y.h.stage, y.c.sent, y.sRead);
    ServerHandshakeAppend(env, y.h.stage, y.s.sent, y.cRead, NewObject(y.s.maxId, m.seq_));
    assert Dead(y.c.sent[..y.sRead]) + {} == Dead(y.c.sent[..y.sRead]);
    assert y.h.owed + [] == y.h.owed;
    ServerTakes(env, y, t, [m.seq_], y.h.owed, y.h.stage);
  }

  lemma CountsOfClient(env: Env, y: System)
    requires Inv(env, y)
    ensures |y.h.kinds| == y.c.seq_
  {
    hide ServerInv, ClientHandshake, ServerHandshake, AllWaiting, Births, Dead, Roundtrips, AllObjects, AllKept,
      AllEntries, ClientLogOk;
  }

  /** A call finds its object, passes every check, and destroys the object exactly when its
      method is a destructor. */
  lemma CallHandled(env: Env, y: System)
    requires Agreed(env) && Inv(env, y) && y.sRead < |y.c.sent| && y.c.sent[y.sRead].msg.Generic?
    ensures Inv(env, HandleOnServer(env, y))
  {
    hide ClientInv, ServerInv, ClientHandshake, ServerHandshake, AllWaiting, Births, LastRequest, LastDone, Dead,
      Offers, S.ExposedNames, Roundtrips, CallOk, S.OnGeneric, OwedBy, AllOwed, Agreed;
    TakeNext(env, y);
    var e := y.c.sent[y.sRead];
    var m := e.msg;
    var dead := Dead(y.c.sent[..y.sRead]);
    SS.GenericKeeps(env, y.h.kinds, y.h.born, y.h.owed, dead, y.s, m.objectId, e.origin, m.method_, m.args, e.dtor);
    SS.OwedKeeps(env, y.h.kinds, y.h.born, y.h.owed, dead, y.s, m.objectId, e.origin, m.method_, m.args, e.dtor);
    var t := S.OnGeneric(y.s, m.objectId, m.method_, m.args);
    OwedReplaced(env, y.h.kinds, y.h.born, y.h.owed, y.h.owed + OwedBy(y.s, m), Dead(y.c.sent[..y.sRead + 1]), t);
    ClientHandshakeRead(y.h.stage, y.h.stage, y.c.sent, y.sRead);
    OnGenericFields(y.s, m.objectId, m.method_, m.args);
    assert y.h.born + [] == y.h.born;
    ServerTakes(env, y, t, [], y.h.owed + OwedBy(y.s, m), y.h.stage);
  }

  lemma OwedReplaced(env: Env, kinds: seq<Kind>, born: seq<u32>, owed: seq<Owed>, owed': seq<Owed>, dead: set<u32>,
      s: S.ServerState)
    requires ServerInv(env, kinds, born, owed, dead, s) && AllOwed(env, kinds, owed')
    ensures ServerInv(env, kinds, born, owed', dead, s)
  {
    hide AllTwins, Present, ServerLogOk, AllEvents, Births, AllKinds, AllOwed, AllBorn;
  }

  lemma OnGenericFields(s: S.ServerState, target: u32, k: u32, args: seq<Value>)
    ensures var t := S.OnGeneric(s, target, k, args);
      t.scheduled == s.scheduled && t.exposed == s.exposed && t.firstPollDone == s.firstPollDone &&
        t.version == s.version
  {
    hide CalledOutcome, S.Find, S.Without;
  }

  lemma ServerHandleStep(env: Env, y: System)
    requires Agreed(env) && Inv(env, y) && Enabled(env, y, ServerHandle)
    ensures Inv(env, HandleOnServer(env, y))
  {
    hide Inv, HandleOnServer, EntryOk, MayFollow, ClientSays;
    var m := y.c.sent[y.sRead].msg;
    if m.Hello? {
      HelloStep(env, y);
    } else if m.HandshakeAck? {
      AckStep(env, y);
    } else if m.RoundtripRequest? {
      RequestStep(env, y);
    } else if m.BindProtocol? {
      BindHandled(env, y);
    } else if m.Generic? {
      CallHandled(env, y);
    } else {
      NoOther(env, y);
    }
  }

  lemma NoOther(env: Env, y: System)
    requires Inv(env, y) && y.sRead < |y.c.sent|
    ensures S.FromClient(y.c.sent[y.sRead].msg)
  {
    hide Inv, CallOk, BindOk, MayFollow, ClientSays, Dead, LastRequest;
    TakeNext(env, y);
  }

  /** What the server does between messages. */
  lemma ServerActs(env: Env, y: System, t: S.ServerState, later: seq<u32>)
    requires Inv(env, y) && y.s.sent <= t.sent
    requires ServerInv(env, y.h.kinds, y.h.born + later, y.h.owed, Dead(y.c.sent[..y.sRead]), t)
    requires ServerHandshake(env, y.h.stage, t.sent, y.cRead) && StageOk(env, y.h.stage, y.c, t)
    requires Roundtrips(y.c, t, y.cRead, y.sRead, y.h.mark)
    ensures Inv(env, y.(s := t, h := y.h.(born := y.h.born + later)))
  {
    hide ClientInv, ServerInv, ClientHandshake, ServerHandshake, AllWaiting, Births, LastRequest, LastDone, Dead,
      Offers, S.ExposedNames, Roundtrips, StageOk;
    BornGrow(env, y.h.kinds, y.h.born, later, Known(y), y.c);
    assert t.sent[..y.cRead] == y.s.sent[..y.cRead];
  }

  /** Sending something that is neither handshake nor answer. */
  lemma RoundtripsReply(env: Env, y: System, t: S.ServerState)
    requires Inv(env, y) && Replied(y.s, t) && t.scheduled == y.s.scheduled
    ensures Roundtrips(y.c, t, y.cRead, y.sRead, y.h.mark)
  {
    hide ClientInv, ServerInv, ServerHandshake, ClientHandshake, AllWaiting, Births, StageOk, Dead, LastRequest,
      LastDone, AnswersMarked, MarksBelow;
    var at := |y.s.sent|;
    assert t.sent[..y.cRead] == y.s.sent[..y.cRead];
    if t.sent != y.s.sent {
      assert t.sent == y.s.sent + [t.sent[at]];
      NotDone(y.s.sent, t.sent[at]);
      MarksWeaken(y.h.mark, at, at + 1);
      AnswersAppend(y.s.sent, t.sent[at], y.c.sent, y.h.mark);
    }
  }

  lemma CreateStep(env: Env, y: System, n: nat)
    requires Inv(env, y) && n < |y.h.owed| && y.s.maxId < 0xFFFF_FFFF
    ensures Inv(env, CreateOnServer(env, y, y.h.owed[n]))
  {
    hide Inv, OwedOk, CreateOnServer;
    OwedOfServer(env, y, n);
    CreateAnswer(env, y, y.h.owed[n]);
  }

  lemma CreateAnswer(env: Env, y: System, w: Owed)
    requires Inv(env, y) && OwedOk(env, y.h.kinds, w) && w.protocol in y.s.exposed && y.s.maxId < 0xFFFF_FFFF
    ensures Inv(env, CreateOnServer(env, y, w))
  {
    hide ClientInv, ServerInv, ClientHandshake, ServerHandshake, AllWaiting, Births, LastRequest, LastDone, Dead,
      Offers, S.ExposedNames, Roundtrips, OwedOk, S.CreateObject, StageOk;
    NextIdFresh(env, y);
    SS.CreateKeeps(env, y.h.kinds, y.h.born, y.h.owed, Dead(y.c.sent[..y.sRead]), y.s, w);
    var t := S.CreateObject(env.server, y.s, w.protocol, w.name, w.version, w.seq_);
    ServerHandshakeAppend(env, y.h.stage, y.s.sent, y.cRead, NewObject(y.s.maxId, w.seq_));
    RoundtripsReply(env, y, t);
    StageStays(env, y.h.stage, y.c, y.s, t);
    ServerActs(env, y, t, [w.seq_]);
  }

  lemma OwedOfServer(env: Env, y: System, n: nat)
    requires Inv(env, y) && n < |y.h.owed|
    ensures OwedOk(env, y.h.kinds, y.h.owed[n]) && y.h.owed[n].protocol in y.s.exposed
  {
    hide ClientInv, ClientHandshake, ServerHandshake, AllWaiting, Births, Dead, Roundtrips, AllTwins, AllKinds, AllOwed,
      AllBorn, Present, ServerLogOk, AllEvents, S.ExposedNames, FindProtocol, FindObject, Offers;
    SS.OwedAt(env, y.h.kinds, y.h.owed, n);
    SS.KindAt(env, y.h.kinds, y.h.owed[n].seq_ - 1);
    CountsOfClient(env, y);
  }

  lemma StageStays(env: Env, stage: Stage, c: C.ClientState, s: S.ServerState, t: S.ServerState)
    requires StageOk(env, stage, c, s)
    requires t.exposed == s.exposed && t.firstPollDone == s.firstPollDone && t.version == s.version
    ensures StageOk(env, stage, c, t)
  {
    hide Offers, S.ExposedNames;
  }

  lemma ServerCallStep(env: Env, y: System, i: nat, k: u32, args: seq<Value>)
    requires Inv(env, y) && HonestServerCall(y.s, i, k, args)
    ensures Inv(env, y.(s := S.CallOut(y.s, i, k, args)))
  {
    hide ClientInv, ServerInv, ClientHandshake, ServerHandshake, AllWaiting, Births, LastRequest, LastDone, Dead,
      StageOk, Roundtrips, S.CallOut;
    var o := y.s.objects[i];
    var t := S.CallOut(y.s, i, k, args);
    SS.CallOutKeeps(env, y.h.kinds, y.h.born, y.h.owed, Dead(y.c.sent[..y.sRead]), y.s, i, k, args);
    SS.CallOutIs(y.s, i, k, args);
    ServerHandshakeAppend(env, y.h.stage, y.s.sent, y.cRead, Generic(o.id, k, args));
    RoundtripsReply(env, y, t);
    StageStays(env, y.h.stage, y.c, y.s, t);
    assert y.h.born + [] == y.h.born;
    ServerActs(env, y, t, []);
    assert y.h.(born := y.h.born) == y.h;
  }

  lemma ServerListenStep(env: Env, y: System, i: nat, k: u32)
    requires Inv(env, y) && i < |y.s.objects|
    ensures Inv(env, y.(s := S.Listen(y.s, i, k)))
  {
    hide ClientInv, ServerInv, ClientHandshake, ServerHandshake, AllWaiting, Births, LastRequest, LastDone, Dead,
      StageOk, Roundtrips;
    var t := S.Listen(y.s, i, k);
    SS.ListenKeeps(env, y.h.kinds, y.h.born, y.h.owed, Dead(y.c.sent[..y.sRead]), y.s, i, k);
    RoundtripsReply(env, y, t);
    StageStays(env, y.h.stage, y.c, y.s, t);
    assert y.h.born + [] == y.h.born;
    ServerActs(env, y, t, []);
    assert y.h.(born := y.h.born) == y.h;
  }

  /** The last request of the batch is answered: no answer goes back behind an earlier
      one, and every request it answers has been marked by now. */
  lemma ServerEndBatchStep(env: Env, y: System)
    requires Inv(env, y)
    ensures Inv(env, y.(s := S.EndBatch(y.s)))
  {
    hide ClientInv, ServerInv, ClientHandshake, ServerHandshake, AllWaiting, Births, LastRequest, LastDone, Dead,
      StageOk, AnswersMarked, MarksBelow;
    var t := S.EndBatch(y.s);
    SS.EndBatchKeeps(env, y.h.kinds, y.h.born, y.h.owed, Dead(y.c.sent[..y.sRead]), y.s);
    if y.s.scheduled > 0 {
      var m := RoundtripDone(y.s.scheduled);
      ServerHandshakeAppend(env, y.h.stage, y.s.sent, y.cRead, m);
      LastDoneAppend(y.s.sent, y.s.scheduled);
      MarksMarked(y.c.sent, y.h.mark, y.s.scheduled, |y.s.sent|, |y.s.sent|);
      MarksWeaken(y.h.mark, |y.s.sent|, |t.sent|);
      AnswersAppend(y.s.sent, m, y.c.sent, y.h.mark);
      assert t.sent[..y.cRead] == y.s.sent[..y.cRead];
    }
    StageStays(env, y.h.stage, y.c, y.s, t);
    assert y.h.born + [] == y.h.born;
    ServerActs(env, y, t, []);
    assert y.h.(born := y.h.born) == y.h;
  }

  lemma LastDoneAppend(sent: seq<Message>, d: u32)
    ensures LastDone(sent + [RoundtripDone(d)]) == d
  {
  }

  // Runs.

  lemma InitInv(env: Env)
    ensures Inv(env, Init())
  {
  }

  lemma StepKeeps(env: Env, y: System, step: Step)
    requires Agreed(env) && Inv(env, y) && Enabled(env, y, step)
    ensures Inv(env, Next(env, y, step))
  {
    hide Inv, Agreed, HandleOnClient, HandleOnServer, CreateOnServer, HonestCall, HonestServerCall, Advertised,
      CallKinds;
    match step
    case ClientBind(spec, version) => BindStep(env, y, spec, version);
    case ClientCall(i, k, args) => CallStep(env, y, i, k, args);
    case ClientRoundtrip => RoundtripStep(env, y);
    case ClientHold(i, held) => MarkStep(env, y, i, y.c.objects[i].(held := held));
    case ClientListen(i, k) => MarkStep(env, y, i, y.c.objects[i].(listeners := y.c.objects[i].listeners + {k as nat}));
    case ClientCollect => CollectStep(env, y);
    case ClientHandle => ClientHandleStep(env, y);
    case ClientEndBatch => EndBatchStep(env, y);
    case ServerHandle => ServerHandleStep(env, y);
    case ServerEndBatch => ServerEndBatchStep(env, y);
    case ServerCreate(n) => CreateStep(env, y, n);
    case ServerCall(i, k, args) => ServerCallStep(env, y, i, k, args);
    case ServerListen(i, k) => ServerListenStep(env, y, i, k);
  }

  lemma {:induction false} RunKeeps(env: Env, y: System, steps: seq<Step>)
    requires Agreed(env) && Inv(env, y) && Honest(env, y, steps)
    ensures Inv(env, Run(env, y, steps))
    decreases |steps|
  {
    if steps == [] {
    } else {
      hide Inv, Agreed, Next;
      StepKeeps(env, y, steps[0]);
      RunKeeps(env, Next(env, y, steps[0]), steps[1..]);
    }
  }
}
