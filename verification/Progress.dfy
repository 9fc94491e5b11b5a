/** Honest runs get somewhere: the handshake completes, and a bind is answered. */
module Progress {
  import opened Bytes
  import opened Specs
  import opened SpecNames
  import opened Messages
  import opened Session
  import opened Invariant
  import C = Client
  import S = Server
  import SessionSteps
  import SessionSafety
  import SessionTheorems
  import ServerSafety

  function Handshake(): seq<Step> { [ServerHandle, ClientHandle, ServerHandle, ClientHandle] }

  lemma RunFour(env: Env, y: System, a: Step, b: Step, c: Step, d: Step)
    requires Enabled(env, y, a)
    requires var y1 := Next(env, y, a); Enabled(env, y1, b)
    requires var y2 := Next(env, Next(env, y, a), b); Enabled(env, y2, c)
    requires var y3 := Next(env, Next(env, Next(env, y, a), b), c); Enabled(env, y3, d)
    ensures Honest(env, y, [a, b, c, d])
    ensures Run(env, y, [a, b, c, d]) == Next(env, Next(env, Next(env, Next(env, y, a), b), c), d)
  {
    hide Enabled, Next;
    var y1 := Next(env, y, a);
    var y2 := Next(env, y1, b);
    var y3 := Next(env, y2, c);
    var y4 := Next(env, y3, d);
    assert [a, b, c, d][1..] == [b, c, d] && [b, c, d][1..] == [c, d] && [c, d][1..] == [d] && [d][1..] == [];
    assert Honest(env, y4, []) && Honest(env, y3, [d]) && Run(env, y3, [d]) == y4;
    assert Honest(env, y2, [c, d]) && Run(env, y2, [c, d]) == y4;
    assert Honest(env, y1, [b, c, d]) && Run(env, y1, [b, c, d]) == y4;
  }

  /** The first half: the server begins, the client acknowledges. */
  lemma HandshakeBegins(env: Env) returns (y1: System, y2: System)
    ensures y1 == HandleOnServer(env, Init()) && y2 == HandleOnClient(y1) && |y1.s.sent| == 1
    ensures y2.c == C.Opened().(
      sent := [C.Outgoing(Hello, 0, false), C.Outgoing(HandshakeAck(S.PROTOCOL_VERSION), 0, false)])
    ensures y2.s.exposed == S.ExposedNames(env.server.impls, env.server.filter) && !y2.s.error && y2.s.maxId == 1
    ensures y2.s.sent == [HandshakeBegin([S.PROTOCOL_VERSION])] && y2.sRead == 1 && y2.cRead == 1 && y2.inBatch
    ensures !y1.s.error && y1.cRead == 0 && !y1.c.error
  {
    hide S.ExposedNames;
    var names := S.ExposedNames(env.server.impls, env.server.filter);
    y1 := HandleOnServer(env, Init());
    assert [] + names == names;
    assert y1.s.sent == [HandshakeBegin([S.PROTOCOL_VERSION])];
    y2 := HandleOnClient(y1);
    assert y2.c.sent == [C.Outgoing(Hello, 0, false), C.Outgoing(HandshakeAck(S.PROTOCOL_VERSION), 0, false)];
  }

  /** The second half: the server lists, the client learns. */
  lemma HandshakeEnds(env: Env, y2: System) returns (y3: System)
    requires y2.sRead == 1 && |y2.c.sent| == 2 && y2.c.sent[1].msg == HandshakeAck(S.PROTOCOL_VERSION)
    requires y2.cRead == 1 == |y2.s.sent| && y2.s.exposed == S.ExposedNames(env.server.impls, env.server.filter)
    requires y2.c.serverSpecs == []
    ensures y3 == HandleOnServer(env, y2) && |y3.s.sent| == 2 && y3.c == y2.c && y3.cRead == 1 &&
      y3.inBatch == y2.inBatch
    ensures HandleOnClient(y3).c.handshakeDone && HandleOnClient(y3).c.serverSpecs == Offers(env)
  {
    hide S.ExposedNames, S.Offered, Printed, C.ReadSpecs;
    y3 := HandleOnServer(env, y2);
    assert y3.s.sent == y2.s.sent + [HandshakeProtocols(Printed(Offers(env)))];
    SessionSafety.ReadPrinted(Offers(env));
    assert [] + Offers(env) == Offers(env);
  }

  /** Whatever is registered and filtered, a connection where both sides only read completes
      the handshake in four steps. */
  lemma HandshakeCompletes(env: Env)
    ensures Honest(env, Init(), Handshake()) && Run(env, Init(), Handshake()).c.handshakeDone
    ensures Run(env, Init(), Handshake()).c.serverSpecs == Offers(env)
  {
    hide S.ExposedNames, Offers, HandleOnServer, HandleOnClient, Honest, Run;
    var y1, y2 := HandshakeBegins(env);
    var y3 := HandshakeEnds(env, y2);
    RunFour(env, Init(), ServerHandle, ClientHandle, ServerHandle, ClientHandle);
  }

  /** Both sides have read all there is. */
  predicate Idle(y: System) {
    y.sRead == |y.c.sent| && y.cRead == |y.s.sent| && y.c.connected && !y.c.error && y.s.maxId < 0xFFFF_FFFF
  }

  /** On an idle connection a bind is answered: the next object id goes to the new object,
      and the server holds its other half. */
  lemma BindIsAnswered(env: Env, y: System, spec: ProtocolSpec, version: u32) returns (z: System)
    requires Agreed(env) && Inv(env, y) && Idle(y) && Enabled(env, y, ClientBind(spec, version))
    ensures var y1 := Next(env, y, ClientBind(spec, version));
      Enabled(env, y1, ServerHandle) &&
      var y2 := Next(env, y1, ServerHandle);
      Enabled(env, y2, ClientHandle) && z == Next(env, y2, ClientHandle)
    ensures |z.c.objects| == |y.c.objects| + 1
    ensures z.c.objects[|y.c.objects|].id == y.s.maxId && z.c.objects[|y.c.objects|].spec == spec.objects[0]
    ensures S.Find(z.s.objects, y.s.maxId) >= 0
  {
    hide Inv, Agreed, Advertised, FindProtocol, C.Bind, S.CreateObject;
    var y1 := Next(env, y, ClientBind(spec, version));
    SessionSafety.StepKeeps(env, y, ClientBind(spec, version));
    BindState(y.c, spec, version);
    SessionTheorems.NoServerError(env, y1);
    var y2 := Next(env, y1, ServerHandle);
    SessionSafety.StepKeeps(env, y1, ServerHandle);
    var q := y.c.seq_ + 1;
    CreateAnswers(env, y1, spec.name, version, q);
    z := Next(env, y2, ClientHandle);
    SessionSafety.CountsOfClient(env, y);
    LastFound(env, y1, |y.c.objects|);
  }

  lemma BindState(c: C.ClientState, spec: ProtocolSpec, version: u32)
    requires spec.objects != [] && version <= spec.version && c.connected && c.seq_ < 0xFFFF_FFFF
    ensures C.Bind(c, spec, version) == c.(seq_ := c.seq_ + 1,
      objects := c.objects + [C.ClientObject(0, c.seq_ + 1, version, spec.objects[0], spec.name, false, {}, true)],
      sent := c.sent + [C.Outgoing(BindProtocol(c.seq_ + 1, spec.name, version), 0, false)])
  {
  }

  /** The announcement, and the object in the server's table. */
  lemma CreateAnswers(env: Env, y: System, name: Text, version: u32, q: u32)
    requires y.sRead < |y.c.sent| && y.c.sent[y.sRead].msg == BindProtocol(q, name, version)
    requires Agreed(env) && Inv(env, y) && Inv(env, HandleOnServer(env, y)) && y.s.maxId < 0xFFFF_FFFF
    ensures var t := S.CreateObject(env.server, y.s, name, [], version, q);
      t.sent == y.s.sent + [NewObject(y.s.maxId, q)] && S.Find(t.objects, y.s.maxId) >= 0
  {
    hide Inv, Agreed, S.Accepts;
    var t := S.CreateObject(env.server, y.s, name, [], version, q);
    SessionTheorems.NoServerError(env, HandleOnServer(env, y));
    assert HandleOnServer(env, y).s == t;
    ServerSafety.FindAppend(y.s.objects, y.s.maxId, S.NewEntry(env.server, y.s.exposed, y.s.maxId, name, [], version));
  }

  lemma LastFound(env: Env, y: System, i: nat)
    requires Inv(env, y) && i < |y.c.objects|
    ensures C.FindSeq(y.c.objects, y.c.objects[i].seq_) == i
  {
    hide Inv, SeqsRise, C.FindSeq;
    SessionSafety.SeqsOfClient(env, y);
    SessionSteps.FindSeqAt(y.c.objects, |y.h.kinds|, i);
  }

  function Barrier(): seq<Step> { [ClientRoundtrip, ServerHandle, ServerEndBatch, ClientHandle] }

  /** The three steps of a roundtrip up to its answer. */
  lemma RequestAnswered(env: Env, y: System) returns (y1: System, y2: System, y3: System)
    requires Idle(y) && y.c.lastSent < 0xFFFF_FFFF && !y.s.error
    ensures var n := y.c.lastSent + 1;
      && Enabled(env, y, ClientRoundtrip) && y1 == Next(env, y, ClientRoundtrip)
      && Enabled(env, y1, ServerHandle) && y2 == HandleOnServer(env, y1)
      && y3 == y2.(s := S.EndBatch(y2.s))
      && y3.s.sent == y.s.sent + [RoundtripDone(n)] && y3.c == y1.c && y3.cRead == y.cRead
      && !y3.c.error && y3.c.lastSent == n
  {
    var n := y.c.lastSent + 1;
    y1 := Next(env, y, ClientRoundtrip);
    assert y1.c == y.c.(lastSent := n, sent := y.c.sent + [C.Outgoing(RoundtripRequest(n), 0, false)]);
    y2 := HandleOnServer(env, y1);
    assert y2.s == y.s.(scheduled := n) && y2.c == y1.c;
    y3 := y2.(s := S.EndBatch(y2.s));
  }

  /** On an idle connection a roundtrip ends: its request is answered and acknowledged. */
  lemma RoundtripIsAnswered(env: Env, y: System)
    requires Inv(env, y) && Idle(y) && y.c.lastSent < 0xFFFF_FFFF
    ensures Honest(env, y, Barrier())
    ensures var z := Run(env, y, Barrier()); z.c.acked == z.c.lastSent == y.c.lastSent + 1
  {
    hide Inv, Honest, Run, HandleOnServer, S.EndBatch;
    SessionTheorems.NoServerError(env, y);
    var y1, y2, y3 := RequestAnswered(env, y);
    assert Next(env, y2, ServerEndBatch) == y3;
    RunFour(env, y, ClientRoundtrip, ServerHandle, ServerEndBatch, ClientHandle);
  }
}
