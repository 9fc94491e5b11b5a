/** When an honest client gets into error: the mirror of the server's never failing. */
module ClientLosses {
  import opened Bytes
  import opened Arguments
  import opened Specs
  import opened SpecNames
  import opened Messages
  import opened WireObject
  import opened Session
  import opened Invariant
  import opened SessionTheorems
  import C = Client
  import S = Server
  import CT = ClientTables
  import CS = ClientSteps
  import SS = ServerSteps
  import SessionSteps
  import SessionSafety

  /** The step reads an event whose id is not in the client's table. */
  predicate Lost(y: System, step: Step) {
    step.ClientHandle? && y.cRead < |y.s.sent| && y.s.sent[y.cRead].Generic?
    && C.FindId(y.c.objects, y.s.sent[y.cRead].objectId) < 0
  }

  /** Neither the error flag nor the connection has changed. */
  predicate Spared(c: C.ClientState, t: C.ClientState) {
    t.error == c.error && t.connected == c.connected
  }

  // Acts of the application.

  lemma CallSpares(impls: seq<ProtocolSpec>, c: C.ClientState, i: nat, k: u32, args: seq<Value>)
    requires HonestCall(c, i, k, args)
    ensures Spared(c, C.CallObject(impls, c, i, k, args))
  {
    hide C.CallObject, HasPending, FindProtocol, FindObject;
    if C.Callable(c.objects[i], k) {
      CS.CallObjectIs(impls, c, i, k, args);
    } else {
      SessionSteps.NotCallable(impls, c, i, k, args);
    }
  }

  lemma {:induction false} FlushSpares(c: C.ClientState, es: seq<C.Outgoing>)
    ensures Spared(c, C.FlushAll(c, es)) && C.FlushAll(c, es).objects == c.objects
    decreases |es|
  {
    if es == [] {
    } else {
      hide C.FindSeq;
      FlushSpares(C.FlushOne(c, es[0]), es[1..]);
    }
  }

  /** What an orphan calls needs no arguments, so it can be marshalled. */
  lemma FarewellSpares(env: Env, kinds: seq<Kind>, c: C.ClientState, o: C.ClientObject)
    requires Agreed(env) && AllKinds(env, kinds) && 1 <= o.seq_ <= |kinds| && o.spec == kinds[o.seq_ - 1].spec
    ensures Spared(c, C.Farewell(env.clientImpls, c, o))
  {
    hide Agreed, AllKinds, C.AutoDestructor, C.MakeObject;
    if C.AutoDestructor(o.spec.c2s, o.version).Auto? {
      CS.OrphanMethod(env, kinds, o);
    }
  }

  lemma {:induction false} FarewellsSpare(env: Env, kinds: seq<Kind>, born: seq<u32>, known: nat, ps: seq<C.Outgoing>,
      dead: set<u32>, c: C.ClientState, rest: seq<C.ClientObject>)
    requires Agreed(env) && AllKinds(env, kinds) && AllObjects(kinds, born, known, ps, dead, rest)
    ensures Spared(c, C.Farewells(env.clientImpls, c, rest))
    decreases |rest|
  {
    if rest == [] {
    } else {
      hide Agreed, AllKinds, AllObjects, C.Farewell, HasPending, DtorPending;
      CT.AllObjectsTail(kinds, born, known, ps, dead, rest);
      FarewellSpares(env, kinds, c, rest[0]);
      var next := if C.Orphaned(rest[0]) then C.Farewell(env.clientImpls, c, rest[0]) else c;
      FarewellsSpare(env, kinds, born, known, ps, dead, next, rest[1..]);
    }
  }

  lemma CollectSpares(env: Env, kinds: seq<Kind>, born: seq<u32>, known: nat, c: C.ClientState)
    requires Agreed(env) && AllKinds(env, kinds) && ClientInv(env, kinds, born, known, c)
    ensures Spared(c, C.Collect(env.clientImpls, c))
  {
    hide Agreed, AllKinds, AllObjects, AllEntries, AllKept, ClientLogOk, SeqsRise, Dead, C.Farewells;
    FarewellsSpare(env, kinds, born, known, c.pending, Dead(c.sent), c.(objects := C.Survivors(c.objects)), c.objects);
  }

  lemma EndBatchSpares(env: Env, kinds: seq<Kind>, born: seq<u32>, known: nat, c: C.ClientState)
    requires Agreed(env) && AllKinds(env, kinds) && ClientInv(env, kinds, born, known, c)
    ensures Spared(c, C.EndBatch(env.clientImpls, c))
  {
    hide Agreed, AllKinds, ClientInv, C.Collect, C.FlushAll;
    CS.FlushKeeps(env, kinds, born, known, c);
    FlushSpares(c.(pending := []), c.pending);
    CollectSpares(env, kinds, born, known, C.Flush(c));
  }

  // Reading.

  lemma EventSpares(c: C.ClientState, target: u32, k: u32, args: seq<Value>)
    ensures var t := C.OnGeneric(c, target, k, args);
      if C.FindId(c.objects, target) < 0 then t == C.Disconnect(c) else Spared(c, t)
  {
    hide CalledOutcome, C.FindId, C.WithoutId;
  }

  lemma MessageSpares(env: Env, c: C.ClientState, m: Message)
    requires m.HandshakeBegin? ==> m.versions == [S.PROTOCOL_VERSION]
    requires m.HandshakeProtocols? ==> m.protocols == Printed(Offers(env))
    requires m.HandshakeBegin? || m.HandshakeProtocols? || m.NewObject? || m.Generic? || m.RoundtripDone?
    ensures C.Handle(c, m).ok
    ensures if m.Generic? && C.FindId(c.objects, m.objectId) < 0 then C.Handle(c, m).c == C.Disconnect(c)
      else Spared(c, C.Handle(c, m).c)
  {
    hide C.OnGeneric, C.FindId, C.FindSeq, C.ReadSpecs, Printed, Offers;
    match m
    case HandshakeProtocols(ps) => SessionSafety.ReadPrinted(Offers(env));
    case Generic(target, k, args) => EventSpares(c, target, k, args);
    case _ =>
  }

  lemma HandleSpares(env: Env, y: System)
    requires Inv(env, y) && y.cRead < |y.s.sent|
    ensures if Lost(y, ClientHandle) then HandleOnClient(y).c == C.Disconnect(y.c)
      else Spared(y.c, HandleOnClient(y).c)
  {
    hide Inv, C.Handle, Offers, Printed, C.FindId, Births, LastDone;
    SessionSafety.ReadNext(env, y);
    MessageSpares(env, y.c, y.s.sent[y.cRead]);
  }

  // Steps and runs.

  /** A step costs an honest client its connection, and sets its error, exactly if it reads an
      event whose id is not in the client's table; any other step leaves both as they are. */
  lemma StepCosts(env: Env, y: System, step: Step)
    requires Agreed(env) && Inv(env, y) && Enabled(env, y, step)
    ensures if Lost(y, step) then Next(env, y, step).c == C.Disconnect(y.c) else Spared(y.c, Next(env, y, step).c)
  {
    hide Inv, Agreed, C.Collect, C.EndBatch, C.CallObject, HandleOnClient, S.Handle, S.CreateObject, S.CallOut,
      HonestCall, HonestServerCall, CallKinds, OwedBy, FindProtocol, Advertised, C.FindId;
    SessionSafety.KindsOfServer(env, y);
    match step
    case ClientCall(i, k, args) => CallSpares(env.clientImpls, y.c, i, k, args);
    case ClientCollect => HalfOfClient(env, y); CollectSpares(env, y.h.kinds, y.h.born, Known(y), y.c);
    case ClientEndBatch => HalfOfClient(env, y); EndBatchSpares(env, y.h.kinds, y.h.born, Known(y), y.c);
    case ClientHandle => HandleSpares(env, y);
    case _ =>
  }

  lemma HalfOfClient(env: Env, y: System)
    requires Inv(env, y)
    ensures y.cRead <= |y.s.sent| && ClientInv(env, y.h.kinds, y.h.born, Known(y), y.c)
  {
    hide ClientInv, ServerInv, ClientHandshake, ServerHandshake, Roundtrips, StageOk, AllWaiting, Births, Dead;
  }

  /** Somewhere in the run an event is read whose id is not in the client's table. */
  predicate SomeLost(env: Env, y: System, steps: seq<Step>)
    requires Honest(env, y, steps)
    decreases |steps|
  {
    steps != [] && (Lost(y, steps[0]) || SomeLost(env, Next(env, y, steps[0]), steps[1..]))
  }

  lemma {:induction false} RunCosts(env: Env, y: System, steps: seq<Step>)
    requires Agreed(env) && Inv(env, y) && Honest(env, y, steps)
    ensures Run(env, y, steps).c.error <==> y.c.error || SomeLost(env, y, steps)
    ensures Run(env, y, steps).c.connected <==> y.c.connected && !SomeLost(env, y, steps)
    decreases |steps|
  {
    if steps == [] {
    } else {
      hide Inv, Agreed, Next, Enabled, Lost;
      SessionSafety.StepKeeps(env, y, steps[0]);
      StepCosts(env, y, steps[0]);
      RunCosts(env, Next(env, y, steps[0]), steps[1..]);
    }
  }

  /** An honest client ends up in error, or without its connection, exactly if somewhere in the
      run it read an event whose id was not in its table then. */
  lemma ClientLossCondition(env: Env, steps: seq<Step>)
    requires Agreed(env) && Honest(env, Init(), steps)
    ensures Run(env, Init(), steps).c.error <==> SomeLost(env, Init(), steps)
    ensures Run(env, Init(), steps).c.connected <==> !SomeLost(env, Init(), steps)
  {
    hide Inv, Agreed, Honest, Run, SomeLost;
    SessionSafety.InitInv(env);
    RunCosts(env, Init(), steps);
  }

  // Why an id is not in the table.

  lemma {:induction false} IdFound(objects: seq<C.ClientObject>, i: nat)
    requires i < |objects|
    ensures C.FindId(objects, objects[i].id) >= 0
  {
    if i == 0 {
    } else {
      IdFound(objects[1..], i - 1);
    }
  }

  lemma IdIsNumbers(env: Env, y: System, i: nat)
    requires Inv(env, y) && i < |y.c.objects| && y.c.objects[i].id != 0
    ensures var o := y.c.objects[i]; o.id <= |y.h.born| && y.h.born[o.id - 1] == o.seq_
  {
    hide ServerInv, ClientHandshake, ServerHandshake, Roundtrips, StageOk, AllWaiting, Births, Dead, AllObjects,
      AllKept, AllEntries, ClientLogOk, SeqsRise, HasPending, DtorPending;
    CT.ObjectAt(y.h.kinds, y.h.born, Known(y), y.c.pending, Dead(y.c.sent), y.c.objects, i);
  }

  /** The id of the next event was announced for a number q. It is missing from the table exactly
      if no object has the number (the client let it go, or never made it because it does not
      know the type), or the object that has it got another id in a later announcement. */
  lemma WhyLost(env: Env, y: System) returns (p: nat, q: u32)
    requires Reachable(env, y) && y.cRead < |y.s.sent| && y.s.sent[y.cRead].Generic?
    ensures p < y.cRead && y.s.sent[p] == NewObject(y.s.sent[y.cRead].objectId, q)
    ensures Lost(y, ClientHandle) <==>
      var i := C.FindSeq(y.c.objects, q); i < 0 || y.c.objects[i].id != y.s.sent[y.cRead].objectId
  {
    hide Inv, Reachable, C.FindId, C.FindSeq, EventOk, SeqsRise, ServerLogOk, Births;
    ReachableInv(env, y);
    var id := y.s.sent[y.cRead].objectId;
    p, q := NumberOf(env, y);
    var i := C.FindId(y.c.objects, id);
    if i >= 0 {
      IdIsNumbers(env, y, i);
      SessionSafety.SeqsOfClient(env, y);
      SessionSteps.FindSeqAt(y.c.objects, |y.h.kinds|, i);
    } else if C.FindSeq(y.c.objects, q) >= 0 {
      IdFound(y.c.objects, C.FindSeq(y.c.objects, q));
    }
  }

  lemma NumberOf(env: Env, y: System) returns (p: nat, q: u32)
    requires Inv(env, y) && y.cRead < |y.s.sent| && y.s.sent[y.cRead].Generic?
    ensures var id := y.s.sent[y.cRead].objectId;
      && 1 <= id <= |y.h.born| && q == y.h.born[id - 1] && p < y.cRead && y.s.sent[p] == NewObject(id, q)
  {
    hide ClientInv, ClientHandshake, ServerHandshake, Roundtrips, StageOk, AllWaiting, Births, Dead, AllTwins, Present,
      AllKinds, AllOwed, AllBorn, ServerLogOk, AllEvents;
    SS.EventAt(y.h.kinds, y.h.born, y.s.sent, y.cRead);
    ServerLogPrefix(y.s.sent, y.h.born, y.cRead);
    p := AnnouncedAt(y.s.sent[..y.cRead], y.h.born, y.s.sent[y.cRead].objectId);
    q := y.h.born[y.s.sent[y.cRead].objectId - 1];
  }
}
