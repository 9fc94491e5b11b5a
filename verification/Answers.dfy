/** From every reachable state in which the client has no error, a request of it can be answered:
    some honest run goes on from there to the answer. */
module Answers {
  import opened Bytes
  import opened Arguments
  import opened Specs
  import opened SpecNames
  import opened Messages
  import opened WireObject
  import opened Session
  import opened Invariant
  import opened SessionTheorems
  import opened Deliveries
  import C = Client
  import S = Server
  import CT = ClientTables
  import SS = ServerSteps
  import SessionSteps
  import SessionSafety
  import Progress

  lemma {:induction false} TakeBatchLast(env: Env, y: System, n: nat)
    requires y.sRead + n < |y.c.sent|
    ensures TakeBatch(env, y, n).c == y.c && TakeBatch(env, y, n).sRead == y.sRead + n
    ensures TakeBatch(env, y, n + 1) == HandleOnServer(env, TakeBatch(env, y, n))
    decreases n
  {
    hide S.Handle, OwedBy, StageAfterServer;
    if n == 0 {
      assert TakeBatch(env, HandleOnServer(env, y), 0) == HandleOnServer(env, y);
    } else {
      TakeBatchLast(env, HandleOnServer(env, y), n - 1);
    }
  }

  lemma {:induction false} TakeEventsLast(env: Env, y: System, n: nat)
    requires Inv(env, y) && y.cRead + n < |y.s.sent|
    ensures TakeEvents(y, n).s == y.s && TakeEvents(y, n).cRead == y.cRead + n && Inv(env, TakeEvents(y, n))
    ensures TakeEvents(y, n + 1) == HandleOnClient(TakeEvents(y, n))
    decreases n
  {
    hide Inv, HandleOnClient;
    ClientReadsNext(env, y);
    if n == 0 {
      assert TakeEvents(HandleOnClient(y), 0) == HandleOnClient(y);
    } else {
      TakeEventsLast(env, HandleOnClient(y), n - 1);
    }
  }

  // Roundtrips.

  /** The server takes all there is, up to a request just made, and answers it. */
  lemma RequestTaken(env: Env, y: System, n: u32) returns (z: System, steps: seq<Step>)
    requires Agreed(env) && Inv(env, y) && y.sRead < |y.c.sent| && y.c.sent[|y.c.sent| - 1].msg == RoundtripRequest(n)
    requires n > 0 && y.s.maxId + (|y.c.sent| - y.sRead) <= 0xFFFF_FFFF
    ensures Honest(env, y, steps) && Run(env, y, steps) == z && Inv(env, z)
    ensures z.c == y.c && z.inBatch == y.inBatch && z.cRead < |z.s.sent| && z.s.sent[|z.s.sent| - 1] == RoundtripDone(n)
  {
    hide Inv, Agreed, Honest, Run, TakeBatch, OwedBy;
    var k := |y.c.sent| - y.sRead;
    ServerCatchesUp(env, y, k);
    TakeBatchLast(env, y, k - 1);
    var x := TakeBatch(env, y, k);
    assert x.s.scheduled == n;
    ServerEnds(env, x);
    z := x.(s := S.EndBatch(x.s));
    SessionSafety.ServerEndBatchStep(env, x);
    LogsRead(env, x);
    RunAppend(env, y, Times(ServerHandle, k), [ServerEndBatch]);
    steps := Times(ServerHandle, k) + [ServerEndBatch];
  }

  lemma LogsRead(env: Env, y: System)
    requires Inv(env, y)
    ensures y.sRead <= |y.c.sent| && y.cRead <= |y.s.sent| && y.s.maxId == |y.h.born| + 1
  {
    hide ClientInv, ClientHandshake, ServerHandshake, Roundtrips, StageOk, AllWaiting, Births, Dead, AllTwins, Present,
      AllKinds, AllOwed, AllBorn, ServerLogOk, AllEvents;
  }

  lemma ServerEnds(env: Env, x: System)
    ensures Honest(env, x, [ServerEndBatch]) && Run(env, x, [ServerEndBatch]) == x.(s := S.EndBatch(x.s))
  {
    var w := x.(s := S.EndBatch(x.s));
    assert [ServerEndBatch][1..] == [];
    assert Honest(env, w, []) && Run(env, w, []) == w;
  }

  lemma StepFirst(env: Env, y: System, step: Step, steps: seq<Step>)
    requires Enabled(env, y, step) && Honest(env, Next(env, y, step), steps)
    ensures Honest(env, y, [step] + steps) && Run(env, y, [step] + steps) == Run(env, Next(env, y, step), steps)
  {
    hide Enabled, Next;
    assert ([step] + steps)[1..] == steps;
  }

  /** From every reachable state, however much is under way either way: some honest run that makes
      a roundtrip request ends with its acknowledgement. */
  lemma RoundtripGetsAnswered(env: Env, y: System) returns (steps: seq<Step>)
    requires Reachable(env, y) && !y.c.error && y.c.lastSent < 0xFFFF_FFFF
    requires y.sRead <= |y.c.sent| && y.s.maxId + (|y.c.sent| - y.sRead) < 0xFFFF_FFFF
    ensures Honest(env, y, [ClientRoundtrip] + steps)
    ensures Run(env, y, [ClientRoundtrip] + steps).c.acked == y.c.lastSent + 1
  {
    hide Inv, Agreed, Reachable, Honest, Run, TakeEvents, Next, Enabled;
    ReachableInv(env, y);
    var n := y.c.lastSent + 1;
    var y1 := RequestMade(env, y);
    var y2, taken := RequestTaken(env, y1, n);
    var k := |y2.s.sent| - y2.cRead;
    ClientCatchesUp(env, y2, k);
    TakeEventsLast(env, y2, k - 1);
    AnswerRead(TakeEvents(y2, k - 1), n);
    RunAppend(env, y1, taken, Times(ClientHandle, k));
    steps := taken + Times(ClientHandle, k);
    StepFirst(env, y, ClientRoundtrip, steps);
  }

  lemma RequestMade(env: Env, y: System) returns (z: System)
    requires Agreed(env) && Inv(env, y) && !y.c.error && y.c.lastSent < 0xFFFF_FFFF
    ensures Enabled(env, y, ClientRoundtrip) && z == Next(env, y, ClientRoundtrip) && Inv(env, z) && !z.c.error
    ensures z.s == y.s && z.sRead == y.sRead && z.cRead == y.cRead && |z.c.sent| == |y.c.sent| + 1
    ensures z.c.sent[|y.c.sent|].msg == RoundtripRequest(y.c.lastSent + 1)
  {
    hide Inv, Agreed;
    SessionSafety.ConnectedUnlessError(env, y);
    z := Next(env, y, ClientRoundtrip);
    SessionSafety.StepKeeps(env, y, ClientRoundtrip);
  }

  lemma AnswerRead(y: System, n: u32)
    requires y.cRead < |y.s.sent| && y.s.sent[y.cRead] == RoundtripDone(n)
    ensures HandleOnClient(y).c.acked == n
  {
  }

  // Binds.

  /** The first object with the number has no id. */
  predicate FirstIsNew(objects: seq<C.ClientObject>, q: u32) {
    C.FindSeq(objects, q) >= 0 && objects[C.FindSeq(objects, q)].id == 0
  }

  /** The object with the number is in the table and has no id. */
  predicate Awaits(c: C.ClientState, q: u32) {
    FirstIsNew(c.objects, q)
  }

  lemma NewCons(o: C.ClientObject, rest: seq<C.ClientObject>, q: u32)
    ensures FirstIsNew([o] + rest, q) <==> (if o.seq_ == q then o.id == 0 else FirstIsNew(rest, q))
  {
    assert ([o] + rest)[0] == o && ([o] + rest)[1..] == rest;
    assert C.FindSeq(rest, q) >= 0 ==> ([o] + rest)[C.FindSeq(rest, q) + 1] == rest[C.FindSeq(rest, q)];
  }

  lemma {:induction false} NewWithout(objects: seq<C.ClientObject>, id: u32, q: u32)
    requires FirstIsNew(objects, q) && id != 0
    ensures FirstIsNew(C.WithoutId(objects, id), q)
  {
    var o, rest := objects[0], C.WithoutId(objects[1..], id);
    assert objects == [o] + objects[1..];
    assert [] + rest == rest;
    hide FirstIsNew;
    NewCons(o, objects[1..], q);
    NewCons(o, rest, q);
    if o.seq_ == q {
    } else {
      NewWithout(objects[1..], id, q);
    }
  }

  lemma EventAwaits(c: C.ClientState, target: u32, k: u32, args: seq<Value>, q: u32)
    requires Awaits(c, q) && target != 0
    ensures Awaits(C.OnGeneric(c, target, k, args), q)
  {
    hide CalledOutcome, C.FindSeq, C.WithoutId;
    var i := C.FindId(c.objects, target);
    if i >= 0 {
      NewWithout(c.objects, target, q);
    }
  }

  /** Reading anything but the answer leaves the object waiting. */
  lemma HandleAwaits(c: C.ClientState, m: Message, q: u32)
    requires Awaits(c, q) && (m.NewObject? ==> m.forSeq != q) && (m.Generic? ==> m.objectId != 0)
    ensures Awaits(C.Handle(c, m).c, q)
  {
    hide C.OnGeneric, C.FindSeq, C.ReadSpecs;
    match m
    case NewObject(id, s) =>
      var i := C.FindSeq(c.objects, s);
      if i >= 0 {
        SessionSteps.FindSeqUpdate(c.objects, i, c.objects[i].(id := id), q);
      }
    case Generic(target, k, args) => EventAwaits(c, target, k, args, q);
    case _ =>
  }

  /** Nothing in the server's log answers the number, and no event is for no object. */
  predicate Unanswered(sent: seq<Message>, q: u32) {
    sent == [] ||
    ((sent[|sent| - 1].NewObject? ==> sent[|sent| - 1].forSeq != q) &&
     (sent[|sent| - 1].Generic? ==> sent[|sent| - 1].objectId != 0) && Unanswered(sent[..|sent| - 1], q))
  }

  lemma {:induction false} UnansweredAt(sent: seq<Message>, q: u32, p: nat)
    requires Unanswered(sent, q) && p < |sent|
    ensures sent[p].NewObject? ==> sent[p].forSeq != q
    ensures sent[p].Generic? ==> sent[p].objectId != 0
  {
    if p == |sent| - 1 {
    } else {
      UnansweredAt(sent[..|sent| - 1], q, p);
    }
  }

  /** Only numbers up to n have been answered. */
  lemma {:induction false} BornUnanswered(kinds: seq<Kind>, born: seq<u32>, sent: seq<Message>, n: nat, q: u32)
    requires ServerLogOk(sent, born) && AllEvents(kinds, born, sent) && AllBorn(born, n) && n < q
    ensures Unanswered(sent, q)
  {
    if sent == [] {
    } else {
      var m, births := sent[|sent| - 1], Births(sent[..|sent| - 1]);
      if m.NewObject? {
        BornAt(born, n, births);
      }
      BornUnanswered(kinds, born, sent[..|sent| - 1], n, q);
    }
  }

  lemma {:induction false} BornAt(born: seq<u32>, n: nat, i: nat)
    requires AllBorn(born, n) && i < |born|
    ensures 1 <= born[i] <= n
  {
    if i == |born| - 1 {
    } else {
      BornAt(born[..|born| - 1], n, i);
    }
  }

  lemma BornOne(env: Env, y: System, x: System)
    requires Inv(env, y) && y.c.sent <= x.c.sent && x.sRead < |y.c.sent| && AllBorn(x.h.born, |y.h.kinds|)
    ensures var z := HandleOnServer(env, x); z.c == x.c && z.sRead == x.sRead + 1 && AllBorn(z.h.born, |y.h.kinds|)
  {
    hide Inv, AllBorn, S.Handle, OwedBy, StageAfterServer;
    OlderNumber(env, y, x.sRead);
    var m := x.c.sent[x.sRead].msg;
    if m.BindProtocol? {
      SS.AllBornAppend(x.h.born, |y.h.kinds|, m.seq_);
    } else {
      assert x.h.born + [] == x.h.born;
    }
  }

  /** What the server creates for the messages in front of a new bind is for older numbers. */
  lemma {:induction false} BornStays(env: Env, y: System, x: System, n: nat)
    requires Inv(env, y) && y.c.sent <= x.c.sent && x.sRead + n <= |y.c.sent| && x.cRead <= |x.s.sent|
    requires AllBorn(x.h.born, |y.h.kinds|)
    ensures AllBorn(TakeBatch(env, x, n).h.born, |y.h.kinds|)
    decreases n
  {
    hide Inv, AllBorn, HandleOnServer, TakeBatch;
    if n == 0 {
      TakeNoBatch(env, x);
    } else {
      BornOne(env, y, x);
      TakeBatchFirst(env, x, n);
      BornLogs(env, x);
      BornStays(env, y, HandleOnServer(env, x), n - 1);
    }
  }

  lemma BornLogs(env: Env, x: System)
    requires x.sRead < |x.c.sent| && x.cRead <= |x.s.sent|
    ensures HandleOnServer(env, x).cRead <= |HandleOnServer(env, x).s.sent|
  {
    hide S.Handle, OwedBy, StageAfterServer;
    HandleAppends(env.server, x.s, x.c.sent[x.sRead].msg);
  }

  lemma OlderNumber(env: Env, y: System, j: nat)
    requires Inv(env, y) && j < |y.c.sent|
    ensures y.c.sent[j].msg.BindProtocol? ==> 1 <= y.c.sent[j].msg.seq_ <= |y.h.kinds|
  {
    hide ServerInv, ClientHandshake, ServerHandshake, Roundtrips, StageOk, AllWaiting, Births, Dead, AllObjects,
      AllKept, AllEntries, ClientLogOk, SeqsRise, CallOk;
    CT.EntryAt(env, y.h.kinds, y.h.born, Known(y), y.c.sent, j);
  }

  lemma BornOf(env: Env, y: System)
    requires Inv(env, y)
    ensures AllBorn(y.h.born, |y.h.kinds|) && ServerLogOk(y.s.sent, y.h.born) &&
      AllEvents(y.h.kinds, y.h.born, y.s.sent)
    ensures |y.h.kinds| == y.c.seq_
  {
    hide ClientHandshake, ServerHandshake, Roundtrips, StageOk, AllWaiting, Births, Dead, AllTwins, Present, AllKinds,
      AllOwed, AllBorn, ServerLogOk, AllEvents, AllObjects, AllKept, AllEntries, ClientLogOk, SeqsRise;
  }

  lemma BindMade(env: Env, y: System, spec: ProtocolSpec, version: u32) returns (z: System)
    requires Agreed(env) && Inv(env, y) && !y.c.error && Enabled(env, y, ClientBind(spec, version))
    ensures z == Next(env, y, ClientBind(spec, version)) && Inv(env, z) && !z.c.error
    ensures z.s == y.s && z.sRead == y.sRead && z.cRead == y.cRead && z.h.born == y.h.born
    ensures z.c.seq_ == y.c.seq_ + 1 && Awaits(z.c, z.c.seq_)
    ensures y.c.sent <= z.c.sent && |z.c.sent| == |y.c.sent| + 1
    ensures z.c.sent[|y.c.sent|].msg == BindProtocol(z.c.seq_, spec.name, version)
  {
    hide Inv, Agreed, Advertised, FindProtocol, C.Bind, C.FindSeq;
    SessionSafety.ConnectedUnlessError(env, y);
    z := Next(env, y, ClientBind(spec, version));
    SessionSafety.StepKeeps(env, y, ClientBind(spec, version));
    Progress.BindState(y.c, spec, version);
    Progress.LastFound(env, z, |y.c.objects|);
  }

  /** The server takes all there is, up to the bind, and answers it last. */
  lemma BindTaken(env: Env, y: System, y1: System, name: Text, version: u32) returns (z: System, id: u32)
    requires Agreed(env) && Inv(env, y) && Inv(env, y1) && y1.h.born == y.h.born && y1.c.seq_ == y.c.seq_ + 1
    requires y1.sRead == y.sRead <= |y.c.sent| && y.c.sent <= y1.c.sent && |y1.c.sent| == |y.c.sent| + 1
    requires y1.c.sent[|y.c.sent|].msg == BindProtocol(y1.c.seq_, name, version)
    requires y1.s.maxId + (|y1.c.sent| - y1.sRead) <= 0xFFFF_FFFF
    ensures z == TakeBatch(env, y1, |y1.c.sent| - y1.sRead) && z.c == y1.c && Inv(env, z)
    ensures z.cRead < |z.s.sent| && id != 0 && z.s.sent[|z.s.sent| - 1] == NewObject(id, y1.c.seq_)
    ensures Unanswered(z.s.sent[..|z.s.sent| - 1], y1.c.seq_) && S.Find(z.s.objects, id) >= 0
    ensures z.inBatch == y1.inBatch && z.cRead == y1.cRead
  {
    hide Inv, Agreed, AllBorn, ServerLogOk, AllEvents, TakeBatch, HandleOnServer, S.CreateObject, Honest, Run;
    var k := |y1.c.sent| - y1.sRead;
    ServerCatchesUp(env, y1, k);
    ServerCatchesUp(env, y1, k - 1);
    TakeBatchLast(env, y1, k - 1);
    var x := TakeBatch(env, y1, k - 1);
    z := TakeBatch(env, y1, k);
    BornOf(env, y);
    LogsRead(env, y1);
    BornStays(env, y, y1, k - 1);
    BornOf(env, x);
    BornUnanswered(x.h.kinds, x.h.born, x.s.sent, y.c.seq_, y1.c.seq_);
    Progress.CreateAnswers(env, x, name, version, y1.c.seq_);
    id := x.s.maxId;
    BindHandled(env, x, name, version);
    LogsRead(env, x);
    assert (x.s.sent + [NewObject(id, y1.c.seq_)])[..|x.s.sent|] == x.s.sent;
  }

  lemma BindHandled(env: Env, x: System, name: Text, version: u32)
    requires x.sRead < |x.c.sent| && x.c.sent[x.sRead].msg.BindProtocol?
    ensures var m := x.c.sent[x.sRead].msg;
      HandleOnServer(env, x).s == S.CreateObject(env.server, x.s, m.protocol, [], m.bindVersion, m.seq_)
  {
    hide S.CreateObject;
  }

  lemma ReadsOne(env: Env, y: System, q: u32)
    requires Inv(env, y) && y.cRead + 1 < |y.s.sent| && Awaits(y.c, q) && Unanswered(y.s.sent[..|y.s.sent| - 1], q)
    ensures var z := HandleOnClient(y); Inv(env, z) && z.s == y.s && z.cRead == y.cRead + 1 && Awaits(z.c, q)
  {
    hide Inv, HandleOnClient, Awaits, Unanswered, C.Handle;
    ClientReadsNext(env, y);
    UnansweredAt(y.s.sent[..|y.s.sent| - 1], q, y.cRead);
    HandleAwaits(y.c, y.s.sent[y.cRead], q);
  }

  /** The client reads all that stands in front of the answer, still waiting. */
  lemma {:induction false} ReadsWaiting(env: Env, y: System, n: nat, q: u32)
    requires Inv(env, y) && y.sRead <= |y.c.sent|
    requires y.cRead + n < |y.s.sent| && Awaits(y.c, q) && Unanswered(y.s.sent[..|y.s.sent| - 1], q)
    ensures Awaits(TakeEvents(y, n).c, q)
    decreases n
  {
    hide Inv, HandleOnClient, Awaits, Unanswered, TakeEvents;
    if n == 0 {
      TakeNoEvents(y);
    } else {
      ReadsOne(env, y, q);
      LogsRead(env, HandleOnClient(y));
      TakeEventsFirst(y, n);
      ReadsWaiting(env, HandleOnClient(y), n - 1, q);
    }
  }

  lemma IdRead(y: System, q: u32, id: u32)
    requires y.cRead < |y.s.sent| && y.s.sent[y.cRead] == NewObject(id, q) && Awaits(y.c, q)
    ensures var c := HandleOnClient(y).c; C.FindSeq(c.objects, q) >= 0 && c.objects[C.FindSeq(c.objects, q)].id == id
  {
    hide C.FindSeq;
    var i := C.FindSeq(y.c.objects, q);
    SessionSteps.FindSeqUpdate(y.c.objects, i, y.c.objects[i].(id := id), q);
  }

  /** From every reachable state, however much is under way either way: some honest run that makes
      a bind ends with the new object having its id, and the server having its other half. */
  lemma BindGetsAnswered(env: Env, y: System, spec: ProtocolSpec, version: u32) returns (steps: seq<Step>, id: u32)
    requires Reachable(env, y) && !y.c.error && Enabled(env, y, ClientBind(spec, version))
    requires y.sRead <= |y.c.sent| && y.s.maxId + (|y.c.sent| - y.sRead) < 0xFFFF_FFFF
    ensures Honest(env, y, [ClientBind(spec, version)] + steps) && id != 0
    ensures var z := Run(env, y, [ClientBind(spec, version)] + steps); var i := C.FindSeq(z.c.objects, y.c.seq_ + 1);
      i >= 0 && z.c.objects[i].id == id && S.Find(z.s.objects, id) >= 0
  {
    hide Inv, Agreed, Reachable, Honest, Run, TakeEvents, TakeBatch, Next, Enabled, Awaits, C.FindSeq, Unanswered,
      HandleOnClient;
    ReachableInv(env, y);
    var y1 := BindMade(env, y, spec, version);
    var y2;
    y2, id := BindTaken(env, y, y1, spec.name, version);
    var j, k := |y1.c.sent| - y1.sRead, |y2.s.sent| - y2.cRead;
    ServerCatchesUp(env, y1, j);
    ClientCatchesUp(env, y2, k);
    LogsRead(env, y2);
    ReadsWaiting(env, y2, k - 1, y1.c.seq_);
    TakeEventsLast(env, y2, k - 1);
    IdRead(TakeEvents(y2, k - 1), y1.c.seq_, id);
    RunAppend(env, y1, Times(ServerHandle, j), Times(ClientHandle, k));
    steps := Times(ServerHandle, j) + Times(ClientHandle, k);
    StepFirst(env, y, ClientBind(spec, version), steps);
  }
}
