/** Taking many messages at once: as steps of a run, and from the bytes of a batch. */
module Deliveries {
  import opened Messages
  import opened Framing
  import opened Dispatch
  import opened Session
  import opened Invariant
  import opened SessionTheorems
  import C = Client
  import S = Server
  import SessionSafety
  import ClientLosses

  /** The same step again and again. */
  function Times(step: Step, n: nat): (steps: seq<Step>)
    ensures |steps| == n
  {
    if n == 0 then [] else [step] + Times(step, n - 1)
  }

  lemma TimesNext(step: Step, n: nat)
    requires n > 0
    ensures Times(step, n)[0] == step && Times(step, n)[1..] == Times(step, n - 1)
  {
  }

  lemma NoSteps(env: Env, y: System, step: Step)
    ensures Honest(env, y, Times(step, 0)) && Run(env, y, Times(step, 0)) == y
  {
  }

  lemma RunStarts(env: Env, y: System, steps: seq<Step>)
    requires steps != [] && Enabled(env, y, steps[0]) && Honest(env, Next(env, y, steps[0]), steps[1..])
    ensures Honest(env, y, steps) && Run(env, y, steps) == Run(env, Next(env, y, steps[0]), steps[1..])
  {
  }

  lemma RunGoesOn(env: Env, y: System, steps: seq<Step>)
    requires steps != [] && Honest(env, y, steps)
    ensures Enabled(env, y, steps[0]) && Honest(env, Next(env, y, steps[0]), steps[1..])
    ensures Run(env, y, steps) == Run(env, Next(env, y, steps[0]), steps[1..])
  {
  }

  lemma NothingRuns(env: Env, y: System)
    ensures Honest(env, y, []) && Run(env, y, []) == y
  {
  }

  lemma {:induction false} RunAppend(env: Env, y: System, a: seq<Step>, b: seq<Step>)
    requires Honest(env, y, a) && Honest(env, Run(env, y, a), b)
    ensures Honest(env, y, a + b) && Run(env, y, a + b) == Run(env, Run(env, y, a), b)
    decreases |a|
  {
    hide Enabled, Next, Honest, Run;
    if a == [] {
      assert a + b == b;
      NothingRuns(env, y);
    } else {
      assert (a + b)[0] == a[0] && (a + b)[1..] == a[1..] + b;
      RunGoesOn(env, y, a);
      RunAppend(env, Next(env, y, a[0]), a[1..], b);
      RunStarts(env, y, a + b);
    }
  }

  // The server's side.

  lemma TakeBatchFirst(env: Env, x: System, n: nat)
    requires 0 < n && x.sRead + n <= |x.c.sent| && HandleOnServer(env, x).c == x.c &&
      HandleOnServer(env, x).sRead == x.sRead + 1
    ensures TakeBatch(env, x, n) == TakeBatch(env, HandleOnServer(env, x), n - 1)
  {
    hide HandleOnServer;
  }

  lemma TakeNoBatch(env: Env, y: System)
    requires y.sRead <= |y.c.sent|
    ensures TakeBatch(env, y, 0) == y
  {
  }

  /** From y to z the server has taken n messages; the client has done nothing. */
  ghost predicate ServerOn(y: System, z: System, n: nat) {
    && z.c == y.c && z.cRead == y.cRead && z.inBatch == y.inBatch && z.sRead == y.sRead + n
    && y.s.sent <= z.s.sent && z.s.maxId <= y.s.maxId + n
  }

  /** The server may take the next n messages of the client, whatever they are. */
  lemma {:induction false} ServerCatchesUp(env: Env, y: System, n: nat)
    requires Agreed(env) && Inv(env, y) && y.sRead + n <= |y.c.sent| && y.s.maxId + n <= 0xFFFF_FFFF
    ensures Honest(env, y, Times(ServerHandle, n)) && Run(env, y, Times(ServerHandle, n)) == TakeBatch(env, y, n)
    ensures Inv(env, TakeBatch(env, y, n)) && ServerOn(y, TakeBatch(env, y, n), n)
    decreases n
  {
    hide Inv, Agreed, HandleOnServer, Next, Enabled, Honest, Run, TakeBatch, Times;
    if n == 0 {
      NoSteps(env, y, ServerHandle);
      TakeNoBatch(env, y);
    } else {
      ServerTakesNext(env, y);
      TimesNext(ServerHandle, n);
      TakeBatchFirst(env, y, n);
      ServerCatchesUp(env, HandleOnServer(env, y), n - 1);
      RunStarts(env, y, Times(ServerHandle, n));
    }
  }

  lemma ServerTakesNext(env: Env, y: System)
    requires Agreed(env) && Inv(env, y) && y.sRead < |y.c.sent| && y.s.maxId < 0xFFFF_FFFF
    ensures Enabled(env, y, ServerHandle) && Inv(env, HandleOnServer(env, y))
    ensures Next(env, y, ServerHandle) == HandleOnServer(env, y) && ServerOn(y, HandleOnServer(env, y), 1)
  {
    hide Inv, Agreed, S.Handle, OwedBy;
    NoServerError(env, y);
    SessionSafety.ServerHandleStep(env, y);
    MaxIdStep(env, y);
    HandleAppends(env.server, y.s, y.c.sent[y.sRead].msg);
  }

  // The client's side.

  /** The client reads the next n messages. */
  function TakeEvents(y: System, n: nat): System
    requires y.cRead + n <= |y.s.sent|
    decreases n
  {
    if n == 0 then y else TakeEvents(HandleOnClient(y), n - 1)
  }

  lemma TakeEventsFirst(y: System, n: nat)
    requires 0 < n && y.cRead + n <= |y.s.sent| && HandleOnClient(y).s == y.s && HandleOnClient(y).cRead == y.cRead + 1
    ensures TakeEvents(y, n) == TakeEvents(HandleOnClient(y), n - 1)
  {
    hide HandleOnClient;
  }

  lemma TakeNoEvents(y: System)
    requires y.cRead <= |y.s.sent|
    ensures TakeEvents(y, 0) == y
  {
  }

  lemma ClientReadsNext(env: Env, y: System)
    requires Inv(env, y) && y.cRead < |y.s.sent|
    ensures var z := HandleOnClient(y);
      && C.Handle(y.c, y.s.sent[y.cRead]) == C.Handled(z.c, true) && Inv(env, z)
      && z.s == y.s && z.sRead == y.sRead && z.cRead == y.cRead + 1 && z.inBatch
      && (y.inBatch || !y.c.error ==> Enabled(env, y, ClientHandle) && Next(env, y, ClientHandle) == z)
  {
    hide Inv, C.Handle, Births, LastDone, Offers;
    SessionSafety.ReadNext(env, y);
    ClientLosses.MessageSpares(env, y.c, y.s.sent[y.cRead]);
    SessionSafety.ClientHandleStep(env, y);
  }

  /** From y to z the client has read n messages; the server has done nothing. */
  ghost predicate ClientOn(y: System, z: System, n: nat) {
    z.s == y.s && z.sRead == y.sRead && z.cRead == y.cRead + n && z.inBatch == (n > 0 || y.inBatch)
  }

  /** The client may read the next n messages of the server, in one batch. */
  lemma {:induction false} ClientCatchesUp(env: Env, y: System, n: nat)
    requires Inv(env, y) && y.cRead + n <= |y.s.sent| && (y.inBatch || !y.c.error)
    ensures Honest(env, y, Times(ClientHandle, n)) && Run(env, y, Times(ClientHandle, n)) == TakeEvents(y, n)
    ensures Inv(env, TakeEvents(y, n)) && ClientOn(y, TakeEvents(y, n), n)
    decreases n
  {
    hide Inv, HandleOnClient, Next, Enabled, Honest, Run, TakeEvents, Times;
    if n == 0 {
      NoSteps(env, y, ClientHandle);
      TakeNoEvents(y);
    } else {
      ClientReadsNext(env, y);
      TimesNext(ClientHandle, n);
      TakeEventsFirst(y, n);
      ClientCatchesUp(env, HandleOnClient(y), n - 1);
      RunStarts(env, y, Times(ClientHandle, n));
    }
  }

  lemma {:induction false} EventsTaken(env: Env, y: System, n: nat, ms: seq<Message>)
    requires Inv(env, y) && y.cRead + n <= |y.s.sent| && ms == y.s.sent[y.cRead..y.cRead + n]
    ensures HandleEvents(y.c, ms) == C.Handled(TakeEvents(y, n).c, true) && AllFromServer(ms)
    decreases n
  {
    hide Inv, C.Handle, FromServer, HandleOnClient, HandleEvents, TakeEvents, AllFromServer;
    if n == 0 {
      NoEvents(y, ms);
    } else {
      ClientReadsNext(env, y);
      EventFromServer(env, y);
      SliceNext(y.s.sent, y.cRead, n);
      EventsTaken(env, HandleOnClient(y), n - 1, ms[1..]);
      EventsNext(y, n, ms);
    }
  }

  lemma NoEvents(y: System, ms: seq<Message>)
    requires y.cRead <= |y.s.sent| && ms == []
    ensures HandleEvents(y.c, ms) == C.Handled(TakeEvents(y, 0).c, true) && AllFromServer(ms)
  {
  }

  lemma SliceNext(sent: seq<Message>, at: nat, n: nat)
    requires 0 < n && at + n <= |sent|
    ensures var ms := sent[at..at + n]; ms[0] == sent[at] && ms[1..] == sent[at + 1..at + 1 + (n - 1)]
  {
  }

  lemma EventsNext(y: System, n: nat, ms: seq<Message>)
    requires 0 < n && y.cRead + n <= |y.s.sent| && ms != []
    requires C.Handle(y.c, ms[0]) == C.Handled(HandleOnClient(y).c, true) && FromServer(ms[0])
    requires HandleOnClient(y).s == y.s && HandleOnClient(y).cRead == y.cRead + 1
    ensures HandleEvents(y.c, ms) == HandleEvents(HandleOnClient(y).c, ms[1..])
    ensures TakeEvents(y, n) == TakeEvents(HandleOnClient(y), n - 1)
    ensures AllFromServer(ms[1..]) ==> AllFromServer(ms)
  {
    hide C.Handle, HandleOnClient, FromServer;
  }

  lemma EventFromServer(env: Env, y: System)
    requires Inv(env, y) && y.cRead < |y.s.sent|
    ensures FromServer(y.s.sent[y.cRead])
  {
    hide Inv, Births, LastDone, Offers;
    SessionSafety.ReadNext(env, y);
  }

  /** From bytes to effect, towards the client: however many of the server's messages under way
      arrive together, dispatching their bytes is reading them one by one, as steps of the run,
      and then ending the batch. */
  lemma EventsDispatched(env: Env, y: System, n: nat)
    requires Reachable(env, y) && 0 < n && y.cRead + n <= |y.s.sent| && (y.inBatch || !y.c.error)
    ensures var ms := y.s.sent[y.cRead..y.cRead + n]; var steps := Times(ClientHandle, n) + [ClientEndBatch];
      && CutBatch(EncodeBatch(ms), 0, BatchFds(ms)) == Cut(ms, []) && Honest(env, y, steps)
      && DispatchClient(env.clientImpls, y.c, Received(EncodeBatch(ms), BatchFds(ms))) == Run(env, y, steps).c
  {
    hide Inv, Reachable, TakeEvents, DispatchClient, HandleEvents, AllFromServer, EncodeBatch, BatchFds, CutBatch,
      Transmissible, Honest, Run, C.EndBatch, Agreed;
    ReachableInv(env, y);
    var ms := y.s.sent[y.cRead..y.cRead + n];
    EventsArrive(env, y, n);
    forall m | m in ms ensures Transmissible(m) {
      var j :| 0 <= j < n && ms[j] == m;
      EventTransmissible(env, y, y.cRead + j);
    }
    EventsTaken(env, y, n, ms);
    ClientDispatchHandles(env.clientImpls, y.c, ms);
    ClientCatchesUp(env, y, n);
    var z := TakeEvents(y, n);
    BatchEnds(env, z);
    RunAppend(env, y, Times(ClientHandle, n), [ClientEndBatch]);
  }

  lemma BatchEnds(env: Env, z: System)
    requires z.inBatch
    ensures Honest(env, z, [ClientEndBatch]) && Run(env, z, [ClientEndBatch]).c == C.EndBatch(env.clientImpls, z.c)
  {
    var w := Next(env, z, ClientEndBatch);
    assert [ClientEndBatch][1..] == [];
    assert Honest(env, w, []) && Run(env, w, []) == w;
  }
}
