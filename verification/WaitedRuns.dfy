/** A wait of the client inside a session: between two of its dispatches the server may do
    anything, and a dispatch reads any number of the messages that are under way then. */
module WaitedRuns {
  import opened Bytes
  import opened Specs
  import opened Messages
  import opened Framing
  import opened Dispatch
  import opened Session
  import opened Invariant
  import opened SessionTheorems
  import opened Deliveries
  import opened Waits
  import C = Client
  import S = Server
  import ClientLosses
  import Answers
  import Identities
  import Logs

  /** What the server does, and how many messages the client reads in its next dispatch. */
  datatype Round = Round(acts: seq<Step>, count: nat)

  predicate OfServer(step: Step) {
    step.ServerHandle? || step.ServerEndBatch? || step.ServerCreate? || step.ServerCall? || step.ServerListen?
  }

  predicate AllOfServer(steps: seq<Step>) {
    steps == [] || (OfServer(steps[0]) && AllOfServer(steps[1..]))
  }

  /** One dispatch of the client, as steps of a run. */
  function DispatchSteps(k: nat): seq<Step> {
    [ClientCollect] + if k == 0 then [ClientCollect] else Times(ClientHandle, k) + [ClientEndBatch]
  }

  /** What poll reports, and recvmsg yields, when the next k messages have come. */
  function ReportOf(y: System, k: nat): Report
    requires y.cRead + k <= |y.s.sent|
  {
    var ms := y.s.sent[y.cRead..y.cRead + k];
    if k == 0 then Quiet(false) else Readable(Received(EncodeBatch(ms), BatchFds(ms)))
  }

  /** The reports the client gets in these rounds, up to its first error. */
  ghost predicate Delivered(env: Env, y: System, rounds: seq<Round>, reports: seq<Report>)
    decreases |rounds|
  {
    |reports| == |rounds| &&
    (rounds == [] || y.c.error ||
     (AllOfServer(rounds[0].acts) && Honest(env, y, rounds[0].acts) &&
      var x, k := Run(env, y, rounds[0].acts), rounds[0].count;
      x.cRead + k <= |x.s.sent| && reports[0] == ReportOf(x, k) && Honest(env, x, DispatchSteps(k)) &&
      Delivered(env, Run(env, x, DispatchSteps(k)), rounds[1..], reports[1..])))
  }

  function Total(rounds: seq<Round>): nat {
    if rounds == [] then 0 else rounds[0].count + Total(rounds[1..])
  }

  // One dispatch.

  /** A dispatch of the client is a piece of an honest run. */
  lemma DispatchIsRun(env: Env, y: System, k: nat) returns (z: System)
    requires Reachable(env, y) && !y.inBatch && !y.c.error && y.cRead + k <= |y.s.sent|
    ensures Honest(env, y, DispatchSteps(k)) && z == Run(env, y, DispatchSteps(k)) && !z.inBatch
    ensures z.s == y.s && z.cRead == y.cRead + k && z.sRead == y.sRead
    ensures DispatchEvents(env.clientImpls, y.c, ReportOf(y, k)) == Dispatched(z.c, !z.c.error)
  {
    hide Inv, Reachable, Honest, Run, Agreed, C.Collect, C.EndBatch, DispatchClient, EncodeBatch, BatchFds, CutBatch;
    var x := CollectRun(env, y);
    if k == 0 {
      z := CollectRun(env, x);
      RunAppend(env, y, [ClientCollect], [ClientCollect]);
    } else {
      z := ReadRun(env, x, k);
      RunAppend(env, y, [ClientCollect], Times(ClientHandle, k) + [ClientEndBatch]);
    }
  }

  lemma CollectRun(env: Env, y: System) returns (z: System)
    requires Reachable(env, y) && !y.inBatch
    ensures Honest(env, y, [ClientCollect]) && z == Run(env, y, [ClientCollect]) && Reachable(env, z)
    ensures z == y.(c := C.Collect(env.clientImpls, y.c)) && z.c.error == y.c.error
  {
    hide Inv, Reachable, Agreed, C.Collect;
    ReachableInv(env, y);
    ClientLosses.StepCosts(env, y, ClientCollect);
    ReachableStep(env, y, ClientCollect);
    z := Next(env, y, ClientCollect);
    assert [ClientCollect][1..] == [];
    assert Honest(env, z, []) && Run(env, z, []) == z;
  }

  lemma ReadRun(env: Env, y: System, k: nat) returns (z: System)
    requires Reachable(env, y) && !y.inBatch && !y.c.error && 0 < k && y.cRead + k <= |y.s.sent|
    ensures var steps := Times(ClientHandle, k) + [ClientEndBatch]; Honest(env, y, steps) && z == Run(env, y, steps)
    ensures var ms := y.s.sent[y.cRead..y.cRead + k];
      EncodeBatch(ms) != [] &&
        z.c == DispatchClient(env.clientImpls, y.c, Received(EncodeBatch(ms), BatchFds(ms)))
    ensures z.s == y.s && z.cRead == y.cRead + k && z.sRead == y.sRead && !z.inBatch
  {
    hide Inv, Reachable, TakeEvents, DispatchClient, EncodeMessage, BatchFds, CutBatch, Honest, Run, C.EndBatch, Agreed;
    ReachableInv(env, y);
    EventsDispatched(env, y, k);
    ClientCatchesUp(env, y, k);
    EndsRun(env, TakeEvents(y, k));
    RunAppend(env, y, Times(ClientHandle, k), [ClientEndBatch]);
    z := Run(env, y, Times(ClientHandle, k) + [ClientEndBatch]);
    CodeOf(y.s.sent[y.cRead]);
  }

  lemma EndsRun(env: Env, y: System)
    requires y.inBatch
    ensures Honest(env, y, [ClientEndBatch])
    ensures Run(env, y, [ClientEndBatch]) == y.(c := C.EndBatch(env.clientImpls, y.c), inBatch := false)
  {
    hide C.EndBatch;
    var z := Next(env, y, ClientEndBatch);
    assert [ClientEndBatch][1..] == [];
    assert Honest(env, z, []) && Run(env, z, []) == z;
  }

  // Between dispatches.

  lemma {:induction false} ServerRuns(env: Env, y: System, steps: seq<Step>)
    requires AllOfServer(steps) && Honest(env, y, steps)
    ensures var z := Run(env, y, steps); z.c == y.c && z.cRead == y.cRead && z.inBatch == y.inBatch
    decreases |steps|
  {
    if steps == [] {
    } else {
      hide S.Handle, S.EndBatch, S.CreateObject, S.CallOut, S.Listen, OwedBy, StageAfterServer, Enabled;
      ServerRuns(env, Next(env, y, steps[0]), steps[1..]);
    }
  }

  // Many dispatches.

  /** Wherever the client is after some of its dispatches, an honest run has led there; and the
      last of them has succeeded unless the client is in error. */
  lemma {:induction false} ReportsRun(env: Env, y: System, rounds: seq<Round>, reports: seq<Report>, n: nat)
      returns (steps: seq<Step>)
    requires Reachable(env, y) && !y.inBatch && Delivered(env, y, rounds, reports) && n <= |rounds|
    ensures Honest(env, y, steps) && Run(env, y, steps).c == AfterReports(env.clientImpls, y.c, reports[..n])
    ensures var z := Run(env, y, steps);
      !z.c.error ==> z.cRead == y.cRead + Total(rounds[..n]) && !LastFails(env.clientImpls, y.c, reports, n)
    decreases |rounds|
  {
    hide Reachable, Honest, Run, DispatchEvents, AfterReports, DispatchSteps, ReportOf, LastFails;
    steps := [];
    NothingRuns(env, y);
    AfterNone(env.clientImpls, y.c, reports);
    if n == 0 {
      NoneFails(env.clientImpls, y.c, reports);
    } else if y.c.error {
      ErrorFreezes(env.clientImpls, y.c, reports, n);
    } else {
      var acts, k := rounds[0].acts, rounds[0].count;
      var x := Run(env, y, acts);
      ServerRuns(env, y, acts);
      Logs.ReachableRun(env, y, acts);
      var z := DispatchIsRun(env, x, k);
      Logs.ReachableRun(env, x, DispatchSteps(k));
      var rest := ReportsRun(env, z, rounds[1..], reports[1..], n - 1);
      RunAppend(env, x, DispatchSteps(k), rest);
      RunAppend(env, y, acts, DispatchSteps(k) + rest);
      steps := acts + (DispatchSteps(k) + rest);
      AfterFirst(env.clientImpls, y.c, reports, n - 1);
      FailsOneMore(env.clientImpls, y.c, reports, n - 1);
      assert rounds[..n][1..] == rounds[1..][..n - 1];
      if n == 1 {
        AfterNone(env.clientImpls, z.c, reports[1..]);
      }
    }
  }

  // The answer.

  /** Of the answers the client has read the last is the greatest. */
  lemma AnswersCount(env: Env, y: System, p: nat)
    requires Reachable(env, y) && p < y.cRead <= |y.s.sent| && y.s.sent[p].RoundtripDone?
    ensures y.s.sent[p].answered <= y.c.acked
  {
    hide ClientInv, ClientHandshake, ServerHandshake, Roundtrips, StageOk, AllWaiting, Births, Dead, AllTwins, Present,
      AllKinds, AllOwed, AllBorn, ServerLogOk, AllEvents, Reachable, LastDone;
    ReachableInv(env, y);
    LastDoneRises(y.s.sent, y.h.born, p + 1, y.cRead);
    DoneLast(y.s.sent, p);
    AckedIsLast(env, y);
  }

  lemma AckedIsLast(env: Env, y: System)
    requires Inv(env, y)
    ensures y.cRead <= |y.s.sent| && y.c.acked == LastDone(y.s.sent[..y.cRead])
  {
    hide ClientInv, ServerInv, ClientHandshake, ServerHandshake, StageOk, AllWaiting, Births, Dead, AllTwins, Present,
      AllKinds, AllOwed, AllBorn, ServerLogOk, AllEvents, LastDone, LastRequest, AnswersMarked, MarksBelow;
  }

  /** Every request up to the number acknowledged was taken by the server, and what the server
      had sent by then has been read. */
  lemma AllTaken(env: Env, y: System, n: u32, j: nat)
    requires Reachable(env, y) && n <= y.c.acked && j < |y.c.sent|
    requires y.c.sent[j].msg.RoundtripRequest? && y.c.sent[j].msg.request <= n
    ensures Taken(y, j)
  {
    hide Reachable;
    RoundtripBarrier(env, y, j);
  }

  /** The server has taken the client's message j, and all before it, and the client has read
      what the server had sent by then. */
  ghost predicate Taken(y: System, j: nat) {
    j < y.sRead == |y.h.mark| && y.h.mark[j] <= y.cRead
  }

  /** No answer up to position p is for request n or a later one. */
  ghost predicate NotAnswered(sent: seq<Message>, p: nat, n: u32) {
    forall k :: 0 <= k < p && k < |sent| && sent[k].RoundtripDone? ==> sent[k].answered < n
  }

  lemma RequestSent(env: Env, y: System) returns (z: System)
    requires Reachable(env, y) && !y.c.error && y.c.lastSent < 0xFFFF_FFFF
    ensures Enabled(env, y, ClientRoundtrip) && z == y.(c := C.Roundtrip(y.c)) && z == Next(env, y, ClientRoundtrip)
    ensures |z.c.sent| == |y.c.sent| + 1 && z.c.sent[|y.c.sent|].msg == RoundtripRequest(y.c.lastSent + 1)
    ensures Reachable(env, z) && z.cRead == y.cRead && z.inBatch == y.inBatch && z.c.error == y.c.error
  {
    hide Reachable, Inv, Agreed;
    ReachableInv(env, y);
    z := Answers.RequestMade(env, y);
    ReachableStep(env, y, ClientRoundtrip);
  }

  /** When `roundtrip` returns. The client makes a request outside its dispatches and waits, while
      the server does what it likes and the reports of poll deliver what it sends. Where the wait
      comes back, an honest run has led; and it has come back because the request is
      acknowledged, or because the client has read an event that costs it the connection, or
      because all that the reports deliver is read and no answer was among it. So if the answer
      is delivered the wait ends, and not before; and if the request is acknowledged the server
      has taken it and every request before. */
  lemma RoundtripReturns(env: Env, y: System, rounds: seq<Round>, reports: seq<Report>) returns (steps: seq<Step>)
    requires Reachable(env, y) && !y.inBatch && !y.c.error && y.c.lastSent < 0xFFFF_FFFF
    requires Delivered(env, y.(c := C.Roundtrip(y.c)), rounds, reports)
    ensures Honest(env, y, [ClientRoundtrip] + steps)
    ensures var n := y.c.lastSent + 1;
      var w := WaitForAnswer(env.clientImpls, C.Roundtrip(y.c), n, reports);
      var z := Run(env, y, [ClientRoundtrip] + steps);
      && z.c == w.c && y.c.sent + [C.Outgoing(RoundtripRequest(n), 0, false)] <= z.c.sent
      && (z.c.acked >= n || ClientLosses.SomeLost(env, y, [ClientRoundtrip] + steps) ||
          (w.rest == [] && z.cRead == y.cRead + Total(rounds) && NotAnswered(z.s.sent, z.cRead, n)))
      && (z.c.acked >= n ==> Taken(z, |y.c.sent|))
  {
    hide Reachable, Inv, Agreed, Honest, Run, Enabled, Next, Delivered, AfterReports, LastFails, DispatchEvents,
      Unacknowledged, WaitForAnswer, ClientLosses.SomeLost, Taken, NotAnswered;
    var n := y.c.lastSent + 1;
    var y1 := RequestSent(env, y);
    var w := WaitForAnswer(env.clientImpls, y1.c, n, reports);
    AnswerWaited(env.clientImpls, y1.c, n, reports);
    ReportsMatch(env, y1, rounds, reports);
    var used := |reports| - |w.rest|;
    steps := ReportsRun(env, y1, rounds, reports, used);
    Answers.StepFirst(env, y, ClientRoundtrip, steps);
    var z := Run(env, y1, steps);
    Logs.ReachableRun(env, y1, steps);
    Logs.RunGrows(env, y1, steps);
    ReachableInv(env, y);
    ClientLosses.RunCosts(env, y, [ClientRoundtrip] + steps);
    if z.c.acked >= n {
      AllTaken(env, z, n, |y.c.sent|);
    } else if !z.c.error {
      assert rounds[..used] == rounds;
      NoneAnswered(env, z, n);
    }
    SentBefore(y, y1, z);
  }

  lemma ReportsMatch(env: Env, y: System, rounds: seq<Round>, reports: seq<Report>)
    requires Delivered(env, y, rounds, reports)
    ensures |reports| == |rounds|
  {
  }

  lemma SentBefore(y: System, y1: System, z: System)
    requires y1.c == C.Roundtrip(y.c) && |y1.c.sent| == |y.c.sent| + 1 && y1.c.sent <= z.c.sent
    requires y.c.lastSent < 0xFFFF_FFFF
    ensures y.c.sent + [C.Outgoing(RoundtripRequest(y.c.lastSent + 1), 0, false)] <= z.c.sent
  {
  }

  lemma NoneAnswered(env: Env, y: System, n: u32)
    requires Reachable(env, y) && y.c.acked < n
    ensures NotAnswered(y.s.sent, y.cRead, n)
  {
    hide Reachable;
    AnswersKnown(env, y);
    forall k | 0 <= k < y.cRead && k < |y.s.sent| && y.s.sent[k].RoundtripDone? ensures y.s.sent[k].answered < n {
      AnswersCount(env, y, k);
    }
  }

  lemma AnswersKnown(env: Env, y: System)
    requires Reachable(env, y)
    ensures y.cRead <= |y.s.sent|
  {
    hide Reachable, LastDone, Inv;
    ReachableInv(env, y);
    AckedIsLast(env, y);
  }

  /** When `bindProtocol` returns: the new object has its id, or the client has read an event that
      costs it the connection, or all that the reports deliver is read and there is no
      announcement for the object among it. */
  lemma BindReturns(env: Env, y: System, spec: ProtocolSpec, version: u32, rounds: seq<Round>, reports: seq<Report>)
      returns (steps: seq<Step>)
    requires Reachable(env, y) && !y.inBatch && !y.c.error && Enabled(env, y, ClientBind(spec, version))
    requires Delivered(env, Next(env, y, ClientBind(spec, version)), rounds, reports)
    ensures Honest(env, y, [ClientBind(spec, version)] + steps)
    ensures var q := y.c.seq_ + 1;
      var w := WaitForObject(env.clientImpls, C.Bind(y.c, spec, version), q, reports);
      var z := Run(env, y, [ClientBind(spec, version)] + steps);
      && z.c == w.c
      && (Identified(z.c, q) || ClientLosses.SomeLost(env, y, [ClientBind(spec, version)] + steps) ||
          (w.rest == [] && z.cRead == y.cRead + Total(rounds) && Identities.Unasked(z.s.sent, 0, z.cRead, q)))
  {
    hide Reachable, Inv, Agreed, Honest, Run, Enabled, Delivered, AfterReports, LastFails, DispatchEvents,
      Unidentified, WaitForObject, ClientLosses.SomeLost, Identified, C.Bind, Identities.Unasked;
    var step, q := ClientBind(spec, version), y.c.seq_ + 1;
    var y1 := Next(env, y, step);
    BindMade(env, y, spec, version);
    var w := WaitForObject(env.clientImpls, y1.c, q, reports);
    ObjectWaited(env.clientImpls, y1.c, q, reports);
    ReportsMatch(env, y1, rounds, reports);
    var used := |reports| - |w.rest|;
    ReachableStep(env, y, step);
    steps := ReportsRun(env, y1, rounds, reports, used);
    Answers.StepFirst(env, y, step, steps);
    ReachableInv(env, y);
    ClientLosses.RunCosts(env, y, [step] + steps);
    if w.rest == [] {
      assert rounds[..used] == rounds;
    }
    NotAsked(env, y, y1, steps, q);
  }

  lemma BindMade(env: Env, y: System, spec: ProtocolSpec, version: u32)
    requires Enabled(env, y, ClientBind(spec, version))
    ensures var z := Next(env, y, ClientBind(spec, version));
      z.c == C.Bind(y.c, spec, version) && z.cRead == y.cRead && z.inBatch == y.inBatch && spec.objects != [] &&
      y.c.seq_ < 0xFFFF_FFFF && z.s == y.s && z.c.seq_ == y.c.seq_ + 1
  {
  }

  /** As long as the new object has no id, no announcement for it has been read. */
  lemma NotAsked(env: Env, y: System, y1: System, steps: seq<Step>, q: u32)
    requires Reachable(env, y) && Reachable(env, y1) && y1.s == y.s && y1.cRead == y.cRead && y1.c.seq_ == q
    requires y.c.seq_ < q && Honest(env, y1, steps)
    ensures var z := Run(env, y1, steps); Identified(z.c, q) || Identities.Unasked(z.s.sent, 0, z.cRead, q)
  {
    hide Reachable, Honest, Run, Identities.Given, Identified;
    var z := Run(env, y1, steps);
    Identities.RunGives(env, y1, steps, q);
    AnswersKnown(env, y);
    Identities.NotYetAsked(env, y, q, y.cRead);
    if Identities.Given(z.c.objects, q) {
      Identities.GivenIdentified(z.c, q);
    }
  }
}
