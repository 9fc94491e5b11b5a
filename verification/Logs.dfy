/** What has been sent stays sent: the client's log over steps and runs. */
module Logs {
  import opened Specs
  import opened Session
  import opened SessionTheorems
  import C = Client
  import S = Server
  import SessionSteps
  import Deferred

  lemma {:induction false} FlushAllGrows(c: C.ClientState, es: seq<C.Outgoing>)
    ensures c.sent <= C.FlushAll(c, es).sent
    decreases |es|
  {
    if es == [] {
    } else {
      hide C.FlushOne;
      Deferred.FlushOneStays(c, es[0]);
      FlushAllGrows(C.FlushOne(c, es[0]), es[1..]);
    }
  }

  lemma EndBatchGrows(impls: seq<ProtocolSpec>, c: C.ClientState)
    ensures c.sent <= C.EndBatch(impls, c).sent
  {
    hide C.FlushAll, C.Collect;
    FlushAllGrows(c.(pending := []), c.pending);
    Deferred.EndBatchFlushes(impls, c);
  }

  lemma StepGrows(env: Env, y: System, step: Step)
    requires Enabled(env, y, step)
    ensures y.c.sent <= Next(env, y, step).c.sent
  {
    hide Enabled, C.EndBatch, C.Collect, C.Bind, C.CallObject, C.Roundtrip, C.Hold, C.Listen, HandleOnClient,
      HandleOnServer, CreateOnServer, S.EndBatch, S.CallOut, S.Listen, CallKinds, SessionSteps.AllQuiet;
    if step.ClientEndBatch? {
      EndBatchGrows(env.clientImpls, y.c);
    } else if step.ClientCollect? {
      SessionSteps.CollectQuietly(env.clientImpls, y.c);
    } else {
      assert [step][1..] == [];
      Deferred.StepGrows(env, y, step);
    }
  }

  lemma {:induction false} RunGrows(env: Env, y: System, steps: seq<Step>)
    requires Honest(env, y, steps)
    ensures y.c.sent <= Run(env, y, steps).c.sent
    decreases |steps|
  {
    if steps == [] {
    } else {
      hide Enabled, Next;
      StepGrows(env, y, steps[0]);
      RunGrows(env, Next(env, y, steps[0]), steps[1..]);
    }
  }

  /** What an honest run reaches from a reachable state is reachable. */
  lemma {:induction false} ReachableRun(env: Env, y: System, steps: seq<Step>)
    requires Reachable(env, y) && Honest(env, y, steps)
    ensures Reachable(env, Run(env, y, steps))
    decreases |steps|
  {
    if steps == [] {
    } else {
      hide Reachable, Enabled, Next;
      ReachableStep(env, y, steps[0]);
      ReachableRun(env, Next(env, y, steps[0]), steps[1..]);
    }
  }
}
