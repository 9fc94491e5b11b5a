/** The waits of a client: which reports of poll they use up, and in what state they come back. */
module Waits {
  import opened Bytes
  import opened Specs
  import opened Dispatch
  import C = Client

  /** The client after dispatching on the reports, one after the other. */
  function AfterReports(impls: seq<ProtocolSpec>, c: C.ClientState, reports: seq<Report>): C.ClientState
    decreases |reports|
  {
    if reports == [] then c else AfterReports(impls, DispatchEvents(impls, c, reports[0]).c, reports[1..])
  }

  /** Whether the dispatch on report k succeeds, those before it dispatched. */
  predicate Succeeds(impls: seq<ProtocolSpec>, c: C.ClientState, reports: seq<Report>, k: nat)
    requires k < |reports|
  {
    DispatchEvents(impls, AfterReports(impls, c, reports[..k]), reports[k]).again
  }

  /** A wait used up the first reports, leaving `rest`, and came to t. */
  ghost predicate UsedUp(impls: seq<ProtocolSpec>, c: C.ClientState, reports: seq<Report>, t: C.ClientState,
      rest: seq<Report>)
  {
    |rest| <= |reports| && rest == reports[|reports| - |rest|..]
    && t == AfterReports(impls, c, reports[..|reports| - |rest|])
  }

  /** The last of the first `used` dispatches failed. */
  predicate LastFails(impls: seq<ProtocolSpec>, c: C.ClientState, reports: seq<Report>, used: nat)
    requires used <= |reports|
  {
    used > 0 && !Succeeds(impls, c, reports, used - 1)
  }

  /** Before each of the first `used` dispatches the request was not acknowledged, and those
      before had succeeded. */
  ghost predicate Unacknowledged(impls: seq<ProtocolSpec>, c: C.ClientState, n: u32, reports: seq<Report>, used: nat)
    requires used <= |reports|
  {
    forall k :: 0 <= k < used ==>
      (AfterReports(impls, c, reports[..k]).acked < n && (k + 1 < used ==> Succeeds(impls, c, reports, k)))
  }

  /** A wait for the answer to request n comes back only once it is acknowledged, or a dispatch
      fails, or no reports are left; and it takes no report once the request is acknowledged. */
  ghost predicate WaitsForAnswer(impls: seq<ProtocolSpec>, c: C.ClientState, n: u32, reports: seq<Report>,
      t: C.ClientState, rest: seq<Report>)
  {
    && UsedUp(impls, c, reports, t, rest)
    && (t.acked >= n || rest == [] || LastFails(impls, c, reports, |reports| - |rest|))
    && Unacknowledged(impls, c, n, reports, |reports| - |rest|)
  }

  ghost predicate Unidentified(impls: seq<ProtocolSpec>, c: C.ClientState, q: u32, reports: seq<Report>, used: nat)
    requires used <= |reports|
  {
    forall k :: 0 <= k < used ==>
      (!Identified(AfterReports(impls, c, reports[..k]), q) && !AfterReports(impls, c, reports[..k]).error)
  }

  /** A wait for an object's id comes back only once it has it, or there is an error, or no
      reports are left; and it takes no report once either is so. */
  ghost predicate WaitsForObject(impls: seq<ProtocolSpec>, c: C.ClientState, q: u32, reports: seq<Report>,
      t: C.ClientState, rest: seq<Report>)
  {
    && UsedUp(impls, c, reports, t, rest)
    && (Identified(t, q) || t.error || rest == [])
    && Unidentified(impls, c, q, reports, |reports| - |rest|)
  }

  ghost predicate Unshaken(impls: seq<ProtocolSpec>, c: C.ClientState, reports: seq<Report>, used: nat)
    requires used <= |reports|
  {
    forall k :: 0 <= k < used ==>
      (!AfterReports(impls, c, reports[..k]).handshakeDone && !AfterReports(impls, c, reports[..k]).error &&
       (k + 1 < used ==> Succeeds(impls, c, reports, k)))
  }

  /** A wait for the handshake comes back only once it is done, or there is an error, or a
      dispatch fails, or no reports are left; it takes no report once it is done or failed. */
  ghost predicate WaitsForHandshake(impls: seq<ProtocolSpec>, c: C.ClientState, reports: seq<Report>,
      t: C.ClientState, rest: seq<Report>)
  {
    && UsedUp(impls, c, reports, t, rest)
    && (t.handshakeDone || t.error || rest == [] || LastFails(impls, c, reports, |reports| - |rest|))
    && Unshaken(impls, c, reports, |reports| - |rest|)
  }

  // One report at a time.

  lemma AfterNone(impls: seq<ProtocolSpec>, c: C.ClientState, reports: seq<Report>)
    ensures AfterReports(impls, c, reports[..0]) == c && reports[0..] == reports
  {
  }

  lemma AfterFirst(impls: seq<ProtocolSpec>, c: C.ClientState, reports: seq<Report>, k: nat)
    requires reports != [] && k < |reports|
    ensures AfterReports(impls, c, reports[..k + 1])
      == AfterReports(impls, DispatchEvents(impls, c, reports[0]).c, reports[1..][..k])
    ensures reports[1..][k..] == reports[k + 1..]
  {
    assert reports[..k + 1][1..] == reports[1..][..k];
  }

  lemma SucceedsFirst(impls: seq<ProtocolSpec>, c: C.ClientState, reports: seq<Report>, k: nat)
    requires reports != [] && k < |reports|
    ensures Succeeds(impls, c, reports, k)
      == if k == 0 then DispatchEvents(impls, c, reports[0]).again
         else Succeeds(impls, DispatchEvents(impls, c, reports[0]).c, reports[1..], k - 1)
  {
    hide DispatchEvents, AfterReports;
    if k == 0 {
      AfterNone(impls, c, reports);
    } else {
      AfterFirst(impls, c, reports, k - 1);
    }
  }

  lemma NothingUsed(impls: seq<ProtocolSpec>, c: C.ClientState, reports: seq<Report>)
    ensures UsedUp(impls, c, reports, c, reports)
  {
    hide DispatchEvents, AfterReports;
    AfterNone(impls, c, reports);
  }

  /** One more report in front. */
  lemma UsedOneMore(impls: seq<ProtocolSpec>, c: C.ClientState, reports: seq<Report>, t: C.ClientState,
      rest: seq<Report>)
    requires reports != [] && UsedUp(impls, DispatchEvents(impls, c, reports[0]).c, reports[1..], t, rest)
    ensures UsedUp(impls, c, reports, t, rest)
  {
    hide DispatchEvents, AfterReports;
    AfterFirst(impls, c, reports, |reports| - 1 - |rest|);
  }

  lemma FailsOneMore(impls: seq<ProtocolSpec>, c: C.ClientState, reports: seq<Report>, used: nat)
    requires reports != [] && used + 1 <= |reports|
    ensures LastFails(impls, c, reports, used + 1) <==>
      if used == 0 then !DispatchEvents(impls, c, reports[0]).again
      else LastFails(impls, DispatchEvents(impls, c, reports[0]).c, reports[1..], used)
  {
    hide DispatchEvents, AfterReports, Succeeds;
    SucceedsFirst(impls, c, reports, used);
  }

  lemma {:induction false} AnswerWaited(impls: seq<ProtocolSpec>, c: C.ClientState, n: u32, reports: seq<Report>)
    ensures var w := WaitForAnswer(impls, c, n, reports); WaitsForAnswer(impls, c, n, reports, w.c, w.rest)
    decreases |reports|
  {
    hide DispatchEvents, AfterReports, Succeeds, UsedUp, LastFails, Unacknowledged;
    var w := WaitForAnswer(impls, c, n, reports);
    if c.acked >= n || reports == [] {
      NothingUsed(impls, c, reports);
      assert Unacknowledged(impls, c, n, reports, 0) by { UnacknowledgedNone(impls, c, n, reports); }
    } else {
      var d := DispatchEvents(impls, c, reports[0]);
      if d.again {
        AnswerWaited(impls, d.c, n, reports[1..]);
        UsedFewer(impls, d.c, reports[1..], w.c, w.rest);
        UsedOneMore(impls, c, reports, w.c, w.rest);
        var u := |reports| - 1 - |w.rest|;
        if u > 0 {
          FailsOneMore(impls, c, reports, u);
        } else {
          NoneFails(impls, d.c, reports[1..]);
        }
        UnacknowledgedMore(impls, c, n, reports, u);
      } else {
        NothingUsed(impls, d.c, reports[1..]);
        UsedOneMore(impls, c, reports, w.c, w.rest);
        FailsOneMore(impls, c, reports, 0);
        UnacknowledgedNone(impls, d.c, n, reports[1..]);
        UnacknowledgedMore(impls, c, n, reports, 0);
      }
    }
  }

  lemma NoneFails(impls: seq<ProtocolSpec>, c: C.ClientState, reports: seq<Report>)
    ensures !LastFails(impls, c, reports, 0)
  {
  }

  lemma UsedFewer(impls: seq<ProtocolSpec>, c: C.ClientState, reports: seq<Report>, t: C.ClientState, rest: seq<Report>)
    requires UsedUp(impls, c, reports, t, rest)
    ensures |rest| <= |reports|
  {
  }

  lemma UnacknowledgedNone(impls: seq<ProtocolSpec>, c: C.ClientState, n: u32, reports: seq<Report>)
    ensures Unacknowledged(impls, c, n, reports, 0)
  {
  }

  lemma UnacknowledgedMore(impls: seq<ProtocolSpec>, c: C.ClientState, n: u32, reports: seq<Report>, used: nat)
    requires reports != [] && used + 1 <= |reports| && c.acked < n
    requires used > 0 ==> DispatchEvents(impls, c, reports[0]).again
    requires Unacknowledged(impls, DispatchEvents(impls, c, reports[0]).c, n, reports[1..], used)
    ensures Unacknowledged(impls, c, n, reports, used + 1)
  {
    hide DispatchEvents, AfterReports, Succeeds;
    forall k | 0 <= k < used + 1
      ensures AfterReports(impls, c, reports[..k]).acked < n && (k + 1 < used + 1 ==> Succeeds(impls, c, reports, k))
    {
      AfterNone(impls, c, reports);
      SucceedsFirst(impls, c, reports, k);
      if k > 0 {
        AfterFirst(impls, c, reports, k - 1);
      }
    }
  }

  lemma {:induction false} ObjectWaited(impls: seq<ProtocolSpec>, c: C.ClientState, q: u32, reports: seq<Report>)
    ensures var w := WaitForObject(impls, c, q, reports); WaitsForObject(impls, c, q, reports, w.c, w.rest)
    decreases |reports|
  {
    hide DispatchEvents, AfterReports, UsedUp, Identified;
    var w := WaitForObject(impls, c, q, reports);
    if Identified(c, q) || c.error || reports == [] {
      NothingUsed(impls, c, reports);
    } else {
      var d := DispatchEvents(impls, c, reports[0]);
      ObjectWaited(impls, d.c, q, reports[1..]);
      UsedFewer(impls, d.c, reports[1..], w.c, w.rest);
      UsedOneMore(impls, c, reports, w.c, w.rest);
      forall k | 0 <= k < |reports| - |w.rest|
        ensures !Identified(AfterReports(impls, c, reports[..k]), q) && !AfterReports(impls, c, reports[..k]).error
      {
        AfterNone(impls, c, reports);
        if k > 0 {
          AfterFirst(impls, c, reports, k - 1);
        }
      }
    }
  }

  lemma UnshakenMore(impls: seq<ProtocolSpec>, c: C.ClientState, reports: seq<Report>, used: nat)
    requires reports != [] && used + 1 <= |reports| && !c.handshakeDone && !c.error
    requires used > 0 ==> DispatchEvents(impls, c, reports[0]).again
    requires Unshaken(impls, DispatchEvents(impls, c, reports[0]).c, reports[1..], used)
    ensures Unshaken(impls, c, reports, used + 1)
  {
    hide DispatchEvents, AfterReports, Succeeds;
    forall k | 0 <= k < used + 1
      ensures !AfterReports(impls, c, reports[..k]).handshakeDone && !AfterReports(impls, c, reports[..k]).error
      ensures k + 1 < used + 1 ==> Succeeds(impls, c, reports, k)
    {
      AfterNone(impls, c, reports);
      SucceedsFirst(impls, c, reports, k);
      if k > 0 {
        AfterFirst(impls, c, reports, k - 1);
      }
    }
  }

  lemma {:induction false} HandshakeWaited(impls: seq<ProtocolSpec>, c: C.ClientState, reports: seq<Report>)
    ensures var w := WaitForHandshake(impls, c, reports); WaitsForHandshake(impls, c, reports, w.c, w.rest)
    decreases |reports|
  {
    hide DispatchEvents, AfterReports, Succeeds, UsedUp, LastFails;
    var w := WaitForHandshake(impls, c, reports);
    if c.handshakeDone || c.error || reports == [] {
      NothingUsed(impls, c, reports);
    } else {
      var d := DispatchEvents(impls, c, reports[0]);
      if d.again {
        HandshakeWaited(impls, d.c, reports[1..]);
        UsedFewer(impls, d.c, reports[1..], w.c, w.rest);
        UsedOneMore(impls, c, reports, w.c, w.rest);
        var u := |reports| - 1 - |w.rest|;
        if u > 0 {
          FailsOneMore(impls, c, reports, u);
        } else {
          NoneFails(impls, d.c, reports[1..]);
        }
        UnshakenMore(impls, c, reports, u);
      } else {
        NothingUsed(impls, d.c, reports[1..]);
        UsedOneMore(impls, c, reports, w.c, w.rest);
        FailsOneMore(impls, c, reports, 0);
        assert Unshaken(impls, d.c, reports[1..], 0);
        UnshakenMore(impls, c, reports, 0);
      }
    }
  }

  /** One more report behind. */
  lemma UsedNext(impls: seq<ProtocolSpec>, c: C.ClientState, reports: seq<Report>, t: C.ClientState, rest: seq<Report>)
    requires UsedUp(impls, c, reports, t, rest) && rest != []
    ensures var used := |reports| - |rest|;
      && UsedUp(impls, c, reports, DispatchEvents(impls, t, rest[0]).c, rest[1..])
      && (LastFails(impls, c, reports, used + 1) <==> !DispatchEvents(impls, t, rest[0]).again)
  {
    hide DispatchEvents;
    var used := |reports| - |rest|;
    assert rest[0] == reports[used] && rest[1..] == reports[used + 1..];
    AfterLast(impls, c, reports, used);
  }

  lemma {:induction false} AfterLast(impls: seq<ProtocolSpec>, c: C.ClientState, reports: seq<Report>, k: nat)
    requires k < |reports|
    ensures AfterReports(impls, c, reports[..k + 1])
      == DispatchEvents(impls, AfterReports(impls, c, reports[..k]), reports[k]).c
    decreases k
  {
    hide DispatchEvents;
    AfterFirst(impls, c, reports, k);
    if k == 0 {
      AfterNone(impls, c, reports);
      assert AfterReports(impls, DispatchEvents(impls, c, reports[0]).c, []) == DispatchEvents(impls, c, reports[0]).c;
    } else {
      AfterFirst(impls, c, reports, k - 1);
      AfterLast(impls, DispatchEvents(impls, c, reports[0]).c, reports[1..], k - 1);
    }
  }

  // A failed client.

  /** After an error no dispatch has any effect. */
  lemma {:induction false} ErrorFreezes(impls: seq<ProtocolSpec>, c: C.ClientState, reports: seq<Report>, k: nat)
    requires c.error && k <= |reports|
    ensures AfterReports(impls, c, reports[..k]) == c && (k < |reports| ==> !Succeeds(impls, c, reports, k))
    decreases k
  {
    if k == 0 {
    } else {
      AfterFirst(impls, c, reports, k - 1);
      ErrorFreezes(impls, c, reports[1..], k - 1);
      if k < |reports| {
        SucceedsFirst(impls, c, reports, k);
      }
    }
  }
}
