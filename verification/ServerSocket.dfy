/** CServerSocket: the table of clients and, index-aligned with it, the list poll works on. */
module ServerSockets {
  import opened Bytes
  import opened Dispatch
  import opened ServerClients
  import S = Server

  /** A pollfd with what poll reported: input to read, the other end gone. */
  datatype PollFd = PollFd(fd: int, input: bool, hangup: bool)
  datatype Revents = Revents(input: bool, hangup: bool)

  /** What one dispatch round makes of a client, given its own poll entry and input: it is
      dispatched once if it is readable, and a hangup counts as an error. */
  function Round(env: S.ServerEnv, s: S.ServerState, p: PollFd, r: Received): S.ServerState {
    if !p.input then s
    else if p.hangup then DispatchServer(env, s, r).(error := true)
    else DispatchServer(env, s, r)
  }

  /** The round over all clients: entry, input and state of the same position go together. */
  function Rounds(env: S.ServerEnv, ss: seq<S.ServerState>, ps: seq<PollFd>,
      inbox: seq<Received>): (r: seq<S.ServerState>)
    requires |ps| == |ss| && |inbox| == |ss|
    ensures |r| == |ss|
    ensures forall i :: 0 <= i < |ss| ==> r[i] == Round(env, ss[i], ps[i], inbox[i])
  {
    seq(|ss|, i requires 0 <= i < |ss| => Round(env, ss[i], ps[i], inbox[i]))
  }

  predicate AnyInput(ps: seq<PollFd>) {
    ps != [] && (ps[|ps| - 1].input || AnyInput(ps[..|ps| - 1]))
  }

  /** Some client that was dispatched has its error set now. */
  predicate AnyFailed(ps: seq<PollFd>, after: seq<S.ServerState>)
    requires |ps| == |after|
  {
    ps != [] &&
    ((ps[|ps| - 1].input && after[|ps| - 1].error) || AnyFailed(ps[..|ps| - 1], after[..|ps| - 1]))
  }

  /** The clients are in these states. */
  ghost predicate InSync(clients: seq<ServerClient>, ss: seq<S.ServerState>)
    reads clients
  {
    |ss| == |clients| && forall i :: 0 <= i < |clients| ==> clients[i].State() == ss[i]
  }

  ghost predicate Distinct(clients: seq<ServerClient>) {
    clients == [] || (clients[|clients| - 1] !in clients[..|clients| - 1] && Distinct(clients[..|clients| - 1]))
  }

  lemma {:induction false} DistinctAt(clients: seq<ServerClient>, k: nat)
    requires Distinct(clients) && k < |clients|
    ensures forall j :: 0 <= j < |clients| && j != k ==> clients[j] != clients[k]
  {
    var n := |clients| - 1;
    if k < n {
      DistinctAt(clients[..n], k);
      assert clients[k] in clients[..n];
    }
  }

  lemma DistinctAppend(clients: seq<ServerClient>, c: ServerClient)
    requires Distinct(clients) && c !in clients
    ensures Distinct(clients + [c])
  {
    assert (clients + [c])[..|clients|] == clients;
  }

  ghost predicate AllValid(clients: seq<ServerClient>)
    reads clients
  {
    forall i :: 0 <= i < |clients| ==> clients[i].Valid()
  }

  /** The clients without error, in order. */
  ghost function Healthy(clients: seq<ServerClient>): seq<ServerClient>
    reads clients
  {
    if clients == [] then []
    else Healthy(clients[..|clients| - 1]) + if clients[|clients| - 1].error then [] else [clients[|clients| - 1]]
  }

  ghost function OtherFds(clients: seq<ServerClient>, fd: int): seq<ServerClient> {
    if clients == [] then []
    else
      OtherFds(clients[..|clients| - 1], fd)
      + if clients[|clients| - 1].fd == fd then [] else [clients[|clients| - 1]]
  }

  /** A filtered list holds clients of the list, in its order. */
  lemma {:induction false} HealthyAreClients(clients: seq<ServerClient>)
    requires Distinct(clients)
    ensures Distinct(Healthy(clients))
    ensures forall c :: c in Healthy(clients) <==> c in clients && !c.error
  {
    if clients == [] {
    } else {
      var n := |clients| - 1;
      HealthyAreClients(clients[..n]);
      assert forall c :: c in clients <==> c in clients[..n] || c == clients[n];
      DistinctAppend(Healthy(clients[..n]), clients[n]);
      assert Healthy(clients[..n]) + [] == Healthy(clients[..n]);
    }
  }

  lemma {:induction false} OtherFdsAreClients(clients: seq<ServerClient>, fd: int)
    requires Distinct(clients)
    ensures Distinct(OtherFds(clients, fd))
    ensures forall c :: c in OtherFds(clients, fd) <==> c in clients && c.fd != fd
  {
    if clients == [] {
    } else {
      var n := |clients| - 1;
      OtherFdsAreClients(clients[..n], fd);
      assert forall c :: c in clients <==> c in clients[..n] || c == clients[n];
      DistinctAppend(OtherFds(clients[..n], fd), clients[n]);
      assert OtherFds(clients[..n], fd) + [] == OtherFds(clients[..n], fd);
    }
  }

  // The table over many rounds.

  /** One client of the table, and its state. */
  datatype Seat = Seat(client: ServerClient, s: S.ServerState)

  ghost function Seats(clients: seq<ServerClient>): (r: seq<Seat>)
    reads clients
    ensures |r| == |clients|
  {
    if clients == [] then []
    else Seats(clients[..|clients| - 1]) + [Seat(clients[|clients| - 1], clients[|clients| - 1].State())]
  }

  /** What poll reports for a client, and what there is to read from its socket. */
  datatype Turn = Turn(p: PollFd, r: Received)

  ghost function Taken(env: S.ServerEnv, seats: seq<Seat>, turns: ServerClient -> Turn): (r: seq<Seat>)
    ensures |r| == |seats|
  {
    if seats == [] then []
    else
      var n := |seats| - 1;
      var turn := turns(seats[n].client);
      Taken(env, seats[..n], turns) + [Seat(seats[n].client, Round(env, seats[n].s, turn.p, turn.r))]
  }

  ghost predicate SomeFailed(seats: seq<Seat>, turns: ServerClient -> Turn) {
    seats != [] &&
    ((turns(seats[|seats| - 1].client).p.input && seats[|seats| - 1].s.error) ||
      SomeFailed(seats[..|seats| - 1], turns))
  }

  ghost function Sound(seats: seq<Seat>): seq<Seat> {
    if seats == [] then []
    else Sound(seats[..|seats| - 1]) + if seats[|seats| - 1].s.error then [] else [seats[|seats| - 1]]
  }

  /** One dispatch round over the table. */
  ghost function RoundOf(env: S.ServerEnv, seats: seq<Seat>, turns: ServerClient -> Turn): seq<Seat> {
    var after := Taken(env, seats, turns);
    if SomeFailed(after, turns) then Sound(after) else after
  }

  class ServerSocket {
    const env: S.ServerEnv
    const isEmptyListener: bool
    const listenFd: int
    const exitFd: int
    const wakeupFd: int
    var pollfds: seq<PollFd>
    var clients: seq<ServerClient>

    function InternalFds(): nat { if isEmptyListener then 2 else 3 }

    function Watch(fd: int): PollFd { PollFd(fd, false, false) }

    /** The entries in front of the clients'. */
    function Internal(): seq<PollFd> {
      (if isEmptyListener then [] else [Watch(listenFd)]) + [Watch(exitFd), Watch(wakeupFd)]
    }

    /** Behind the internal entries stands one for each client, in order. */
    ghost predicate Aligned()
      reads this
    {
      && |pollfds| == InternalFds() + |clients|
      && (forall i :: 0 <= i < InternalFds() ==> pollfds[i].fd == Internal()[i].fd)
      && forall i :: 0 <= i < |clients| ==> pollfds[InternalFds() + i].fd == clients[i].fd
    }

    ghost predicate InPlace()
      reads this
    {
      AllServable(env.impls) && Aligned() && Distinct(clients) && forall c :: c in clients ==> c.env == env
    }

    ghost predicate Valid()
      reads this, clients
    {
      InPlace() && AllValid(clients)
    }

    constructor (env: S.ServerEnv, isEmptyListener: bool, listenFd: int, exitFd: int, wakeupFd: int)
      requires AllServable(env.impls)
      ensures Valid() && clients == [] && this.env == env && this.isEmptyListener == isEmptyListener
    {
      this.env, this.isEmptyListener := env, isEmptyListener;
      this.listenFd, this.exitFd, this.wakeupFd := listenFd, exitFd, wakeupFd;
      pollfds, clients := [], [];
      new;
      RecheckPollFds();
    }

    /** Rebuilds the poll list from the table. */
    method RecheckPollFds()
      modifies this`pollfds
      ensures Aligned()
      ensures forall i :: 0 <= i < |pollfds| ==> !pollfds[i].input && !pollfds[i].hangup
    {
      pollfds := [];
      if !isEmptyListener {
        pollfds := pollfds + [Watch(listenFd)];
      }
      pollfds := pollfds + [Watch(exitFd)];
      pollfds := pollfds + [Watch(wakeupFd)];
      for k := 0 to |clients|
        invariant |pollfds| == InternalFds() + k
        invariant forall i :: 0 <= i < InternalFds() ==> pollfds[i] == Internal()[i]
        invariant forall i :: 0 <= i < k ==> pollfds[InternalFds() + i].fd == clients[i].fd
        invariant forall i :: 0 <= i < |pollfds| ==> !pollfds[i].input && !pollfds[i].hangup
      {
        pollfds := pollfds + [Watch(clients[k].fd)];
      }
    }

    /** A client for a descriptor, unless the descriptor is not open. The poll list is left
        for the caller to rebuild. */
    method CreateClient(fd: int, open: bool) returns (made: bool)
      requires Distinct(clients) && AllValid(clients) && AllServable(env.impls)
      requires forall c :: c in clients ==> c.env == env
      modifies this`clients
      ensures made == open && Distinct(clients) && AllValid(clients) && forall c :: c in clients ==> c.env == env
      ensures !made ==> clients == old(clients)
      ensures made ==> |clients| == |old(clients)| + 1 && clients[..|old(clients)|] == old(clients)
      ensures made ==> fresh(clients[|old(clients)|]) && clients[|old(clients)|].fd == fd
      ensures made ==> clients[|old(clients)|].State() == S.Connected()
    {
      if !open {
        return false;
      }
      var x := new ServerClient(env, fd);
      DistinctAppend(clients, x);
      clients := clients + [x];
      return true;
    }

    method AddClient(fd: int, open: bool) returns (made: bool)
      requires Valid()
      modifies this
      ensures Valid() && made == open
      ensures if made then |clients| == |old(clients)| + 1 && clients[..|old(clients)|] == old(clients) &&
        clients[|old(clients)|].fd == fd
        else clients == old(clients)
      ensures made ==> fresh(clients[|old(clients)|]) && clients[|old(clients)|].State() == S.Connected()
    {
      made := CreateClient(fd, open);
      RecheckPollFds();
    }

    /** erase_if on the descriptor. */
    method Others(clients: seq<ServerClient>, fd: int) returns (kept: seq<ServerClient>)
      ensures kept == OtherFds(clients, fd)
    {
      kept := [];
      for k := 0 to |clients|
        invariant kept == OtherFds(clients[..k], fd)
      {
        assert clients[..k + 1][..k] == clients[..k];
        if clients[k].fd != fd {
          kept := kept + [clients[k]];
        }
      }
      assert clients[..|clients|] == clients;
    }

    /** Drops the clients of a descriptor, and tells whether there were any. */
    method RemoveClient(fd: int) returns (removed: bool)
      requires Valid()
      modifies this
      ensures Valid() && clients == OtherFds(old(clients), fd)
      ensures removed <==> |clients| < |old(clients)|
    {
      var kept := Others(clients, fd);
      FewerKept(clients, fd);
      removed := |kept| < |clients|;
      if removed {
        OtherFdsAreClients(clients, fd);
        Shrink(kept);
      } else {
        AllKept(clients, fd);
      }
    }

    /** The table becomes one of some of its clients, and the poll list follows. */
    method Shrink(kept: seq<ServerClient>)
      requires Valid() && Distinct(kept) && forall c :: c in kept ==> c in clients
      modifies this
      ensures Valid() && clients == kept
    {
      forall i | 0 <= i < |kept| ensures kept[i].Valid() {
        assert kept[i] in kept;
      }
      clients := kept;
      RecheckPollFds();
    }

    /** A connection waiting on the listening socket becomes a client. */
    method DispatchNewConnections(accepted: int, open: bool) returns (any: bool)
      requires Valid()
      modifies this
      ensures Valid() && any == (!isEmptyListener && old(pollfds)[0].input && open)
      ensures if any then |clients| == |old(clients)| + 1 && clients[..|old(clients)|] == old(clients) &&
        clients[|old(clients)|].fd == accepted
        else clients == old(clients)
      ensures any ==> fresh(clients[|old(clients)|]) && clients[|old(clients)|].State() == S.Connected()
    {
      if isEmptyListener {
        return false;
      }
      if !pollfds[0].input {
        return false;
      }
      any := CreateClient(accepted, open);
      if any {
        RecheckPollFds();
      }
    }

    /** The entries of the clients. */
    function Entries(): seq<PollFd>
      requires |pollfds| >= InternalFds()
      reads this
    {
      pollfds[InternalFds()..]
    }

    /** One entry: its client is dispatched if it is readable; `failed` tells whether the
        client then has to go. */
    method DispatchEntry(client: ServerClient, p: PollFd, received: Received) returns (failed: bool)
      requires client.Valid() && client.env == env
      modifies client
      ensures client.Valid() && client.State() == Round(env, old(client.State()), p, received)
      ensures failed <==> p.input && client.error
    {
      hide DispatchServer;
      failed := false;
      if p.input {
        client.DispatchClient(received);
        if p.hangup {
          client.error := true;
          failed := true;
        } else if client.error {
          failed := true;
        }
      }
    }

    /** The loop's body: the entry behind the internal ones at k belongs to client k. */
    method DispatchAt(k: nat, received: Received, ghost ss: seq<S.ServerState>,
        ghost now: S.ServerState) returns (failed: bool)
      requires InPlace() && AllValid(clients) && InSync(clients, ss) && k < |clients|
      requires now == Round(env, ss[k], pollfds[InternalFds() + k], received)
      modifies clients[k]
      ensures AllValid(clients) && InSync(clients, ss[k := now])
      ensures failed <==> pollfds[InternalFds() + k].input && now.error
    {
      hide Round, AllServable, Distinct;
      DistinctAt(clients, k);
      failed := DispatchEntry(clients[k], pollfds[InternalFds() + k], received);
    }

    /** Where a round stands after k of its entries: the clients' states, and what was found. */
    ghost predicate RoundAt(k: nat, ss: seq<S.ServerState>, inbox: seq<Received>, hadAny: bool, failed: bool)
      reads this, clients
    {
      && InPlace() && AllValid(clients) && k <= |clients| == |ss| == |inbox|
      && InSync(clients, Rounds(env, ss, Entries(), inbox)[..k] + ss[k..])
      && hadAny == AnyInput(Entries()[..k]) &&
        failed == AnyFailed(Entries()[..k], Rounds(env, ss, Entries(), inbox)[..k])
    }

    method DispatchNext(k: nat, inbox: seq<Received>, ghost ss: seq<S.ServerState>, any: bool, failed: bool)
      returns (hadAny: bool, needsPollRecheck: bool)
      requires RoundAt(k, ss, inbox, any, failed) && InternalFds() + k < |pollfds|
      modifies clients
      ensures RoundAt(k + 1, ss, inbox, hadAny, needsPollRecheck)
    {
      hide Round, Rounds, AnyInput, AnyFailed, Healthy, AllServable, AllValid, InSync, Distinct;
      ghost var all := Rounds(env, ss, Entries(), inbox);
      ghost var now := all[..k] + ss[k..];
      Spliced(all, ss, now, k);
      FailedSnoc(Entries(), all, k);
      var bad := DispatchAt(k, inbox[k], now, all[k]);
      hadAny, needsPollRecheck := any || pollfds[InternalFds() + k].input, failed || bad;
    }

    /** The loop of a round: each entry with its own client and its own input. */
    method DispatchReadable(inbox: seq<Received>, ghost ss: seq<S.ServerState>) returns (hadAny: bool,
        needsPollRecheck: bool)
      requires Valid() && InSync(clients, ss) && |inbox| == |clients|
      modifies clients
      ensures Valid() && InSync(clients, Rounds(env, ss, Entries(), inbox))
      ensures hadAny == AnyInput(Entries()) &&
        needsPollRecheck == AnyFailed(Entries(), Rounds(env, ss, Entries(), inbox))
    {
      hide RoundAt, Valid, InSync, Rounds, AnyInput, AnyFailed;
      hadAny, needsPollRecheck := false, false;
      RoundBegins(inbox, ss);
      var i := InternalFds();
      while i < |pollfds|
        invariant InternalFds() <= i <= |pollfds| && RoundAt(i - InternalFds(), ss, inbox, hadAny, needsPollRecheck)
      {
        hadAny, needsPollRecheck := DispatchNext(i - InternalFds(), inbox, ss, hadAny, needsPollRecheck);
        i := i + 1;
      }
      RoundEnds(inbox, ss, hadAny, needsPollRecheck);
    }

    lemma RoundBegins(inbox: seq<Received>, ss: seq<S.ServerState>)
      requires Valid() && InSync(clients, ss) && |inbox| == |clients|
      ensures RoundAt(0, ss, inbox, false, false) && |pollfds| >= InternalFds()
    {
      hide Round, Rounds, AllServable, AllValid, Distinct;
      Ends(Rounds(env, ss, Entries(), inbox), ss);
    }

    lemma RoundEnds(inbox: seq<Received>, ss: seq<S.ServerState>, hadAny: bool, failed: bool)
      requires |pollfds| >= InternalFds() && RoundAt(|pollfds| - InternalFds(), ss, inbox, hadAny, failed)
      ensures Valid() && |ss| == |clients| == |inbox| && InSync(clients, Rounds(env, ss, Entries(), inbox))
      ensures hadAny == AnyInput(Entries()) && failed == AnyFailed(Entries(), Rounds(env, ss, Entries(), inbox))
    {
      hide Round, Rounds, AnyInput, AnyFailed, AllServable, AllValid, InSync, Distinct;
      Ends(Rounds(env, ss, Entries(), inbox), ss);
      assert Entries()[..|ss|] == Entries();
    }

    /** What poll reports for each entry. */
    method Poll(revents: seq<Revents>)
      requires Valid() && |revents| == |pollfds|
      modifies this`pollfds
      ensures Valid() && |pollfds| == |old(pollfds)|
      ensures forall i :: 0 <= i < |pollfds| ==>
        pollfds[i] == PollFd(old(pollfds)[i].fd, revents[i].input, revents[i].hangup)
    {
      hide AllServable, AllValid, Distinct;
      for k := 0 to |pollfds|
        invariant |pollfds| == |old(pollfds)|
        invariant forall i :: 0 <= i < k ==>
          pollfds[i] == PollFd(old(pollfds)[i].fd, revents[i].input, revents[i].hangup)
        invariant forall i :: k <= i < |pollfds| ==> pollfds[i] == old(pollfds)[i]
      {
        pollfds := pollfds[k := PollFd(pollfds[k].fd, revents[k].input, revents[k].hangup)];
      }
    }

    /** One round. Each readable client is dispatched once, with its own entry and its own
        input; no other client changes. If a dispatched client failed or hung up, then the
        clients with an error leave, the others keep their order, and the poll list is
        rebuilt; otherwise the table stays as it is. */
    method DispatchExistingConnections(inbox: seq<Received>, ghost ss: seq<S.ServerState>,
        ghost turns: ServerClient -> Turn) returns (hadAny: bool)
      requires Valid() && InSync(clients, ss) && |inbox| == |clients|
      requires forall i :: 0 <= i < |clients| ==> turns(clients[i]) == Turn(Entries()[i], inbox[i])
      modifies this, clients
      ensures Valid() && Seats(clients) == RoundOf(env, old(Seats(clients)), turns)
      ensures InSync(old(clients), Rounds(env, ss, old(Entries()), inbox))
      ensures hadAny == AnyInput(old(Entries()))
      ensures clients == if AnyFailed(old(Entries()), Rounds(env, ss, old(Entries()), inbox))
        then Healthy(old(clients)) else old(clients)
    {
      hide Round, Rounds, AnyInput, AnyFailed, Healthy, Seats, RoundOf, AllServable, AllValid, Distinct;
      SeatsAre(clients, ss);
      ghost var ps, all := Entries(), Rounds(env, ss, Entries(), inbox);
      var needsPollRecheck;
      hadAny, needsPollRecheck := DispatchReadable(inbox, ss);
      SeatsAre(clients, all);
      RoundIs(env, clients, ss, ps, inbox, turns);
      if needsPollRecheck {
        DropFailed();
      }
    }

    /** The clients with an error leave, and the poll list follows. */
    method DropFailed()
      requires Valid()
      modifies this
      ensures Valid() && clients == Healthy(old(clients)) && Seats(clients) == Sound(old(Seats(clients)))
    {
      hide AllServable, Seats, Sound;
      var kept := Erase(clients);
      HealthyAreClients(clients);
      SoundAreHealthy(clients);
      Shrink(kept);
    }

    /** createObject on behalf of a listener: protocol and version are those of the object
        the request came to. */
    method CreateObject(client: ServerClient, reference: S.ServerObject, name: Text, seq_: u32) returns (made: bool)
      requires Valid() && client in clients
      modifies client
      ensures client.Valid()
      ensures client.State()
        == S.CreateObject(env, old(client.State()), reference.protocol, name, reference.version, seq_)
    {
      made := client.CreateObject(reference.protocol, name, reference.version, seq_);
    }

    /** erase_if on the error flag. */
    method Erase(clients: seq<ServerClient>) returns (kept: seq<ServerClient>)
      ensures kept == Healthy(clients)
    {
      kept := [];
      for k := 0 to |clients|
        invariant kept == Healthy(clients[..k])
      {
        assert clients[..k + 1][..k] == clients[..k];
        if !clients[k].error {
          kept := kept + [clients[k]];
        }
      }
      assert clients[..|clients|] == clients;
    }
  }

  ghost function Zip(clients: seq<ServerClient>, ss: seq<S.ServerState>): (r: seq<Seat>)
    requires |ss| == |clients|
    ensures |r| == |clients|
  {
    if clients == [] then []
    else
      var n := |clients| - 1;
      Zip(clients[..n], ss[..n]) + [Seat(clients[n], ss[n])]
  }

  lemma {:induction false} SeatsAre(clients: seq<ServerClient>, ss: seq<S.ServerState>)
    requires InSync(clients, ss)
    ensures Seats(clients) == Zip(clients, ss)
  {
    if clients == [] {
    } else {
      SeatsAre(clients[..|clients| - 1], ss[..|ss| - 1]);
    }
  }

  lemma {:induction false} SoundAreHealthy(clients: seq<ServerClient>)
    ensures Seats(Healthy(clients)) == Sound(Seats(clients))
  {
    if clients == [] {
    } else {
      var n := |clients| - 1;
      SoundAreHealthy(clients[..n]);
      assert Seats(clients)[..n] == Seats(clients[..n]);
      var kept := Healthy(clients[..n]);
      assert (kept + [clients[n]])[..|kept|] == kept;
      assert kept + [] == kept && Seats(kept) + [] == Seats(kept);
    }
  }

  /** The round over the table is the round over states and entries side by side. */
  lemma RoundIs(env: S.ServerEnv, clients: seq<ServerClient>, ss: seq<S.ServerState>, ps: seq<PollFd>,
      inbox: seq<Received>, turns: ServerClient -> Turn)
    requires |ss| == |ps| == |inbox| == |clients|
    requires forall i :: 0 <= i < |clients| ==> turns(clients[i]) == Turn(ps[i], inbox[i])
    ensures var all := Rounds(env, ss, ps, inbox);
      RoundOf(env, Zip(clients, ss), turns) == if AnyFailed(ps, all) then Sound(Zip(clients, all))
        else Zip(clients, all)
  {
    hide Round, Rounds, AnyFailed, SomeFailed, Taken, Zip;
    TakenIs(env, clients, ss, ps, inbox, turns);
    SomeFailedIs(clients, Rounds(env, ss, ps, inbox), ps, inbox, turns);
  }

  lemma {:induction false} TakenIs(env: S.ServerEnv, clients: seq<ServerClient>, ss: seq<S.ServerState>,
      ps: seq<PollFd>,
      inbox: seq<Received>, turns: ServerClient -> Turn)
    requires |ss| == |ps| == |inbox| == |clients|
    requires forall i :: 0 <= i < |clients| ==> turns(clients[i]) == Turn(ps[i], inbox[i])
    ensures Taken(env, Zip(clients, ss), turns) == Zip(clients, Rounds(env, ss, ps, inbox))
  {
    if clients == [] {
    } else {
      hide Round;
      var n := |clients| - 1;
      TakenIs(env, clients[..n], ss[..n], ps[..n], inbox[..n], turns);
      assert Zip(clients, ss)[..n] == Zip(clients[..n], ss[..n]);
      assert Rounds(env, ss, ps, inbox)[..n] == Rounds(env, ss[..n], ps[..n], inbox[..n]);
    }
  }

  lemma {:induction false} SomeFailedIs(clients: seq<ServerClient>, ss: seq<S.ServerState>, ps: seq<PollFd>,
      inbox: seq<Received>, turns: ServerClient -> Turn)
    requires |ss| == |ps| == |inbox| == |clients|
    requires forall i :: 0 <= i < |clients| ==> turns(clients[i]) == Turn(ps[i], inbox[i])
    ensures SomeFailed(Zip(clients, ss), turns) == AnyFailed(ps, ss)
  {
    if clients == [] {
    } else {
      var n := |clients| - 1;
      SomeFailedIs(clients[..n], ss[..n], ps[..n], inbox[..n], turns);
      assert Zip(clients, ss)[..n] == Zip(clients[..n], ss[..n]);
    }
  }

  lemma Ends<T>(all: seq<T>, ss: seq<T>)
    requires |all| == |ss|
    ensures all[..0] + ss[0..] == ss && all[..|ss|] + ss[|ss|..] == all && all[..|ss|] == all
  {
  }

  lemma Spliced<T>(all: seq<T>, ss: seq<T>, now: seq<T>, k: nat)
    requires k < |all| == |ss| && now == all[..k] + ss[k..]
    ensures now[k] == ss[k] && now[k := all[k]] == all[..k + 1] + ss[k + 1..]
  {
  }

  lemma FailedSnoc(ps: seq<PollFd>, after: seq<S.ServerState>, k: nat)
    requires |ps| == |after| && k < |ps|
    ensures AnyInput(ps[..k + 1]) <==> AnyInput(ps[..k]) || ps[k].input
    ensures AnyFailed(ps[..k + 1], after[..k + 1]) <==>
      AnyFailed(ps[..k], after[..k]) || (ps[k].input && after[k].error)
  {
    assert ps[..k + 1][..k] == ps[..k] && after[..k + 1][..k] == after[..k];
  }

  lemma {:induction false} FailedAt(ps: seq<PollFd>, after: seq<S.ServerState>, i: nat)
    requires |ps| == |after| && i < |ps| && ps[i].input && after[i].error
    ensures AnyFailed(ps, after)
  {
    if i < |ps| - 1 {
      FailedAt(ps[..|ps| - 1], after[..|ps| - 1], i);
    }
  }

  /** A client that was dispatched in a round and has its error set is not among those the
      round keeps. */
  lemma FailedLeave(clients: seq<ServerClient>, ps: seq<PollFd>, after: seq<S.ServerState>, i: nat)
    requires Distinct(clients) && InSync(clients, after) && |ps| == |after| && i < |ps| && ps[i].input && after[i].error
    ensures AnyFailed(ps, after) && clients[i] !in Healthy(clients)
  {
    FailedAt(ps, after, i);
    HealthyAreClients(clients);
    assert clients[i].State().error;
  }

  lemma {:induction false} AllKept(clients: seq<ServerClient>, fd: int)
    requires |OtherFds(clients, fd)| == |clients|
    ensures OtherFds(clients, fd) == clients
  {
    if clients == [] {
    } else {
      var n := |clients| - 1;
      FewerKept(clients[..n], fd);
      AllKept(clients[..n], fd);
      assert clients == clients[..n] + [clients[n]];
    }
  }

  lemma {:induction false} FewerKept(clients: seq<ServerClient>, fd: int)
    ensures |OtherFds(clients, fd)| <= |clients|
  {
    if clients == [] {
    } else {
      FewerKept(clients[..|clients| - 1], fd);
    }
  }
}
