/** The server's table over many rounds: a client that fails is not heard again. */
module ServerRounds {
  import opened Bytes
  import opened Dispatch
  import opened Framing
  import opened Messages
  import opened ServerClients
  import opened ServerSockets
  import S = Server
  import ServerLaws

  /** What can happen to the table: a round, a client coming, the clients of a descriptor
      going. */
  datatype Deed = Serve(turns: ServerClient -> Turn) | Join(client: ServerClient) | Leave(fd: int)

  ghost function Staying(seats: seq<Seat>, fd: int): seq<Seat> {
    if seats == [] then []
    else Staying(seats[..|seats| - 1], fd) + if seats[|seats| - 1].client.fd == fd then [] else [seats[|seats| - 1]]
  }

  ghost function TableAfter(env: S.ServerEnv, seats: seq<Seat>, d: Deed): seq<Seat> {
    match d
    case Serve(turns) => RoundOf(env, seats, turns)
    case Join(x) => seats + [Seat(x, S.Connected())]
    case Leave(fd) => Staying(seats, fd)
  }

  ghost function TableAfterAll(env: S.ServerEnv, seats: seq<Seat>, deeds: seq<Deed>): seq<Seat>
    decreases |deeds|
  {
    if |deeds| == 0 then seats else TableAfterAll(env, TableAfter(env, seats, deeds[0]), deeds[1..])
  }

  ghost predicate Sits(seats: seq<Seat>, x: ServerClient) {
    seats != [] && (seats[|seats| - 1].client == x || Sits(seats[..|seats| - 1], x))
  }

  /** The client joins at some point. */
  ghost predicate Comes(deeds: seq<Deed>, x: ServerClient) {
    |deeds| != 0 && ((deeds[0].Join? && deeds[0].client == x) || Comes(deeds[1..], x))
  }

  ghost predicate OneEach(seats: seq<Seat>) {
    seats == [] || (!Sits(seats[..|seats| - 1], seats[|seats| - 1].client) && OneEach(seats[..|seats| - 1]))
  }

  /** The class keeps its clients distinct. */
  lemma {:induction false} DistinctSit(clients: seq<ServerClient>)
    requires Distinct(clients)
    ensures OneEach(Seats(clients)) && forall x :: Sits(Seats(clients), x) <==> x in clients
  {
    if clients == [] {
    } else {
      var n := |clients| - 1;
      DistinctSit(clients[..n]);
      assert Seats(clients)[..n] == Seats(clients[..n]);
      assert forall x :: x in clients <==> x in clients[..n] || x == clients[n];
    }
  }

  lemma {:induction false} TakenSits(env: S.ServerEnv, seats: seq<Seat>, turns: ServerClient -> Turn, x: ServerClient)
    ensures Sits(Taken(env, seats, turns), x) == Sits(seats, x)
  {
    if seats == [] {
    } else {
      hide Round;
      var n := |seats| - 1;
      TakenSits(env, seats[..n], turns, x);
      assert Taken(env, seats, turns)[..n] == Taken(env, seats[..n], turns);
    }
  }

  lemma SitsSnoc(seats: seq<Seat>, seat: Seat, x: ServerClient)
    ensures Sits(seats + [seat], x) <==> Sits(seats, x) || seat.client == x
  {
    assert (seats + [seat])[..|seats|] == seats;
  }

  lemma {:induction false} SoundSits(seats: seq<Seat>, x: ServerClient)
    ensures Sits(Sound(seats), x) ==> Sits(seats, x)
  {
    if seats == [] {
    } else {
      SoundSits(seats[..|seats| - 1], x);
      SoundLast(seats, x);
    }
  }

  lemma {:induction false} StayingSits(seats: seq<Seat>, fd: int, x: ServerClient)
    ensures Sits(Staying(seats, fd), x) ==> Sits(seats, x)
  {
    if seats == [] {
    } else {
      var n := |seats| - 1;
      StayingSits(seats[..n], fd, x);
      var rest := Staying(seats[..n], fd);
      assert rest + [] == rest && (rest + [seats[n]])[..|rest|] == rest;
    }
  }

  /** A client not at the table does not get there again. */
  lemma {:induction false} NeverBack(env: S.ServerEnv, seats: seq<Seat>, deeds: seq<Deed>, x: ServerClient)
    requires !Sits(seats, x) && !Comes(deeds, x)
    ensures !Sits(TableAfterAll(env, seats, deeds), x)
    decreases |deeds|
  {
    if |deeds| != 0 {
      hide Sits, Taken, SomeFailed, Sound, Staying;
      match deeds[0] {
        case Serve(turns) =>
          TakenSits(env, seats, turns, x);
          SoundSits(Taken(env, seats, turns), x);
        case Join(y) => SitsSnoc(seats, Seat(y, S.Connected()), x);
        case Leave(fd) => StayingSits(seats, fd, x);
      }
      NeverBack(env, TableAfter(env, seats, deeds[0]), deeds[1..], x);
    }
  }

  lemma {:induction false} TakenOneEach(env: S.ServerEnv, seats: seq<Seat>, turns: ServerClient -> Turn)
    requires OneEach(seats)
    ensures OneEach(Taken(env, seats, turns))
  {
    if seats == [] {
    } else {
      hide Round, Sits;
      var n := |seats| - 1;
      TakenOneEach(env, seats[..n], turns);
      TakenSits(env, seats[..n], turns, seats[n].client);
      assert Taken(env, seats, turns)[..n] == Taken(env, seats[..n], turns);
    }
  }

  /** Only one seat is a client's, and it goes if the client failed. */
  lemma {:induction false} SoundLacks(after: seq<Seat>, k: nat, turns: ServerClient -> Turn)
    requires OneEach(after) && k < |after| && turns(after[k].client).p.input && after[k].s.error
    ensures SomeFailed(after, turns) && !Sits(Sound(after), after[k].client)
  {
    hide Sits, Sound;
    var n := |after| - 1;
    SoundLast(after, after[k].client);
    if k < n {
      SoundLacks(after[..n], k, turns);
      SitsAt(after[..n], k);
    } else {
      SoundSits(after[..n], after[k].client);
    }
  }

  lemma SoundLast(seats: seq<Seat>, x: ServerClient)
    requires seats != []
    ensures var n := |seats| - 1;
      Sits(Sound(seats), x) <==> Sits(Sound(seats[..n]), x) || (!seats[n].s.error && seats[n].client == x)
  {
    hide Sits;
    var n := |seats| - 1;
    var rest := Sound(seats[..n]);
    assert rest + [] == rest;
    SitsSnoc(rest, seats[n], x);
  }

  /** The seat of a client that fails goes. */
  lemma FailedGoes(env: S.ServerEnv, seats: seq<Seat>, k: nat, turns: ServerClient -> Turn)
    requires OneEach(seats) && k < |seats| && turns(seats[k].client).p.input
    requires Round(env, seats[k].s, turns(seats[k].client).p, turns(seats[k].client).r).error
    ensures SomeFailed(Taken(env, seats, turns), turns) && !Sits(Sound(Taken(env, seats, turns)), seats[k].client)
  {
    hide Round, OneEach, Taken, SomeFailed, Sits, Sound;
    TakenOneEach(env, seats, turns);
    TakenAt(env, seats, turns, k);
    SoundLacks(Taken(env, seats, turns), k, turns);
  }

  lemma {:induction false} SitsAt(seats: seq<Seat>, k: nat)
    requires k < |seats|
    ensures Sits(seats, seats[k].client)
  {
    if k < |seats| - 1 {
      SitsAt(seats[..|seats| - 1], k);
    }
  }

  /** What a dispatch does with bytes that begin with messages of which the last sets the error:
      those are handled, and what is behind, be it messages or not, is not. */
  lemma DispatchStops(env: S.ServerEnv, s: S.ServerState, ms: seq<Message>, tail: seq<byte>, more: seq<int>)
    requires ms != [] && AllTransmissible(ms) && AllFromClient(ms) && S.HandleAll(env, s, ms).error
    ensures var t := DispatchServer(env, s, Received(EncodeBatch(ms) + tail, BatchFds(ms) + more));
      var u := S.HandleAll(env, s, ms);
      t.error && t.objects == u.objects && t.calls == u.calls && t.maxId == u.maxId && t.version == u.version
  {
    hide EncodeMessage, MessageFds, ServerBatch, S.HandleAll, Transmissible;
    var data := EncodeBatch(ms) + tail;
    CodeOf(ms[0]);
    SliceAt(data, 0, data);
    ServerBatchStops(env, s, data, 0, ms, tail, more);
  }

  /** What a dispatch does with any bytes. */
  lemma DispatchHandlesFront(env: S.ServerEnv, s: S.ServerState, data: seq<byte>, fds: seq<int>)
      returns (ms: seq<Message>)
    ensures ReadsOff(data, 0, fds, ms) && OnlyLastFails(env, s, ms)
    ensures var t := DispatchServer(env, s, Received(data, fds)); var u := S.HandleAll(env, s, ms);
      t.objects == u.objects && t.calls == u.calls && t.maxId == u.maxId && t.version == u.version
  {
    hide ServerBatch, S.HandleAll, ReadsOff, OnlyLastFails;
    ms := BytesHandled(env, s, data, 0, fds);
    EmptyBatch(env, s, fds);
  }

  /** Error stop, for any bytes. Whatever a client's bytes are, the round handles messages that
      stand at their front, up to the first that sets the error and none behind it. If the client
      has its error set after that, its place at the table is gone when the round ends; and no
      round after, whatever comes, goes or fails meanwhile, finds it there again, since every
      client that joins is a new object. */
  lemma FailureIsFinal(env: S.ServerEnv, clients: seq<ServerClient>, k: nat, turns: ServerClient -> Turn,
      data: seq<byte>, fds: seq<int>, deeds: seq<Deed>) returns (ms: seq<Message>)
    requires Distinct(clients) && k < |clients| && !Comes(deeds, clients[k])
    requires turns(clients[k]).p.input && turns(clients[k]).r == Received(data, fds)
    ensures ReadsOff(data, 0, fds, ms) && OnlyLastFails(env, clients[k].State(), ms)
    ensures var t := Taken(env, Seats(clients), turns)[k].s; var u := S.HandleAll(env, clients[k].State(), ms);
      t.objects == u.objects && t.calls == u.calls && t.maxId == u.maxId && t.version == u.version
    ensures Taken(env, Seats(clients), turns)[k].s.error ==>
      !Sits(TableAfterAll(env, RoundOf(env, Seats(clients), turns), deeds), clients[k])
  {
    hide DispatchServer, S.HandleAll, TableAfterAll, Comes, Sound, SomeFailed, Sits, Taken, Seats, ReadsOff,
      OnlyLastFails, OneEach, Distinct;
    var seats := Seats(clients);
    DistinctSit(clients);
    SeatAt(clients, k);
    TakenAt(env, seats, turns, k);
    ms := DispatchHandlesFront(env, seats[k].s, data, fds);
    if Taken(env, seats, turns)[k].s.error {
      FailedGoes(env, seats, k, turns);
      NeverBack(env, RoundOf(env, seats, turns), deeds, clients[k]);
    }
  }

  lemma EmptyBatch(env: S.ServerEnv, s: S.ServerState, fds: seq<int>)
    ensures ServerBatch(env, s, [], 0, fds).s == s
  {
  }

  lemma {:induction false} SeatAt(clients: seq<ServerClient>, k: nat)
    requires k < |clients|
    ensures Seats(clients)[k] == Seat(clients[k], clients[k].State())
  {
    if k == |clients| - 1 {
    } else {
      SeatAt(clients[..|clients| - 1], k);
    }
  }

  /** Error stop, for messages. A client's bytes begin with messages of which the last sets its
      error, in whatever round. Nothing behind that message is handled; the client's place at
      the table is gone when the round ends, for good. */
  lemma ErrorStopsForGood(env: S.ServerEnv, seats: seq<Seat>, k: nat, turns: ServerClient -> Turn,
      ms: seq<Message>, tail: seq<byte>, more: seq<int>, deeds: seq<Deed>)
    requires OneEach(seats) && k < |seats| && !Comes(deeds, seats[k].client)
    requires ms != [] && AllTransmissible(ms) && AllFromClient(ms) && S.HandleAll(env, seats[k].s, ms).error
    requires turns(seats[k].client).p.input
    requires turns(seats[k].client).r == Received(EncodeBatch(ms) + tail, BatchFds(ms) + more)
    ensures var t := Taken(env, seats, turns)[k].s; var u := S.HandleAll(env, seats[k].s, ms);
      t.error && t.objects == u.objects && t.calls == u.calls
    ensures !Sits(TableAfterAll(env, RoundOf(env, seats, turns), deeds), seats[k].client)
  {
    hide AllTransmissible, AllFromClient, EncodeBatch, BatchFds, DispatchServer, S.HandleAll, TableAfterAll, Comes,
      Sound, SomeFailed, Sits;
    DispatchStops(env, seats[k].s, ms, tail, more);
    TakenAt(env, seats, turns, k);
    FailedGoes(env, seats, k, turns);
    NeverBack(env, RoundOf(env, seats, turns), deeds, seats[k].client);
  }

  lemma {:induction false} TakenAt(env: S.ServerEnv, seats: seq<Seat>, turns: ServerClient -> Turn, k: nat)
    requires k < |seats|
    ensures Taken(env, seats, turns)[k] ==
      Seat(seats[k].client, Round(env, seats[k].s, turns(seats[k].client).p, turns(seats[k].client).r))
  {
    if k < |seats| - 1 {
      hide Round;
      TakenAt(env, seats[..|seats| - 1], turns, k);
    }
  }

  // Which clients a round keeps.

  /** A dispatched client keeps its place exactly if it did not hang up and its dispatch left it
      without an error. */
  lemma SeatKept(env: S.ServerEnv, clients: seq<ServerClient>, k: nat, turns: ServerClient -> Turn)
    requires Distinct(clients) && k < |clients| && turns(clients[k]).p.input
    ensures Sits(RoundOf(env, Seats(clients), turns), clients[k]) <==>
      !turns(clients[k]).p.hangup && !DispatchServer(env, clients[k].State(), turns(clients[k]).r).error
  {
    hide DispatchServer, Taken, Seats, SomeFailed, Sound, Sits, Distinct, OneEach;
    var seats := Seats(clients);
    DistinctSit(clients);
    SeatAt(clients, k);
    TakenAt(env, seats, turns, k);
    if Taken(env, seats, turns)[k].s.error {
      FailedGoes(env, seats, k, turns);
    } else {
      SitsAt(Taken(env, seats, turns), k);
      SoundStays(Taken(env, seats, turns), k);
    }
  }

  lemma {:induction false} SoundStays(seats: seq<Seat>, k: nat)
    requires k < |seats| && !seats[k].s.error
    ensures Sits(Sound(seats), seats[k].client) && seats[k] in Sound(seats)
  {
    hide Sits;
    SoundLast(seats, seats[k].client);
    if k == |seats| - 1 {
    } else {
      SoundStays(seats[..|seats| - 1], k);
    }
  }

  /** A client that is dispatched and hung up is gone for good, whatever was read from it. */
  lemma HangupIsFinal(env: S.ServerEnv, clients: seq<ServerClient>, k: nat, turns: ServerClient -> Turn,
      deeds: seq<Deed>)
    requires Distinct(clients) && k < |clients| && !Comes(deeds, clients[k])
    requires turns(clients[k]).p.input && turns(clients[k]).p.hangup
    ensures !Sits(TableAfterAll(env, RoundOf(env, Seats(clients), turns), deeds), clients[k])
  {
    hide DispatchServer, Seats, RoundOf, Sits, Distinct;
    SeatKept(env, clients, k, turns);
    NeverBack(env, RoundOf(env, Seats(clients), turns), deeds, clients[k]);
  }

  /** What keeps a client its place, said of its bytes: no hangup; none of the messages at their
      front sets the error; they end where the last of these ends; and no descriptor is left. A
      client that does not is gone for good. */
  lemma BytesKeepSeat(env: S.ServerEnv, clients: seq<ServerClient>, k: nat, turns: ServerClient -> Turn,
      data: seq<byte>, fds: seq<int>, deeds: seq<Deed>) returns (ms: seq<Message>, end: nat, left: seq<int>)
    requires Distinct(clients) && k < |clients| && !Comes(deeds, clients[k]) && data != []
    requires turns(clients[k]).p.input && turns(clients[k]).r == Received(data, fds)
    ensures ServerLaws.ReadsTo(data, 0, fds, ms, end, left) && OnlyLastFails(env, clients[k].State(), ms)
    ensures end <= |data|
    ensures S.HandleAll(env, clients[k].State(), ms).error || end == |data| || ServerLaws.NoneForServer(data, end, left)
    ensures var kept := !turns(clients[k]).p.hangup && !S.HandleAll(env, clients[k].State(), ms).error &&
        end == |data| && left == [];
      && (Sits(RoundOf(env, Seats(clients), turns), clients[k]) <==> kept)
      && (!kept ==> !Sits(TableAfterAll(env, RoundOf(env, Seats(clients), turns), deeds), clients[k]))
  {
    hide DispatchServer, Seats, RoundOf, Sits, Distinct, S.HandleAll, OnlyLastFails, ServerLaws.ReadsTo,
      ServerLaws.NoneForServer;
    SeatKept(env, clients, k, turns);
    ms, end, left := ServerLaws.DispatchVerdict(env, clients[k].State(), data, fds);
    if !Sits(RoundOf(env, Seats(clients), turns), clients[k]) {
      NeverBack(env, RoundOf(env, Seats(clients), turns), deeds, clients[k]);
    }
  }

  /** A client poll reports no input for is not touched, and stays if it has no error. */
  lemma IdleStays(env: S.ServerEnv, clients: seq<ServerClient>, k: nat, turns: ServerClient -> Turn)
    requires k < |clients| && !turns(clients[k]).p.input && !clients[k].error
    ensures Seat(clients[k], clients[k].State()) in RoundOf(env, Seats(clients), turns)
  {
    hide DispatchServer, Taken, Seats, SomeFailed, Sound, Sits;
    SeatAt(clients, k);
    TakenAt(env, Seats(clients), turns, k);
    SoundStays(Taken(env, Seats(clients), turns), k);
  }
}
