/** What every honest run of a session keeps. Each predicate reads only the parts of the
    state it is about; lists are judged entry by entry, logs entry by prefix. */
module Invariant {
  import opened Bytes
  import opened VarInt
  import opened Arguments
  import opened Specs
  import opened SpecNames
  import opened Messages
  import opened Session
  import C = Client
  import S = Server

  // The client's log.

  /** The objects whose destructor has been sent. */
  function Dead(sent: seq<C.Outgoing>): set<u32> {
    if sent == [] then {}
    else Dead(sent[..|sent| - 1]) + KilledBy(sent[|sent| - 1])
  }

  function KilledBy(e: C.Outgoing): set<u32> {
    if e.msg.Generic? && e.dtor then {e.msg.objectId} else {}
  }

  /** The number of the last roundtrip request, 0 before the first. */
  function LastRequest(sent: seq<C.Outgoing>): nat {
    if sent == [] then 0
    else if sent[|sent| - 1].msg.RoundtripRequest? then sent[|sent| - 1].msg.request
    else LastRequest(sent[..|sent| - 1])
  }

  /** What may be sent after a log: no call of an object behind its destructor, and
      roundtrip requests numbered in order. */
  predicate MayFollow(dead: set<u32>, last: nat, m: Message) {
    (m.Generic? ==> m.objectId !in dead) && (m.RoundtripRequest? ==> m.request == last + 1)
  }

  predicate ClientLogOk(sent: seq<C.Outgoing>) {
    sent == [] ||
    (var n := |sent| - 1;
     MayFollow(Dead(sent[..n]), LastRequest(sent[..n]), sent[n].msg) && ClientLogOk(sent[..n]))
  }

  // The server's log.

  function Births(sent: seq<Message>): nat {
    if sent == [] then 0
    else Births(sent[..|sent| - 1]) + if sent[|sent| - 1].NewObject? then 1 else 0
  }

  function LastDone(sent: seq<Message>): nat {
    if sent == [] then 0
    else if sent[|sent| - 1].RoundtripDone? then sent[|sent| - 1].answered
    else LastDone(sent[..|sent| - 1])
  }

  /** New objects are announced in order of their ids, each for the number it was made
      for, answers to roundtrips rise, and there is no error among the messages. */
  predicate ServerMayFollow(born: seq<u32>, births: nat, last: nat, m: Message) {
    && (m.NewObject? ==> m.id == births + 1 && births < |born| && m.forSeq == born[births])
    && (m.RoundtripDone? ==> last < m.answered)
    && (m.HandshakeBegin? || m.HandshakeProtocols? || m.NewObject? || m.Generic? || m.RoundtripDone?)
  }

  predicate ServerLogOk(sent: seq<Message>, born: seq<u32>) {
    sent == [] ||
    (var n := |sent| - 1;
     ServerMayFollow(born, Births(sent[..n]), LastDone(sent[..n]), sent[n]) && ServerLogOk(sent[..n], born))
  }

  /** An event of an object announced before, in a method that the object's kind has at its
      version, with arguments of that method's types. */
  predicate EventOk(kinds: seq<Kind>, born: seq<u32>, births: nat, m: Message) {
    m.Generic? ==>
      && 1 <= m.objectId <= births && m.objectId <= |born| && 1 <= born[m.objectId - 1] <= |kinds|
      && var kind := kinds[born[m.objectId - 1] - 1];
      m.method_ < |kind.spec.s2c| &&
      var f := kind.spec.s2c[m.method_];
      f.since <= kind.version && !f.Returns() && TypesOf(m.args) == f.params && AllSendable(m.args)
  }

  predicate AllEvents(kinds: seq<Kind>, born: seq<u32>, sent: seq<Message>) {
    sent == [] ||
    (var n := |sent| - 1; EventOk(kinds, born, Births(sent[..n]), sent[n]) && AllEvents(kinds, born, sent[..n]))
  }

  // Numbers and kinds.

  /** The kind is a type of an exposed protocol, at a version the server has. */
  predicate KindOk(env: Env, k: Kind) {
    k.protocol in S.ExposedNames(env.server.impls, env.server.filter) &&
    match FindProtocol(env.server.impls, k.protocol)
    case Missing => false
    case Found(p) => k.spec in p.objects && k.version <= p.version
  }

  predicate AllKinds(env: Env, kinds: seq<Kind>) {
    kinds == [] || (KindOk(env, kinds[|kinds| - 1]) && AllKinds(env, kinds[..|kinds| - 1]))
  }

  predicate AllBorn(born: seq<u32>, n: nat) {
    born == [] || (1 <= born[|born| - 1] <= n && AllBorn(born[..|born| - 1], n))
  }

  predicate OwedOk(env: Env, kinds: seq<Kind>, w: Owed) {
    1 <= w.seq_ <= |kinds| &&
    var k := kinds[w.seq_ - 1];
    k.protocol == w.protocol && k.version == w.version &&
    match FindProtocol(env.server.impls, w.protocol)
    case Missing => false
    case Found(p) => FindObject(p.objects, w.name) == Spec(k.spec)
  }

  predicate AllOwed(env: Env, kinds: seq<Kind>, owed: seq<Owed>) {
    owed == [] || (OwedOk(env, kinds, owed[|owed| - 1]) && AllOwed(env, kinds, owed[..|owed| - 1]))
  }

  // The client's messages.

  /** A call that is right for the kind of the object it was made on. */
  predicate CallOk(env: Env, kinds: seq<Kind>, origin: u32, k: u32, args: seq<Value>, dtor: bool) {
    1 <= origin <= |kinds| &&
    var kind := kinds[origin - 1];
    k < |kind.spec.c2s| &&
    var m := kind.spec.c2s[k];
    && m.since <= kind.version && m.isDestructor == dtor
    && TypesOf(args) == m.Expected() && AllSendable(args)
    && (m.Returns() ==>
        args != [] && args[0].Word? && 1 <= args[0].w <= |kinds| &&
          kinds[args[0].w - 1] == ChildKind(env, kind, m.returnsType))
  }

  /** A bind the server accepts once its names are exposed, and what it stands for. */
  predicate BindOk(env: Env, kinds: seq<Kind>, q: u32, name: Text, version: u32) {
    1 <= q <= |kinds| && 1 <= version && |name| < LIMIT &&
      name in S.ExposedNames(env.server.impls, env.server.filter) &&
    match FindProtocol(env.server.impls, name)
    case Missing => false
    case Found(p) => p.objects != [] && version <= p.version && kinds[q - 1] == Kind(name, p.objects[0], version)
  }

  /** known is how many of the server's new objects the client has been told of. */
  predicate EntryOk(env: Env, kinds: seq<Kind>, born: seq<u32>, known: nat, e: C.Outgoing) {
    match e.msg
    case Hello => true
    case HandshakeAck(v) => v == S.PROTOCOL_VERSION
    case RoundtripRequest(n) => n >= 1
    case BindProtocol(q, p, v) => BindOk(env, kinds, q, p, v)
    case Generic(id, k, args) =>
      && 1 <= id <= known <= |born| && born[id - 1] == e.origin
      && CallOk(env, kinds, e.origin, k, args, e.dtor)
    case _ => false
  }

  predicate AllEntries(env: Env, kinds: seq<Kind>, born: seq<u32>, known: nat, sent: seq<C.Outgoing>) {
    sent == [] ||
    (EntryOk(env, kinds, born, known, sent[|sent| - 1]) && AllEntries(env, kinds, born, known, sent[..|sent| - 1]))
  }

  // Messages kept back.

  predicate DtorPending(ps: seq<C.Outgoing>, q: u32) {
    ps != [] && ((ps[|ps| - 1].origin == q && ps[|ps| - 1].dtor) || DtorPending(ps[..|ps| - 1], q))
  }

  predicate KeptOk(env: Env, kinds: seq<Kind>, e: C.Outgoing) {
    e.msg.Generic? && CallOk(env, kinds, e.origin, e.msg.method_, e.msg.args, e.dtor)
  }

  /** Each is a right call, and none comes behind a destructor of its object. */
  predicate AllKept(env: Env, kinds: seq<Kind>, ps: seq<C.Outgoing>) {
    ps == [] ||
    (var n := |ps| - 1;
     KeptOk(env, kinds, ps[n]) && !DtorPending(ps[..n], ps[n].origin) && AllKept(env, kinds, ps[..n]))
  }

  /** The object a kept-back message waits for is in the table and has no id. */
  predicate Waiting(objects: seq<C.ClientObject>, e: C.Outgoing) {
    C.FindSeq(objects, e.origin) >= 0 && objects[C.FindSeq(objects, e.origin)].id == 0
  }

  predicate AllWaiting(objects: seq<C.ClientObject>, ps: seq<C.Outgoing>) {
    ps == [] || (Waiting(objects, ps[|ps| - 1]) && AllWaiting(objects, ps[..|ps| - 1]))
  }

  // The client's objects.

  /** The object is of its number's kind; its id, if it has one, is one the server gave for
      that number; and while it may still be called, or has calls waiting, its destructor
      has not been sent. */
  predicate ObjectOk(kinds: seq<Kind>, born: seq<u32>, known: nat, ps: seq<C.Outgoing>, dead: set<u32>,
      o: C.ClientObject) {
    && 1 <= o.seq_ <= |kinds|
    && o.spec == kinds[o.seq_ - 1].spec && o.protocol == kinds[o.seq_ - 1].protocol &&
      o.version <= kinds[o.seq_ - 1].version
    && (o.id != 0 ==> o.id <= known <= |born| && born[o.id - 1] == o.seq_)
    && (o.id != 0 && (!o.destroyed || HasPending(ps, o.seq_)) ==> o.id !in dead)
    && (!o.destroyed ==> !DtorPending(ps, o.seq_))
  }

  predicate AllObjects(kinds: seq<Kind>, born: seq<u32>, known: nat, ps: seq<C.Outgoing>, dead: set<u32>,
      objects: seq<C.ClientObject>) {
    objects == [] ||
    (ObjectOk(kinds, born, known, ps, dead, objects[|objects| - 1]) &&
     AllObjects(kinds, born, known, ps, dead, objects[..|objects| - 1]))
  }

  /** Sequence numbers rise along the table. */
  predicate SeqsRise(objects: seq<C.ClientObject>, bound: int) {
    objects == [] ||
    (objects[|objects| - 1].seq_ <= bound && SeqsRise(objects[..|objects| - 1], objects[|objects| - 1].seq_ - 1))
  }

  // The server's objects.

  /** The object is what the number it was created for stands for. */
  predicate TwinOk(kinds: seq<Kind>, born: seq<u32>, o: S.ServerObject) {
    1 <= o.id <= |born| && 1 <= born[o.id - 1] <= |kinds| &&
    var k := kinds[born[o.id - 1] - 1];
    o.spec == Spec(k.spec) && o.protocol == k.protocol && o.version == k.version
  }

  predicate AllTwins(kinds: seq<Kind>, born: seq<u32>, objects: seq<S.ServerObject>) {
    objects == [] ||
    (TwinOk(kinds, born, objects[|objects| - 1]) && AllTwins(kinds, born, objects[..|objects| - 1]))
  }

  /** Of the ids up to n, exactly those not yet destroyed are in the table. */
  predicate Present(objects: seq<S.ServerObject>, n: nat, dead: set<u32>) {
    n == 0 ||
    ((n < 0x1_0000_0000 ==> (S.Find(objects, n) >= 0 <==> n !in dead)) && Present(objects, n - 1, dead))
  }

  // Handshake.

  /** A handshake message of the client that is under way is the one the stage says. */
  predicate ClientSays(stage: Stage, at: nat, m: Message) {
    (m.Hello? ==> stage == Greeting && at == 0) && (m.HandshakeAck? ==> stage == Acked(at))
  }

  predicate ServerSays(env: Env, stage: Stage, at: nat, m: Message) {
    && (m.HandshakeBegin? ==> stage == Began(at) && m.versions == [S.PROTOCOL_VERSION])
    && (m.HandshakeProtocols? ==> stage == Listed(at) && m.protocols == Printed(Offers(env)))
  }

  /** What this client is offered. */
  function Offers(env: Env): seq<ServerSpec> {
    S.Offered(env.server.impls, S.ExposedNames(env.server.impls, env.server.filter))
  }

  /** All of the log from position read on. */
  predicate ClientHandshake(stage: Stage, sent: seq<C.Outgoing>, read: nat) {
    |sent| <= read ||
    (ClientSays(stage, |sent| - 1, sent[|sent| - 1].msg) && ClientHandshake(stage, sent[..|sent| - 1], read))
  }

  predicate ServerHandshake(env: Env, stage: Stage, sent: seq<Message>, read: nat) {
    |sent| <= read ||
    (ServerSays(env, stage, |sent| - 1, sent[|sent| - 1]) && ServerHandshake(env, stage, sent[..|sent| - 1], read))
  }

  predicate StageOk(env: Env, stage: Stage, c: C.ClientState, s: S.ServerState) {
    && s.exposed == (if s.firstPollDone then S.ExposedNames(env.server.impls, env.server.filter) else [])
    && (stage != Greeting ==> s.firstPollDone)
    && (stage.Listed? || stage == Done ==> s.version == S.PROTOCOL_VERSION)
    && (c.handshakeDone <==> stage == Done)
    && c.serverSpecs == (if stage == Done then Offers(env) else [])
    && (c.seq_ > 0 ==> stage == Done)
  }

  // Roundtrips.

  /** The request numbered n or less at position j, if there is one, has been marked no
      later than p. */
  predicate MarkedBy(sent: seq<C.Outgoing>, mark: seq<int>, j: nat, n: nat, p: int)
    requires j < |sent| && j < |mark|
  {
    sent[j].msg.RoundtripRequest? && sent[j].msg.request <= n ==> mark[j] <= p
  }

  predicate AllMarkedBy(sent: seq<C.Outgoing>, mark: seq<int>, n: nat, p: int)
    requires |mark| <= |sent|
  {
    mark == [] || (MarkedBy(sent, mark, |mark| - 1, n, p) && AllMarkedBy(sent, mark[..|mark| - 1], n, p))
  }

  /** Every answer went out behind the mark of each request it answers. */
  predicate AnswersMarked(answers: seq<Message>, sent: seq<C.Outgoing>, mark: seq<int>)
    requires |mark| <= |sent|
  {
    answers == [] ||
    ((answers[|answers| - 1].RoundtripDone? ==>
        AllMarkedBy(sent, mark, answers[|answers| - 1].answered, |answers| - 1)) &&
     AnswersMarked(answers[..|answers| - 1], sent, mark))
  }

  predicate MarksBelow(mark: seq<int>, n: int) {
    mark == [] || (mark[|mark| - 1] <= n && MarksBelow(mark[..|mark| - 1], mark[|mark| - 1]))
  }

  predicate Roundtrips(c: C.ClientState, s: S.ServerState, cRead: nat, sRead: nat, mark: seq<int>)
    requires cRead <= |s.sent| && sRead <= |c.sent| && |mark| == sRead
  {
    && MarksBelow(mark, |s.sent|)
    && LastRequest(c.sent) <= c.lastSent && (c.connected ==> LastRequest(c.sent) == c.lastSent)
    && (s.scheduled == 0 || (s.scheduled == LastRequest(c.sent[..sRead]) && LastDone(s.sent) < s.scheduled))
    && LastDone(s.sent) <= LastRequest(c.sent[..sRead])
    && c.acked == LastDone(s.sent[..cRead])
    && AnswersMarked(s.sent, c.sent, mark)
  }

  // All of it.

  ghost predicate ClientInv(env: Env, kinds: seq<Kind>, born: seq<u32>, known: nat, c: C.ClientState) {
    && |kinds| == c.seq_ && known <= |born|
    && (!c.connected ==> c.error)
    && ClientLogOk(c.sent) && AllEntries(env, kinds, born, known, c.sent)
    && AllKept(env, kinds, c.pending)
    && AllObjects(kinds, born, known, c.pending, Dead(c.sent), c.objects) && SeqsRise(c.objects, |kinds|)
  }

  ghost predicate ServerInv(env: Env, kinds: seq<Kind>, born: seq<u32>, owed: seq<Owed>, dead: set<u32>,
      s: S.ServerState) {
    && !s.error && s.maxId == |born| + 1
    && AllKinds(env, kinds) && AllBorn(born, |kinds|) && AllOwed(env, kinds, owed)
    && ServerLogOk(s.sent, born) && Births(s.sent) == |born| && AllEvents(kinds, born, s.sent)
    && AllTwins(kinds, born, s.objects) && Present(s.objects, |born|, dead)
  }

  function Known(y: System): nat
    requires y.cRead <= |y.s.sent|
  {
    Births(y.s.sent[..y.cRead])
  }

  ghost predicate Inv(env: Env, y: System) {
    && y.cRead <= |y.s.sent| && y.sRead <= |y.c.sent| && |y.h.mark| == y.sRead
    && ClientInv(env, y.h.kinds, y.h.born, Known(y), y.c)
    && ServerInv(env, y.h.kinds, y.h.born, y.h.owed, Dead(y.c.sent[..y.sRead]), y.s)
    && ClientHandshake(y.h.stage, y.c.sent, y.sRead) && ServerHandshake(env, y.h.stage, y.s.sent, y.cRead)
    && StageOk(env, y.h.stage, y.c, y.s)
    && Roundtrips(y.c, y.s, y.cRead, y.sRead, y.h.mark)
    && (!y.inBatch && y.c.connected ==> AllWaiting(y.c.objects, y.c.pending))
  }
}
