/** An honest client and an honest server application over two FIFO channels. A channel is
    the sender's log together with how much of it the receiver has handled. */
module Session {
  import opened Bytes
  import opened VarInt
  import opened Arguments
  import opened Specs
  import opened SpecNames
  import opened Messages
  import opened WireObject
  import C = Client
  import S = Server

  datatype Env = Env(server: S.ServerEnv, clientImpls: seq<ProtocolSpec>)

  /** What a sequence number of the client stands for: a type of a protocol, at a version. */
  datatype Kind = Kind(protocol: Text, spec: ObjectSpec, version: u32)

  /** A request for an object that a server listener was called with, in the listener's
      terms: the number to answer, and the protocol, type and version to create. */
  datatype Owed = Owed(seq_: u32, protocol: Text, name: Text, version: u32)

  /** Where the handshake is: which message of it is under way, and its place in its log. */
  datatype Stage = Greeting | Began(at: nat) | Acked(at: nat) | Listed(at: nat) | Done

  /** Bookkeeping no program variable holds. kinds[q-1] belongs to sequence number q;
      born[id-1] is the number server object id was created for; mark[j] is how much the
      server had sent when it took the client's message j. */
  datatype History = History(kinds: seq<Kind>, born: seq<u32>, owed: seq<Owed>, mark: seq<int>, stage: Stage)

  datatype System = System(c: C.ClientState, s: S.ServerState, cRead: nat, sRead: nat, inBatch: bool, h: History)

  function Init(): System {
    System(C.Opened(), S.Connected(), 0, 0, false, History([], [], [], [], Greeting))
  }

  // What both sides agree on beforehand.

  function ChildKind(env: Env, k: Kind, name: Text): Kind {
    match FindProtocol(env.server.impls, k.protocol)
    case Missing => k
    case Found(p) =>
      match FindObject(p.objects, name)
      case NoSpec => k
      case Spec(os) => Kind(k.protocol, os, k.version)
  }

  /** Methods are numbered by position, and what a method returns is a type of its protocol. */
  predicate WellFormedObject(p: ProtocolSpec, os: ObjectSpec) {
    forall i :: 0 <= i < |os.c2s| ==>
      os.c2s[i].idx == i && (os.c2s[i].Returns() ==> FindObject(p.objects, os.c2s[i].returnsType).Spec?)
  }

  predicate WellFormedProtocol(p: ProtocolSpec) {
    |p.name| < LIMIT && forall os :: os in p.objects ==> WellFormedObject(p, os)
  }

  predicate Compatible(mine: MaybeProtocol, theirs: MaybeProtocol) {
    mine.Found? && theirs.Found? ==> mine == theirs
  }

  /** The server's protocols are well-formed, few enough to list, and the client's idea of
      a protocol the server has is the server's. */
  ghost predicate Agreed(env: Env) {
    && |env.server.impls| < MAX_PROTOCOLS
    && (forall p :: p in env.server.impls ==> WellFormedProtocol(p) && |p.name| + 11 < LIMIT)
    && forall name :: Compatible(FindProtocol(env.clientImpls, name), FindProtocol(env.server.impls, name))
  }

  // Steps.

  datatype Step =
    | ClientBind(spec: ProtocolSpec, version: u32)
    | ClientCall(i: nat, k: u32, args: seq<Value>)
    | ClientRoundtrip
    | ClientHold(i: nat, held: bool)
    | ClientListen(i: nat, k: u32)
    | ClientCollect
    | ClientHandle
    | ClientEndBatch
    | ServerHandle
    | ServerEndBatch
    | ServerCreate(n: nat)
    | ServerCall(i: nat, k: u32, args: seq<Value>)
    | ServerListen(i: nat, k: u32)

  predicate Advertised(specs: seq<ServerSpec>, name: Text) {
    exists v :: ServerSpec(name, v) in specs
  }

  /** Some kept-back message waits for the object. */
  predicate HasPending(ps: seq<C.Outgoing>, q: u32) {
    ps != [] && (ps[|ps| - 1].origin == q || HasPending(ps[..|ps| - 1], q))
  }

  /** What honest callers check before a call: the object is in use, the arguments are of
      the method's types and within the wire's limits; and a destructor does not overtake
      messages of the object that are still kept back. */
  predicate HonestCall(c: C.ClientState, i: nat, k: u32, args: seq<Value>) {
    i < |c.objects| && !c.objects[i].destroyed && c.seq_ < 0xFFFF_FFFF &&
    (C.Callable(c.objects[i], k) ==>
      var m := c.objects[i].spec.c2s[k];
      && TypesOf(args) == m.params && AllSendable(args) && Marshallable(m.params, 0)
      && (m.isDestructor && c.objects[i].id != 0 ==> !HasPending(c.pending, c.objects[i].seq_)))
  }

  predicate HonestServerCall(s: S.ServerState, i: nat, k: u32, args: seq<Value>) {
    i < |s.objects| && k < |s.objects[i].MethodsOut()| &&
    var m := s.objects[i].MethodsOut()[k];
    && m.since <= s.objects[i].version && !m.Returns()
    && TypesOf(args) == m.params && AllSendable(args) && Marshallable(m.params, 0)
  }

  predicate Enabled(env: Env, y: System, step: Step) {
    match step
    case ClientBind(spec, version) =>
      && y.c.handshakeDone && y.c.seq_ < 0xFFFF_FFFF
      && Advertised(y.c.serverSpecs, spec.name) && FindProtocol(env.server.impls, spec.name) == Found(spec)
      && spec.objects != [] && 1 <= version <= spec.version
    case ClientCall(i, k, args) => HonestCall(y.c, i, k, args)
    case ClientRoundtrip => y.c.lastSent < 0xFFFF_FFFF
    case ClientHold(i, _) => i < |y.c.objects|
    case ClientListen(i, _) => i < |y.c.objects|
    case ClientCollect => !y.inBatch
    case ClientHandle => y.cRead < |y.s.sent| && (y.inBatch || !y.c.error)
    case ClientEndBatch => y.inBatch
    case ServerHandle => y.sRead < |y.c.sent| && !y.s.error && y.s.maxId < 0xFFFF_FFFF
    case ServerEndBatch => true
    case ServerCreate(n) => n < |y.h.owed| && y.s.maxId < 0xFFFF_FFFF
    case ServerCall(i, k, args) => HonestServerCall(y.s, i, k, args)
    case ServerListen(i, _) => i < |y.s.objects|
  }

  function KindOf(kinds: seq<Kind>, q: u32): Kind {
    if 1 <= q <= |kinds| then kinds[q - 1] else Kind([], ObjectSpec([], [], []), 0)
  }

  /** The kind a call's new sequence number gets. */
  function CallKinds(env: Env, kinds: seq<Kind>, o: C.ClientObject, k: u32): seq<Kind> {
    if C.Callable(o, k) && o.spec.c2s[k].Returns()
    then kinds + [ChildKind(env, KindOf(kinds, o.seq_), o.spec.c2s[k].returnsType)]
    else kinds
  }

  /** The object the server created for a message it has handled, if any. */
  function BornBy(m: Message): seq<u32> {
    if m.BindProtocol? then [m.seq_] else []
  }

  /** The request a listener learns of when a message is handled. */
  function OwedBy(s: S.ServerState, m: Message): seq<Owed> {
    if !m.Generic? || S.Find(s.objects, m.objectId) < 0 then [] else
      var o := s.objects[S.Find(s.objects, m.objectId)];
      if !CalledOutcome(o.MethodsIn(), o.listeners, o.version, m.method_, m.args).Delivered? then [] else
        var f := o.MethodsIn()[m.method_];
        if f.Returns() && m.args != [] && m.args[0].Word?
        then [Owed(m.args[0].w, o.protocol, f.returnsType, o.version)]
        else []
  }

  function StageAfterServer(stage: Stage, m: Message, at: nat): Stage {
    if m.Hello? then Began(at) else if m.HandshakeAck? then Listed(at) else stage
  }

  function StageAfterClient(stage: Stage, m: Message, at: nat): Stage {
    if m.HandshakeBegin? then Acked(at) else if m.HandshakeProtocols? then Done else stage
  }

  function HandleOnServer(env: Env, y: System): System
    requires y.sRead < |y.c.sent|
  {
    var m := y.c.sent[y.sRead].msg;
    y.(s := S.Handle(env.server, y.s, m), sRead := y.sRead + 1,
       h := History(y.h.kinds, y.h.born + BornBy(m), y.h.owed + OwedBy(y.s, m), y.h.mark + [|y.s.sent|],
                    StageAfterServer(y.h.stage, m, |y.s.sent|)))
  }

  /** A message that cannot be handled ends the batch and the connection. */
  function HandleOnClient(y: System): System
    requires y.cRead < |y.s.sent|
  {
    var m := y.s.sent[y.cRead];
    var r := C.Handle(y.c, m);
    y.(c := if r.ok then r.c else C.Disconnect(r.c), inBatch := r.ok, cRead := y.cRead + 1,
       h := y.h.(stage := StageAfterClient(y.h.stage, m, |y.c.sent|)))
  }

  function CreateOnServer(env: Env, y: System, w: Owed): System {
    y.(s := S.CreateObject(env.server, y.s, w.protocol, w.name, w.version, w.seq_),
       h := y.h.(born := y.h.born + [w.seq_]))
  }

  function Next(env: Env, y: System, step: Step): System
    requires Enabled(env, y, step)
  {
    match step
    case ClientBind(spec, version) =>
      y.(c := C.Bind(y.c, spec, version), h := y.h.(kinds := y.h.kinds + [Kind(spec.name, spec.objects[0], version)]))
    case ClientCall(i, k, args) =>
      y.(c := C.CallObject(env.clientImpls, y.c, i, k, args),
         h := y.h.(kinds := CallKinds(env, y.h.kinds, y.c.objects[i], k)))
    case ClientRoundtrip => y.(c := C.Roundtrip(y.c))
    case ClientHold(i, held) => y.(c := C.Hold(y.c, i, held))
    case ClientListen(i, k) => y.(c := C.Listen(y.c, i, k))
    case ClientCollect => y.(c := C.Collect(env.clientImpls, y.c))
    case ClientHandle => HandleOnClient(y)
    case ClientEndBatch => y.(c := C.EndBatch(env.clientImpls, y.c), inBatch := false)
    case ServerHandle => HandleOnServer(env, y)
    case ServerEndBatch => y.(s := S.EndBatch(y.s))
    case ServerCreate(n) => CreateOnServer(env, y, y.h.owed[n])
    case ServerCall(i, k, args) => y.(s := S.CallOut(y.s, i, k, args))
    case ServerListen(i, k) => y.(s := S.Listen(y.s, i, k))
  }

  /** Each step is allowed where it is taken. */
  predicate Honest(env: Env, y: System, steps: seq<Step>)
    decreases |steps|
  {
    steps == [] || (Enabled(env, y, steps[0]) && Honest(env, Next(env, y, steps[0]), steps[1..]))
  }

  function Run(env: Env, y: System, steps: seq<Step>): System
    requires Honest(env, y, steps)
    decreases |steps|
  {
    if steps == [] then y else Run(env, Next(env, y, steps[0]), steps[1..])
  }
}
