/** One connected client as the server sees it: what each message and each call of the
    server application does to its state. */
module Server {
  import opened Bytes
  import opened Arguments
  import opened Specs
  import opened Messages
  import opened WireObject
  import opened SpecNames

  const NO_ERROR_ID: u32 := 0xFFFF_FFFF
  const PROTOCOL_VERSION: u32 := 1

  /** CServerObject. The entry of a refused object may lack its description. */
  datatype ServerObject = ServerObject(id: u32, version: u32, spec: MaybeSpec, protocol: Text, destroyed: bool,
    listeners: set<nat>)
  {
    function MethodsIn(): seq<Method> {
      match spec
      case NoSpec => []
      case Spec(os) => os.c2s
    }

    function MethodsOut(): seq<Method> {
      match spec
      case NoSpec => []
      case Spec(os) => os.s2c
    }
  }

  /** A listener's invocation and its frame. */
  datatype Call = Call(target: u32, method_: u32, frame: seq<Slot>)

  /** What the application registered: implementations, and the client's protocol filter. */
  datatype ServerEnv = ServerEnv(impls: seq<ProtocolSpec>, filter: Filter)
  datatype Filter = NoFilter | Passing(names: set<Text>)

  datatype ServerState = ServerState(
    firstPollDone: bool, exposed: seq<Text>, version: u32, maxId: u32, error: bool, scheduled: u32,
    objects: seq<ServerObject>, sent: seq<Message>, calls: seq<Call>)

  function Connected(): ServerState {
    ServerState(false, [], 0, 1, false, 0, [], [], [])
  }

  /** uint32_t increment. */
  function Increment(n: u32): u32 { (n + 1) % 0x1_0000_0000 }

  /** The wording of error texts is not modelled. */
  function Fatal(culprit: u32, errorId: u32): Message { FatalError(culprit, errorId, []) }

  function Fails(s: ServerState, m: Message): ServerState {
    s.(error := true, sent := s.sent + [m])
  }

  // Handshake.

  predicate Passes(f: Filter, name: Text) {
    f.NoFilter? || name in f.names
  }

  function ExposedNames(impls: seq<ProtocolSpec>, f: Filter): seq<Text> {
    if impls == [] then []
    else (if Passes(f, impls[0].name) then [impls[0].name] else []) + ExposedNames(impls[1..], f)
  }

  function FirstPoll(env: ServerEnv, s: ServerState): ServerState {
    if s.firstPollDone then s
    else s.(firstPollDone := true, exposed := s.exposed + ExposedNames(env.impls, env.filter))
  }

  /** The registered protocols whose names are exposed, in registration order. */
  function Offered(impls: seq<ProtocolSpec>, exposed: seq<Text>): seq<ServerSpec> {
    if impls == [] then []
    else
      (if impls[0].name in exposed then [ServerSpec(impls[0].name, impls[0].version)] else [])
      + Offered(impls[1..], exposed)
  }

  // Objects.

  /** Position of the first object with the id, -1 when there is none. */
  function Find(objects: seq<ServerObject>, id: u32): (i: int)
    ensures -1 <= i < |objects|
    ensures i >= 0 ==> objects[i].id == id
  {
    if objects == [] then -1
    else if objects[0].id == id then 0
    else if Find(objects[1..], id) < 0 then -1 else Find(objects[1..], id) + 1
  }

  /** erase_if on the id. */
  function Without(objects: seq<ServerObject>, id: u32): seq<ServerObject> {
    if objects == [] then []
    else (if objects[0].id == id then [] else [objects[0]]) + Without(objects[1..], id)
  }

  /** The table entry createObject leaves, and whether the object is accepted. */
  function NewEntry(env: ServerEnv, exposed: seq<Text>, id: u32, protocol: Text, name: Text,
      version: u32): ServerObject {
    var bare := ServerObject(id, version, NoSpec, [], false, {});
    match FindProtocol(env.impls, protocol)
    case Missing => bare
    case Found(p) =>
      if protocol !in exposed then bare
      else bare.(spec := FindObject(p.objects, name), protocol := protocol)
  }

  predicate Accepts(env: ServerEnv, exposed: seq<Text>, protocol: Text, name: Text, version: u32) {
    match FindProtocol(env.impls, protocol)
    case Missing => false
    case Found(p) => protocol in exposed && FindObject(p.objects, name).Spec? && version <= p.version
  }

  function CreateObject(env: ServerEnv, s: ServerState, protocol: Text, name: Text, version: u32,
      seq_: u32): ServerState {
    var entry := NewEntry(env, s.exposed, s.maxId, protocol, name, version);
    var grown := s.(maxId := Increment(s.maxId), objects := s.objects + [entry]);
    if Accepts(env, s.exposed, protocol, name, version) then grown.(sent := s.sent + [NewObject(s.maxId, seq_)])
    else Fails(grown, Fatal(s.maxId, NO_ERROR_ID))
  }

  // Calls.

  /** destroyIfNeeded on the i-th object. */
  function DestroyIfNeeded(s: ServerState, i: nat, m: Method): ServerState
    requires i < |s.objects|
  {
    if !m.isDestructor then s
    else if s.objects[i].id == 0 then s.(objects := s.objects[i := s.objects[i].(destroyed := true)])
    else s.(objects := Without(s.objects, s.objects[i].id))
  }

  /** `called` on the i-th object. */
  function CallObject(s: ServerState, i: nat, k: u32, args: seq<Value>): ServerState
    requires i < |s.objects|
  {
    var o := s.objects[i];
    match CalledOutcome(o.MethodsIn(), o.listeners, o.version, k, args)
    case Ignored => DestroyIfNeeded(s, i, o.MethodsIn()[k])
    case Delivered(frame) => DestroyIfNeeded(s.(calls := s.calls + [Call(o.id, k, frame)]), i, o.MethodsIn()[k])
    case _ => Fails(s, Fatal(o.id, o.id))
  }

  function OnGeneric(s: ServerState, target: u32, k: u32, args: seq<Value>): ServerState {
    var i := Find(s.objects, target);
    if i < 0 then Fails(s, Fatal(target, NO_ERROR_ID)) else CallObject(s, i, k, args)
  }

  // Messages.

  /** The messages a server takes; any other kind is an error on sight. */
  predicate FromClient(m: Message) {
    m.Hello? || m.HandshakeAck? || m.BindProtocol? || m.Generic? || m.RoundtripRequest?
  }

  function Handle(env: ServerEnv, s: ServerState, m: Message): ServerState {
    match m
    case Hello =>
      var polled := FirstPoll(env, s);
      polled.(sent := polled.sent + [HandshakeBegin([PROTOCOL_VERSION])])
    case HandshakeAck(v) =>
      s.(version := v, sent := s.sent + [HandshakeProtocols(Printed(Offered(env.impls, s.exposed)))])
    case BindProtocol(q, p, v) => CreateObject(env, s, p, [], v, q)
    case Generic(o, k, args) => OnGeneric(s, o, k, args)
    case RoundtripRequest(q) => s.(scheduled := q)
    case _ => s.(error := true)
  }

  /** The end of a dispatch that parsed: only the last request of the batch is answered. */
  function EndBatch(s: ServerState): ServerState {
    if s.scheduled > 0 then s.(sent := s.sent + [RoundtripDone(s.scheduled)], scheduled := 0) else s
  }

  /** Handling stops at the first message that sets the error. */
  function HandleAll(env: ServerEnv, s: ServerState, ms: seq<Message>): ServerState
    decreases |ms|
  {
    if ms == [] || s.error then s else HandleAll(env, Handle(env, s, ms[0]), ms[1..])
  }

  /** The application calls method k of the i-th object. */
  function CallOut(s: ServerState, i: nat, k: nat, args: seq<Value>): ServerState
    requires i < |s.objects| && k < 0x1_0000_0000
  {
    var o := s.objects[i];
    if k >= |o.MethodsOut()| || o.MethodsOut()[k].since > o.version || o.MethodsOut()[k].Returns() then
      Fails(s, Fatal(o.id, o.id))
    else
      var m := o.MethodsOut()[k];
      var marked := if m.isDestructor then s.objects[i := o.(destroyed := true)] else s.objects;
      if !Marshallable(m.params, 0) then s.(objects := marked, error := true)
      else s.(objects := marked, sent := s.sent + [Generic(o.id, k, args)])
  }

  /** The application registers a listener for method k of the i-th object. */
  function Listen(s: ServerState, i: nat, k: nat): ServerState
    requires i < |s.objects|
  {
    s.(objects := s.objects[i := s.objects[i].(listeners := s.objects[i].listeners + {k})])
  }
}
