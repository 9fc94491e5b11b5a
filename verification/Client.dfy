/** The client's side of a connection: its objects, its calls, and what it does with each
    message of the server. */
module Client {
  import opened Bytes
  import opened Arguments
  import opened Specs
  import opened Messages
  import opened WireObject
  import opened CallRoundTrip
  import opened SpecNames
  import opened Server

  /** CClientObject. `held` says that somebody besides the table owns a reference. */
  datatype ClientObject = ClientObject(
    id: u32, seq_: u32, version: u32, spec: ObjectSpec, protocol: Text, destroyed: bool, listeners: set<nat>,
      held: bool)

  /** An outgoing message, the sequence number of the object called (0 for none), and
      whether the method called is a destructor. */
  datatype Outgoing = Outgoing(msg: Message, origin: u32, dtor: bool)

  datatype ClientState = ClientState(
    connected: bool, error: bool, handshakeDone: bool, serverSpecs: seq<ServerSpec>,
    seq_: u32, acked: u32, lastSent: u32,
    objects: seq<ClientObject>, pending: seq<Outgoing>, sent: seq<Outgoing>, calls: seq<Call>)

  function MessagesOf(es: seq<Outgoing>): (ms: seq<Message>)
    ensures |ms| == |es|
  {
    if es == [] then [] else MessagesOf(es[..|es| - 1]) + [es[|es| - 1].msg]
  }

  /** The socket sends its greeting as soon as it is open. */
  function Opened(): ClientState {
    ClientState(true, false, false, [], 0, 0, 0, [], [], [Outgoing(Hello, 0, false)], [])
  }

  /** sendMessage: nothing is sent once the descriptor is closed. */
  function Send(c: ClientState, e: Outgoing): ClientState {
    if c.connected then c.(sent := c.sent + [e]) else c
  }

  function Disconnect(c: ClientState): ClientState {
    c.(error := true, connected := false)
  }

  // Objects.

  /** Position of the first object with the sequence number, -1 when there is none. */
  function FindSeq(objects: seq<ClientObject>, q: u32): (i: int)
    ensures -1 <= i < |objects|
    ensures i >= 0 ==> objects[i].seq_ == q
  {
    if objects == [] then -1
    else if objects[0].seq_ == q then 0
    else if FindSeq(objects[1..], q) < 0 then -1 else FindSeq(objects[1..], q) + 1
  }

  /** Position of the first object with the id, -1 when there is none. */
  function FindId(objects: seq<ClientObject>, id: u32): (i: int)
    ensures -1 <= i < |objects|
    ensures i >= 0 ==> objects[i].id == id
  {
    if objects == [] then -1
    else if objects[0].id == id then 0
    else if FindId(objects[1..], id) < 0 then -1 else FindId(objects[1..], id) + 1
  }

  function WithoutId(objects: seq<ClientObject>, id: u32): seq<ClientObject> {
    if objects == [] then []
    else (if objects[0].id == id then [] else [objects[0]]) + WithoutId(objects[1..], id)
  }

  /** onSeq: the server has answered a request for an object. */
  function OnSeq(c: ClientState, q: u32, id: u32): ClientState {
    var i := FindSeq(c.objects, q);
    if i < 0 then c else c.(objects := c.objects[i := c.objects[i].(id := id)])
  }

  /** The object a call with a return type stands for, unless the client does not know the
      type. Its version is 0. */
  function MakeObject(impls: seq<ProtocolSpec>, c: ClientState, protocol: Text, name: Text, q: u32): ClientState {
    match FindProtocol(impls, protocol)
    case Missing => c
    case Found(p) =>
      match FindObject(p.objects, name)
      case NoSpec => c
      case Spec(os) => c.(objects := c.objects + [ClientObject(0, q, 0, os, protocol, false, {}, false)])
  }

  function Bind(c: ClientState, spec: ProtocolSpec, version: u32): ClientState
    requires spec.objects != []
  {
    if version > spec.version then Disconnect(c)
    else
      var q := Increment(c.seq_);
      var o := ClientObject(0, q, version, spec.objects[0], spec.name, false, {}, true);
      Send(c.(seq_ := q, objects := c.objects + [o]), Outgoing(BindProtocol(q, spec.name, version), 0, false))
  }

  // Calls.

  /** Whether `call` gets past its checks. A refused call has no effect on a client. */
  predicate Callable(o: ClientObject, k: nat) {
    k < |o.spec.c2s| && o.spec.c2s[k].since <= o.version
  }

  function SeqAfter(c: ClientState, m: Method): u32 {
    if m.Returns() then Increment(c.seq_) else c.seq_
  }

  /** `call` behind its checks: marshal, then send, or keep back until the object's id is known. */
  function CallOn(impls: seq<ProtocolSpec>, c: ClientState, o: ClientObject, k: u32, args: seq<Value>): ClientState
    requires Callable(o, k)
  {
    var m := o.spec.c2s[k];
    var q := SeqAfter(c, m);
    if !Marshallable(m.params, 0) then c.(seq_ := q, error := true)
    else
      var e := Outgoing(Generic(o.id, k, CallArgs(m, q, args)), o.seq_, m.isDestructor);
      var counted := c.(seq_ := q);
      var out := if o.id == 0 then counted.(pending := counted.pending + [e]) else Send(counted, e);
      if m.Returns() then MakeObject(impls, out, o.protocol, m.returnsType, q) else out
  }

  /** The application calls method k of the i-th object. */
  function CallObject(impls: seq<ProtocolSpec>, c: ClientState, i: nat, k: u32, args: seq<Value>): ClientState
    requires i < |c.objects|
  {
    var o := c.objects[i];
    if !Callable(o, k) then c
    else
      var marked := if o.spec.c2s[k].isDestructor then c.(objects := c.objects[i := o.(destroyed := true)]) else c;
      CallOn(impls, marked, o, k, args)
  }

  // Orphans.

  /** collectOrphanedObjects drops the object. */
  predicate Orphaned(o: ClientObject) { o.id != 0 && !o.held }

  datatype MaybeMethod = NoMethod | Auto(idx: u32)

  /** The destructor an orphan calls on its way out: the first its version allows, if that
      one needs neither arguments nor a new object. */
  function AutoDestructor(methods: seq<Method>, version: nat): MaybeMethod {
    if methods == [] then NoMethod
    else if !methods[0].isDestructor || methods[0].since > version then AutoDestructor(methods[1..], version)
    else if methods[0].Returns() || methods[0].params != [] then NoMethod
    else Auto(methods[0].idx)
  }

  /** ~CClientObject */
  function Farewell(impls: seq<ProtocolSpec>, c: ClientState, o: ClientObject): ClientState {
    if o.destroyed || o.id == 0 || !c.connected then c
    else
      match AutoDestructor(o.spec.c2s, o.version)
      case NoMethod => c
      case Auto(k) => if Callable(o, k) then CallOn(impls, c, o, k, []) else c
  }

  function Survivors(objects: seq<ClientObject>): seq<ClientObject> {
    if objects == [] then []
    else (if Orphaned(objects[0]) then [] else [objects[0]]) + Survivors(objects[1..])
  }

  function Farewells(impls: seq<ProtocolSpec>, c: ClientState, objects: seq<ClientObject>): ClientState
    decreases |objects|
  {
    if objects == [] then c
    else Farewells(impls, if Orphaned(objects[0]) then Farewell(impls, c, objects[0]) else c, objects[1..])
  }

  function Collect(impls: seq<ProtocolSpec>, c: ClientState): ClientState {
    Farewells(impls, c.(objects := Survivors(c.objects)), c.objects)
  }

  // Incoming calls.

  function DestroyIfNeeded(c: ClientState, i: nat, m: Method): ClientState
    requires i < |c.objects|
  {
    if !m.isDestructor then c
    else if c.objects[i].id == 0 then c.(objects := c.objects[i := c.objects[i].(destroyed := true)])
    else c.(objects := WithoutId(c.objects, c.objects[i].id))
  }

  function OnGeneric(c: ClientState, target: u32, k: u32, args: seq<Value>): ClientState {
    var i := FindId(c.objects, target);
    if i < 0 then Disconnect(c)
    else
      var o := c.objects[i];
      match CalledOutcome(o.spec.s2c, o.listeners, o.version, k, args)
      case Ignored => DestroyIfNeeded(c, i, o.spec.s2c[k])
      case Delivered(frame) => DestroyIfNeeded(c.(calls := c.calls + [Call(o.id, k, frame)]), i, o.spec.s2c[k])
      case _ => c
  }

  // Messages.

  datatype SpecsRead = SpecsRead(read: seq<ServerSpec>, ok: bool)

  /** The specs in front of the first string that does not parse. */
  function ReadSpecs(ps: seq<Text>): SpecsRead {
    if ps == [] then SpecsRead([], true)
    else
      match ParseSpec(ps[0])
      case BadSpec => SpecsRead([], false)
      case GoodSpec(s) => var rest := ReadSpecs(ps[1..]); SpecsRead([s] + rest.read, rest.ok)
  }

  function LearnSpecs(c: ClientState, ps: seq<Text>): ClientState {
    var specs := ReadSpecs(ps);
    var learnt := c.(serverSpecs := c.serverSpecs + specs.read, handshakeDone := true);
    if specs.ok then learnt else Disconnect(learnt)
  }

  /** The new state, and whether the rest of the batch is still handled. */
  datatype Handled = Handled(c: ClientState, ok: bool)

  function Handle(c: ClientState, m: Message): Handled {
    match m
    case HandshakeBegin(vs) =>
      if PROTOCOL_VERSION in vs then Handled(Send(c, Outgoing(HandshakeAck(PROTOCOL_VERSION), 0, false)), true)
      else Handled(c, false)
    case HandshakeProtocols(ps) => Handled(LearnSpecs(c, ps), true)
    case NewObject(id, q) => Handled(OnSeq(c, q, id), true)
    case Generic(o, k, args) => Handled(OnGeneric(c, o, k, args), true)
    case FatalError(_, _, _) => Handled(c.(error := true), true)
    case RoundtripDone(q) => Handled(c.(acked := q), true)
    case _ => Handled(c.(error := true), false)
  }

  // The end of a dispatch.

  /** A kept-back message, once its object's id is known. */
  function ResolvedTo(e: Outgoing, id: u32): Outgoing {
    if e.msg.Generic? then e.(msg := e.msg.(objectId := id)) else e
  }

  /** One kept-back message: dropped with its object, kept while there is no id, else sent. */
  function FlushOne(c: ClientState, e: Outgoing): ClientState {
    var i := FindSeq(c.objects, e.origin);
    if i < 0 then c
    else if c.objects[i].id == 0 then c.(pending := c.pending + [e])
    else Send(c, ResolvedTo(e, c.objects[i].id))
  }

  function FlushAll(c: ClientState, es: seq<Outgoing>): ClientState
    decreases |es|
  {
    if es == [] then c else FlushAll(FlushOne(c, es[0]), es[1..])
  }

  function Flush(c: ClientState): ClientState {
    FlushAll(c.(pending := []), c.pending)
  }

  function EndBatch(impls: seq<ProtocolSpec>, c: ClientState): ClientState {
    Collect(impls, Flush(c))
  }

  // Other acts of the application.

  function Roundtrip(c: ClientState): ClientState {
    if c.error then c
    else
      var n := Increment(c.lastSent);
      Send(c.(lastSent := n), Outgoing(RoundtripRequest(n), 0, false))
  }

  /** The application takes (or gives up) its reference to the i-th object. */
  function Hold(c: ClientState, i: nat, held: bool): ClientState
    requires i < |c.objects|
  {
    c.(objects := c.objects[i := c.objects[i].(held := held)])
  }

  function Listen(c: ClientState, i: nat, k: nat): ClientState
    requires i < |c.objects|
  {
    c.(objects := c.objects[i := c.objects[i].(listeners := c.objects[i].listeners + {k})])
  }
}
