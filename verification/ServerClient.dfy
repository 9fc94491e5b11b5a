/** CServerClient, and the server's half of CMessageParser: the loops and updates in place,
    proved against the specification of one client's state. */
module ServerClients {
  import opened Bytes
  import opened Arguments
  import opened Specs
  import opened SpecNames
  import opened GenericMessage
  import opened Messages
  import opened MessageCodecs
  import opened CallRoundTrip
  import opened Framing
  import opened Dispatch
  import W = WireObject
  import S = Server

  /** Every method can be walked by `called`. */
  predicate Servable(os: ObjectSpec) {
    (forall m :: m in os.c2s ==> Proper(m.params)) && (forall m :: m in os.s2c ==> Proper(m.params))
  }

  predicate AllServable(impls: seq<ProtocolSpec>) {
    forall p :: p in impls ==> forall os :: os in p.objects ==> Servable(os)
  }

  predicate EntryServable(o: S.ServerObject) {
    o.spec.Spec? ==> Servable(o.spec.os)
  }

  predicate TableServable(objects: seq<S.ServerObject>) {
    objects == [] || (EntryServable(objects[|objects| - 1]) && TableServable(objects[..|objects| - 1]))
  }

  lemma {:induction false} ServableAt(objects: seq<S.ServerObject>, i: nat)
    requires TableServable(objects) && i < |objects|
    ensures EntryServable(objects[i])
  {
    if i < |objects| - 1 {
      ServableAt(objects[..|objects| - 1], i);
    }
  }

  lemma ServableAppend(objects: seq<S.ServerObject>, o: S.ServerObject)
    requires TableServable(objects) && EntryServable(o)
    ensures TableServable(objects + [o])
  {
    assert (objects + [o])[..|objects|] == objects;
  }

  lemma {:induction false} ServableUpdate(objects: seq<S.ServerObject>, i: nat, o: S.ServerObject)
    requires TableServable(objects) && i < |objects| && EntryServable(o)
    ensures TableServable(objects[i := o])
  {
    var n := |objects| - 1;
    if i < n {
      assert objects[i := o][..n] == objects[..n][i := o];
      ServableUpdate(objects[..n], i, o);
    } else {
      assert objects[i := o][..n] == objects[..n];
    }
  }

  // Look-up loops.

  /** The first protocol with the name, as an index, or the number of protocols. */
  method SeekProtocol(impls: seq<ProtocolSpec>, name: Text) returns (i: nat)
    ensures i <= |impls|
    ensures FindProtocol(impls, name) == if i < |impls| then Found(impls[i]) else Missing
  {
    i := 0;
    assert impls[0..] == impls;
    while i < |impls|
      invariant i <= |impls|
      invariant FindProtocol(impls, name) == FindProtocol(impls[i..], name)
    {
      if impls[i].name == name {
        return;
      }
      assert impls[i..][1..] == impls[i + 1..];
      i := i + 1;
    }
  }

  method SeekObject(objects: seq<ObjectSpec>, name: Text) returns (r: MaybeSpec)
    ensures r == FindObject(objects, name)
  {
    var i := 0;
    assert objects[0..] == objects;
    while i < |objects|
      invariant i <= |objects|
      invariant FindObject(objects, name) == FindObject(objects[i..], name)
    {
      if !(objects[i].name != name && name != []) {
        return Spec(objects[i]);
      }
      assert objects[i..][1..] == objects[i + 1..];
      i := i + 1;
    }
    return NoSpec;
  }

  /** One round of erase_if: the entry is kept or not, the rest is as before. */
  lemma DropStep(kept: seq<S.ServerObject>, objects: seq<S.ServerObject>, i: nat, id: u32)
    requires i < |objects|
    ensures kept + S.Without(objects[i..], id)
      == (if objects[i].id == id then kept else kept + [objects[i]]) + S.Without(objects[i + 1..], id)
  {
    assert objects[i..][1..] == objects[i + 1..];
    var rest := S.Without(objects[i + 1..], id);
    assert [] + rest == rest;
    Assoc(kept, [objects[i]], rest);
  }

  /** erase_if over the table. */
  method DropId(objects: seq<S.ServerObject>, id: u32) returns (kept: seq<S.ServerObject>)
    requires TableServable(objects)
    ensures kept == S.Without(objects, id) && TableServable(kept)
  {
    kept := [];
    assert objects[0..] == objects;
    assert S.Without([], id) == [];
    hide S.Without, EntryServable;
    assert [] + S.Without(objects, id) == S.Without(objects, id);
    for i := 0 to |objects|
      invariant TableServable(kept) && kept + S.Without(objects[i..], id) == S.Without(objects, id)
    {
      DropStep(kept, objects, i, id);
      if objects[i].id != id {
        ServableAt(objects, i);
        ServableAppend(kept, objects[i]);
        kept := kept + [objects[i]];
      }
    }
    assert objects[|objects|..] == [] && kept + [] == kept;
  }

  class ServerClient {
    const env: S.ServerEnv
    const fd: int
    var firstPollDone: bool
    var exposed: seq<Text>
    var version: u32
    var maxId: u32
    var error: bool
    var scheduled: u32
    var objects: seq<S.ServerObject>
    var calls: seq<S.Call>
    // What the socket was given: bytes, and the descriptors beside them.
    var wire: seq<byte>
    var wireFds: seq<int>
    ghost var sent: seq<Message>

    /** The bytes given to the socket are those of the messages sent. */
    ghost predicate Valid()
      reads this
    {
      && AllServable(env.impls) && TableServable(objects)
      && wire == EncodeBatch(sent) && wireFds == BatchFds(sent)
    }

    ghost function State(): S.ServerState
      reads this
    {
      S.ServerState(firstPollDone, exposed, version, maxId, error, scheduled, objects, sent, calls)
    }

    constructor (env: S.ServerEnv, fd: int)
      requires AllServable(env.impls)
      ensures Valid() && State() == S.Connected() && this.env == env && this.fd == fd
    {
      this.env, this.fd := env, fd;
      firstPollDone, exposed, version, maxId, error, scheduled := false, [], 0, 1, false, 0;
      objects, calls, wire, wireFds, sent := [], [], [], [], [];
    }

    method SendMessage(data: seq<byte>, fds: seq<int>, ghost m: Message)
      requires Valid() && data == EncodeMessage(m) && fds == MessageFds(m)
      modifies this`wire, this`wireFds, this`sent
      ensures Valid() && State() == old(State()).(sent := old(sent) + [m])
    {
      hide EncodeMessage, MessageFds;
      BatchAppend(sent, [m]);
      assert EncodeMessage(m) + EncodeBatch([]) == EncodeMessage(m);
      assert MessageFds(m) + BatchFds([]) == MessageFds(m);
      assert [m][1..] == [];
      wire, wireFds, sent := wire + data, wireFds + fds, sent + [m];
    }

    /** Sends a fatal error and sets the error flag. */
    method Fail(culprit: u32, errorId: u32)
      requires Valid()
      modifies this`wire, this`wireFds, this`sent, this`error
      ensures Valid() && State() == S.Fails(old(State()), S.Fatal(culprit, errorId))
    {
      var data := EncodeFatalError(culprit, errorId, []);
      SendMessage(data, [], S.Fatal(culprit, errorId));
      error := true;
    }

    method SetupExposedProtocols()
      requires Valid()
      modifies this`exposed
      ensures Valid() && State() == old(State()).(exposed := old(exposed) + S.ExposedNames(env.impls, env.filter))
    {
      var i := 0;
      assert env.impls[0..] == env.impls;
      while i < |env.impls|
        invariant i <= |env.impls|
        invariant exposed + S.ExposedNames(env.impls[i..], env.filter)
          == old(exposed) + S.ExposedNames(env.impls, env.filter)
      {
        assert env.impls[i..][1..] == env.impls[i + 1..];
        var name := env.impls[i].name;
        ghost var rest := S.ExposedNames(env.impls[i + 1..], env.filter);
        if S.Passes(env.filter, name) {
          assert exposed + ([name] + rest) == exposed + [name] + rest;
          exposed := exposed + [name];
        } else {
          assert [] + rest == rest;
        }
        i := i + 1;
      }
      assert exposed + [] == exposed;
    }

    method DispatchFirstPoll()
      requires Valid()
      modifies this`firstPollDone, this`exposed
      ensures Valid() && State() == S.FirstPoll(env, old(State()))
    {
      if firstPollDone {
        return;
      }
      firstPollDone := true;
      SetupExposedProtocols();
    }

    /** The list of the handshake: `name@version` of every exposed implementation. */
    method ListProtocols() returns (names: seq<Text>)
      ensures names == Printed(S.Offered(env.impls, exposed))
    {
      names := [];
      var i := 0;
      assert env.impls[0..] == env.impls;
      while i < |env.impls|
        invariant i <= |env.impls|
        invariant names + Printed(S.Offered(env.impls[i..], exposed)) == Printed(S.Offered(env.impls, exposed))
      {
        assert env.impls[i..][1..] == env.impls[i + 1..];
        var p := env.impls[i];
        ghost var rest := S.Offered(env.impls[i + 1..], exposed);
        if p.name in exposed {
          var s := ServerSpec(p.name, p.version);
          assert ([s] + rest)[1..] == rest;
          assert names + ([PrintSpec(s)] + Printed(rest)) == names + [PrintSpec(s)] + Printed(rest);
          names := names + [PrintSpec(s)];
        } else {
          assert [] + rest == rest;
        }
        i := i + 1;
      }
      assert names + [] == names;
    }

    /** The description of a new object, as far as protocol and name allow one. */
    method Describe(bare: S.ServerObject, protocol: Text, name: Text) returns (obj: S.ServerObject, made: bool)
      requires Valid() && bare == S.ServerObject(bare.id, bare.version, NoSpec, [], false, {})
      ensures obj == S.NewEntry(env, exposed, bare.id, protocol, name, bare.version) && EntryServable(obj)
      ensures made == S.Accepts(env, exposed, protocol, name, bare.version)
    {
      obj, made := bare, false;
      var i := SeekProtocol(env.impls, protocol);
      if i < |env.impls| && protocol in exposed {
        var spec := SeekObject(env.impls[i].objects, name);
        obj := obj.(spec := spec, protocol := protocol);
        assert env.impls[i] in env.impls;
        made := spec.Spec? && obj.version <= env.impls[i].version;
      }
    }

    /** The new object enters the table before it is checked; `made` tells whether it was
        accepted. */
    method CreateObject(protocol: Text, name: Text, version': u32, seq_: u32) returns (made: bool)
      requires Valid()
      modifies this`maxId, this`objects, this`wire, this`wireFds, this`sent, this`error
      ensures Valid() && State() == S.CreateObject(env, old(State()), protocol, name, version', seq_)
      ensures made == S.Accepts(env, exposed, protocol, name, version')
    {
      hide EncodeMessage, MessageFds, S.NewEntry, S.Accepts, TableServable, EncodeBatch, BatchFds, AllServable;
      var bare := S.ServerObject(maxId, version', NoSpec, [], false, {});
      maxId := S.Increment(maxId);
      var at := |objects|;
      assert EntryServable(bare);
      ServableAppend(objects, bare);
      objects := objects + [bare];
      var obj;
      obj, made := Describe(bare, protocol, name);
      ServableUpdate(objects, at, obj);
      assert objects[at := obj] == old(objects) + [obj];
      objects := objects[at := obj];
      if made {
        NoFds(NewObject(bare.id, seq_));
        SendMessage(EncodeMessage(NewObject(bare.id, seq_)), [], NewObject(bare.id, seq_));
      } else {
        Fail(bare.id, S.NO_ERROR_ID);
      }
    }

    method DestroyObject(id: u32)
      requires Valid()
      modifies this`objects
      ensures Valid() && State() == old(State()).(objects := S.Without(old(objects), id))
    {
      var kept := DropId(objects, id);
      objects := kept;
    }

    method DestroyIfNeeded(i: nat, m: Method)
      requires Valid() && i < |objects|
      modifies this`objects
      ensures Valid() && State() == S.DestroyIfNeeded(old(State()), i, m)
    {
      if !m.isDestructor {
        return;
      }
      var o := objects[i].(destroyed := true);
      ServableAt(objects, i);
      ServableUpdate(objects, i, o);
      if o.id == 0 {
        objects := objects[i := o];
      } else {
        WithoutMarked(objects, i, o, o.id);
        objects := objects[i := o];
        DestroyObject(o.id);
      }
    }

    /** Look-up by id. */
    method Lookup(id: u32) returns (i: int)
      ensures i == S.Find(objects, id)
    {
      i := 0;
      assert objects[0..] == objects;
      while i < |objects|
        invariant 0 <= i <= |objects|
        invariant S.Find(objects, id) == if S.Find(objects[i..], id) < 0 then -1 else S.Find(objects[i..], id) + i
      {
        if objects[i].id == id {
          return;
        }
        assert objects[i..][1..] == objects[i + 1..];
        i := i + 1;
      }
      i := -1;
    }

    /** `called`, for an object of the table and a message the parser accepted. */
    method CallObject(i: nat, k: u32, span: seq<byte>, fds: seq<int>)
      requires Valid() && i < |objects| && ParseArgs(span, 0, fds).Parsed?
      modifies this`objects, this`calls, this`wire, this`wireFds, this`sent, this`error
      ensures Valid() && State() == S.CallObject(old(State()), i, k, ParseArgs(span, 0, fds).values)
    {
      hide W.CalledOutcome, ParseArgs;
      var o := objects[i];
      ServableAt(objects, i);
      var outcome := W.Called(o.MethodsIn(), o.listeners, o.version, k, span, fds);
      OutcomeInRange(o.MethodsIn(), o.listeners, o.version, k, ParseArgs(span, 0, fds).values);
      match outcome
      case Ignored => DestroyIfNeeded(i, o.MethodsIn()[k]);
      case Delivered(frame) =>
        calls := calls + [S.Call(o.id, k, frame)];
        DestroyIfNeeded(i, o.MethodsIn()[k]);
      case _ => Fail(o.id, o.id);
    }

    /** IWireObject::call on the i-th object, by the application. */
    method Call(i: nat, k: u32, args: seq<Value>)
      requires Valid() && i < |objects|
      requires var f := objects[i].MethodsOut();
        k < |f| && f[k].since <= objects[i].version && !f[k].Returns() ==> W.Fits(f[k].params, 0, args)
      modifies this`objects, this`wire, this`wireFds, this`sent, this`error
      ensures Valid() && State() == S.CallOut(old(State()), i, k, args)
    {
      hide EncodeMessage, MessageFds, EncodeBatch, BatchFds, AllServable, TableServable, W.Fits, W.Marshallable;
      var o := objects[i];
      if |o.MethodsOut()| <= k {
        Fail(o.id, o.id);
        return;
      }
      var m := o.MethodsOut()[k];
      if m.since > o.version || m.Returns() {
        Fail(o.id, o.id);
        return;
      }
      if m.isDestructor {
        Mark(i);
      }
      var ok, data, fds := MarshalCall(o.id, k, m, 0, args);
      if !ok {
        error := true;
        return;
      }
      assert CallArgs(m, 0, args) == args by { assert [] + args == args; }
      SendMessage(data, fds, Generic(o.id, k, args));
    }

    method Mark(i: nat)
      requires Valid() && i < |objects|
      modifies this`objects
      ensures Valid() && State() == old(State()).(objects := old(objects)[i := old(objects)[i].(destroyed := true)])
    {
      ServableAt(objects, i);
      ServableUpdate(objects, i, objects[i].(destroyed := true));
      objects := objects[i := objects[i].(destroyed := true)];
    }

    method OnGeneric(msg: GenericProtocolMessage)
      requires Valid() && ParseArgs(msg.span, 0, msg.fds).Parsed?
      modifies this`objects, this`calls, this`wire, this`wireFds, this`sent, this`error
      ensures Valid()
      ensures State() == S.OnGeneric(old(State()), old(msg.objectId), old(msg.method_),
        ParseArgs(old(msg.span), 0, old(msg.fds)).values)
    {
      hide S.CallObject, ParseArgs;
      var i := Lookup(msg.objectId);
      if i < 0 {
        Fail(msg.objectId, S.NO_ERROR_ID);
      } else {
        CallObject(i, msg.method_, msg.span, msg.fds);
      }
    }

    /** A generic message, from its bytes to its effect. */
    method ParseGeneric(raw: RawMessage, off: nat) returns (len: nat)
      requires Valid() && off < |raw.data|
      modifies this`objects, this`calls, this`wire, this`wireFds, this`sent, this`error, raw`fds
      ensures Valid()
      ensures match ReadGenericMessage(raw.data, off, old(raw.fds))
        case NoMessage => len == 0 && State() == old(State())
        case MessageRead(m, next, rest) =>
          off + len == next && len > 0 && raw.fds == rest && m.Generic?
          && State() == S.OnGeneric(old(State()), m.objectId, m.method_, m.args)
    {
      hide ReadGeneric, ParseArgs, S.OnGeneric, EncodeBatch, BatchFds, AllServable, TableServable;
      var msg := new GenericProtocolMessage.Parse(raw, off);
      if msg.len == 0 {
        return 0;
      }
      ghost var moved := SpanParses(raw.data, off, old(raw.fds));
      OnGeneric(msg);
      return msg.len;
    }

    /** One message: the length it took, or 0. */
    method ParseSingleMessage(raw: RawMessage, off: nat) returns (len: nat)
      requires Valid() && off < |raw.data|
      modifies this, raw`fds
      ensures Valid()
      ensures !ServerTakes(raw.data[off]) ==> len == 0 && State() == old(State()).(error := true)
      ensures ServerTakes(raw.data[off]) ==>
        match ReadMessage(raw.data, off, old(raw.fds))
        case NoMessage => len == 0 && State() == old(State())
        case MessageRead(m, next, rest) =>
          off + len == next && len > 0 && raw.fds == rest && State() == S.Handle(env, old(State()), m)
    {
      hide EncodeBatch, BatchFds, AllServable, TableServable, EncodeMessage, MessageFds, S.CreateObject, S.OnGeneric,
        S.FirstPoll, S.Offered, Printed, ReadGenericMessage, ReadBindProtocol;
      var data := raw.data;
      var code := data[off];
      if code == SUP {
        if !At(data, off, HelloBytes()) {
          return 0;
        }
        DispatchFirstPoll();
        var bytes := EncodeHandshakeBegin([S.PROTOCOL_VERSION]);
        NoFds(HandshakeBegin([S.PROTOCOL_VERSION]));
        SendMessage(bytes, [], HandshakeBegin([S.PROTOCOL_VERSION]));
        return 7;
      } else if code == HANDSHAKE_ACK {
        var m := ReadWordMessage(data, off, raw.fds);
        if m.NoMessage? {
          return 0;
        }
        version := m.msg.version;
        var names := ListProtocols();
        var bytes := EncodeHandshakeProtocols(names);
        NoFds(HandshakeProtocols(names));
        SendMessage(bytes, [], HandshakeProtocols(names));
        return m.next - off;
      } else if code == BIND_PROTOCOL {
        var len', seq_, protocol, version' := ParseBindProtocol(data, off, raw.fds);
        if len' > 0 {
          var made := CreateObject(protocol, [], version', seq_);
        }
        return len';
      } else if code == GENERIC {
        len := ParseGeneric(raw, off);
      } else if code == ROUNDTRIP_REQUEST {
        var m := ReadWordMessage(data, off, raw.fds);
        if m.NoMessage? {
          return 0;
        }
        scheduled := m.msg.request;
        return m.next - off;
      } else {
        error := true;
        return 0;
      }
    }

    /** The loop over a batch. */
    method HandleMessage(raw: RawMessage) returns (verdict: Verdict)
      requires Valid()
      modifies this, raw`fds
      ensures Valid() && ServerRun(State(), verdict) == ServerBatch(env, old(State()), raw.data, 0, old(raw.fds))
    {
      hide S.Handle, ReadMessage, ServerTakes, Valid;
      var needle := 0;
      while needle < |raw.data| && !error
        invariant Valid() && raw.data == old(raw.data)
        invariant ServerBatch(env, old(State()), raw.data, 0, old(raw.fds))
          == ServerBatch(env, State(), raw.data, needle, raw.fds)
        decreases |raw.data| - needle
      {
        var ret := ParseSingleMessage(raw, needle);
        if ret == 0 {
          return ParsedError;
        }
        needle := needle + ret;
      }
      return if raw.fds != [] then StrayFds else ParsedOk;
    }

    /** CServerSocket::dispatchClient, with what was read from the client's socket. */
    method DispatchClient(received: Received)
      requires Valid()
      modifies this
      ensures Valid() && State() == DispatchServer(env, old(State()), received)
    {
      hide EncodeBatch, BatchFds, AllServable, TableServable, EncodeMessage, MessageFds, ServerBatch;
      match received
      case Bad =>
        Fail(0, S.NO_ERROR_ID);
      case Received(data, fds) =>
        if data == [] {
          return;
        }
        var raw := new RawMessage(data, fds);
        var verdict := HandleMessage(raw);
        if !verdict.ParsedOk? {
          Fail(0, S.NO_ERROR_ID);
          return;
        }
        if scheduled > 0 {
          NoFds(RoundtripDone(scheduled));
          SendMessage(EncodeMessage(RoundtripDone(scheduled)), [], RoundtripDone(scheduled));
          scheduled := 0;
        }
    }
  }

  lemma WithoutMarked(objects: seq<S.ServerObject>, i: nat, o: S.ServerObject, id: u32)
    requires i < |objects| && objects[i].id == id && o.id == id
    ensures S.Without(objects[i := o], id) == S.Without(objects, id)
  {
    if i > 0 {
      assert objects[i := o][1..] == objects[1..][i - 1 := o];
      WithoutMarked(objects[1..], i - 1, o, id);
    } else {
      assert objects[i := o][1..] == objects[1..];
    }
  }

  lemma OutcomeInRange(methods: seq<Method>, listeners: set<nat>, version: nat, k: nat, vs: seq<Value>)
    ensures var r := W.CalledOutcome(methods, listeners, version, k, vs); r.Ignored? || r.Delivered? ==> k < |methods|
  {
  }

  lemma NoFds(m: Message)
    requires !m.Generic?
    ensures MessageFds(m) == []
  {
  }
}
