/** The constructors of the messages with variable parts, in their own cursor form. */
module MessageCodecs {
  import opened Bytes
  import opened VarInt
  import opened Arguments
  import opened GenericMessage
  import opened Messages
  import opened Specs
  import opened CallRoundTrip
  import WireObject

  // HandshakeBegin

  method EncodeHandshakeBegin(versions: seq<u32>) returns (data: seq<byte>)
    ensures data == EncodeMessage(HandshakeBegin(versions))
  {
    var n := EncodeVarInt(|versions|);
    data := [HANDSHAKE_BEGIN, ARRAY, UINT] + n;
    data := WireObject.MarshalWords(data, versions);
    Assoc([HANDSHAKE_BEGIN, ARRAY, UINT] + n, EncodeWords(versions), [END]);
    Assoc([HANDSHAKE_BEGIN, ARRAY, UINT], n, EncodeWords(versions) + [END]);
    data := data + [END];
  }

  /** `len` is 0 on rejection, else the length of the message. */
  method ParseHandshakeBegin(data: seq<byte>, offset: nat, ghost fds: seq<int>) returns (len: nat, versions: seq<u32>)
    requires offset < |data|
    ensures ReadHandshakeBegin(data, offset, fds) ==
      if len == 0 then NoMessage else MessageRead(HandshakeBegin(versions), offset + len, fds)
  {
    versions := [];
    if !At(data, offset, [HANDSHAKE_BEGIN, ARRAY, UINT]) {
      return 0, versions;
    }
    var needle := 3;
    var count := ParseVarInt(data, offset + needle);
    if count == NoNumber || count.value >= MAX_VERSIONS {
      return 0, versions;
    }
    needle := needle + count.len;
    if !EndAt(data, offset + needle + 4 * count.value) {
      return 0, versions;
    }
    for i := 0 to count.value
      invariant versions == WordsAt(data, offset + needle, i)
    {
      hide WordAt;
      WireObject.WordsAtSnoc(data, offset + needle, i);
      versions := versions + [WordAt(data, offset + needle + 4 * i)];
    }
    needle := needle + 4 * count.value;
    len := needle + 1;
  }

  // HandshakeProtocols

  method EncodeHandshakeProtocols(protocols: seq<Text>) returns (data: seq<byte>)
    ensures data == EncodeMessage(HandshakeProtocols(protocols))
  {
    var n := EncodeVarInt(|protocols|);
    data := [HANDSHAKE_PROTOCOLS, ARRAY, VARCHAR] + n;
    data := WireObject.MarshalTexts(data, protocols);
    Assoc([HANDSHAKE_PROTOCOLS, ARRAY, VARCHAR] + n, EncodeTexts(protocols), [END]);
    Assoc([HANDSHAKE_PROTOCOLS, ARRAY, VARCHAR], n, EncodeTexts(protocols) + [END]);
    data := data + [END];
  }

  method ParseHandshakeProtocols(data: seq<byte>, offset: nat, ghost fds: seq<int>) returns (len: nat,
      protocols: seq<Text>)
    ensures ReadHandshakeProtocols(data, offset, fds) ==
      if len == 0 then NoMessage else MessageRead(HandshakeProtocols(protocols), offset + len, fds)
  {
    protocols := [];
    if !At(data, offset, [HANDSHAKE_PROTOCOLS, ARRAY, VARCHAR]) {
      return 0, protocols;
    }
    var els := ParseVarInt(data, offset + 3);
    if els == NoNumber || els.value >= MAX_PROTOCOLS {
      return 0, protocols;
    }
    var needle := offset + 3 + els.len;
    var ok: bool;
    ok, protocols, needle := ParseStrings(data, needle, els.value);
    if !ok || !EndAt(data, needle) {
      return 0, protocols;
    }
    len := needle + 1 - offset;
  }

  /** The loop filling m_protocols. */
  method ParseStrings(data: seq<byte>, start: nat, els: nat) returns (ok: bool, protocols: seq<Text>, needle: nat)
    requires start <= |data|
    ensures ReadTexts(data, start, els) == if ok then TextsRead(protocols, needle) else NoTexts
    ensures needle >= start
  {
    hide ReadText, ConsTexts;
    protocols, needle := [], start;
    var i := 0;
    JoinNothing(ReadTexts(data, start, els));
    while i < els
      invariant 0 <= i <= els && start <= needle <= |data|
      invariant ReadTexts(data, start, els) == ConsTexts(protocols, ReadTexts(data, needle, els - i))
    {
      ConsTextsStep(protocols, data, needle, els - i);
      var ok', s, next := ParseString(data, needle);
      if !ok' {
        return false, protocols, needle;
      }
      protocols, needle, i := protocols + [s], next, i + 1;
    }
    ok := true;
    NothingLeft(protocols, data, needle);
  }

  method ParseString(data: seq<byte>, needle: nat) returns (ok: bool, s: Text, next: nat)
    ensures ReadText(data, needle) == if ok then TextRead(s, next) else NoText
  {
    var str := ParseVarInt(data, needle);
    ok, s, next := false, [], needle;
    if str != NoNumber && needle + str.len + str.value <= |data| {
      next := needle + str.len + str.value;
      ok, s := true, data[needle + str.len..next];
    }
  }

  // BindProtocol

  method EncodeBindProtocol(protocol: Text, seq_: u32, version: u32) returns (data: seq<byte>)
    ensures data == EncodeMessage(BindProtocol(seq_, protocol, version))
  {
    data := [BIND_PROTOCOL, UINT, 0, 0, 0, 0];
    var w := WordBytes(seq_);
    data := data[2 := w[0]][3 := w[1]][4 := w[2]][5 := w[3]];
    assert data == [BIND_PROTOCOL] + UintParam(seq_);
    ghost var head, tail := data, UintParam(version) + [END];
    data := data + [VARCHAR];
    var n := EncodeVarInt(|protocol|);
    data := data + n + protocol;
    var v := WordBytes(version);
    data := data + [UINT] + v;
    data := data + [END];
    assert data == head + ([VARCHAR] + ((n + protocol) + tail));
    Assoc([BIND_PROTOCOL], UintParam(seq_), [VARCHAR] + (EncodeText(protocol) + tail));
  }

  method ParseBindProtocol(data: seq<byte>, offset: nat, ghost fds: seq<int>)
    returns (len: nat, seq_: u32, protocol: Text, version: u32)
    requires offset < |data|
    ensures ReadBindProtocol(data, offset, fds) ==
      if len == 0 then NoMessage else MessageRead(BindProtocol(seq_, protocol, version), offset + len, fds)
  {
    len, seq_, protocol, version := 0, 0, [], 0;
    if offset + 6 > |data| || data[offset + 1] != UINT {
      return;
    }
    seq_ := WordAt(data, offset + 2);
    if offset + 6 >= |data| || data[offset + 6] != VARCHAR {
      return;
    }
    var needle := 7;
    var n := ParseVarInt(data, offset + needle);
    if n == NoNumber {
      return;
    }
    needle := needle + n.len;
    if offset + needle + n.value > |data| {
      return;
    }
    protocol := data[offset + needle..offset + needle + n.value];
    needle := needle + n.value;
    if offset + needle + 5 > |data| || data[offset + needle] != UINT {
      return;
    }
    version := WordAt(data, offset + needle + 1);
    if version == 0 {
      return;
    }
    needle := needle + 5;
    if !EndAt(data, offset + needle) {
      return;
    }
    len := needle + 1;
  }

  // FatalProtocolError

  method EncodeFatalError(objectId: u32, errorId: u32, msg: Text) returns (data: seq<byte>)
    ensures data == EncodeMessage(FatalError(objectId, errorId, msg))
  {
    var o, e := WordBytes(objectId), WordBytes(errorId);
    data := [FATAL_PROTOCOL_ERROR, UINT, 0, 0, 0, 0, UINT, 0, 0, 0, 0, VARCHAR];
    data := data[2 := o[0]][3 := o[1]][4 := o[2]][5 := o[3]];
    data := data[7 := e[0]][8 := e[1]][9 := e[2]][10 := e[3]];
    assert data == [FATAL_PROTOCOL_ERROR] + (UintParam(objectId) + (UintParam(errorId) + [VARCHAR]));
    var n := EncodeVarInt(|msg|);
    ghost var tail := EncodeText(msg) + [END];
    data := data + n + msg;
    data := data + [END];
    assert data == [FATAL_PROTOCOL_ERROR] + (UintParam(objectId) + (UintParam(errorId) + [VARCHAR])) + tail;
    FatalShape(objectId, errorId, tail);
  }

  lemma FatalShape(o: u32, e: u32, tail: seq<byte>)
    ensures [FATAL_PROTOCOL_ERROR] + (UintParam(o) + (UintParam(e) + [VARCHAR])) + tail
      == [FATAL_PROTOCOL_ERROR] + (UintParam(o) + (UintParam(e) + ([VARCHAR] + tail)))
  {
    Assoc(UintParam(e), [VARCHAR], tail);
    Assoc(UintParam(o), UintParam(e) + [VARCHAR], tail);
  }

  method ParseFatalError(data: seq<byte>, offset: nat, ghost fds: seq<int>)
    returns (len: nat, objectId: u32, errorId: u32, msg: Text)
    requires offset < |data|
    ensures ReadFatalError(data, offset, fds) ==
      if len == 0 then NoMessage else MessageRead(FatalError(objectId, errorId, msg), offset + len, fds)
  {
    len, objectId, errorId, msg := 0, 0, 0, [];
    if offset + 6 > |data| || data[offset + 1] != UINT {
      return;
    }
    objectId := WordAt(data, offset + 2);
    if offset + 11 > |data| || data[offset + 6] != UINT {
      return;
    }
    errorId := WordAt(data, offset + 7);
    if offset + 11 >= |data| || data[offset + 11] != VARCHAR {
      return;
    }
    var needle := 12;
    var n := ParseVarInt(data, offset + needle);
    if n == NoNumber {
      return;
    }
    needle := needle + n.len;
    if offset + needle + n.value > |data| {
      return;
    }
    msg := data[offset + needle..offset + needle + n.value];
    needle := needle + n.value;
    if !EndAt(data, offset + needle) {
      return;
    }
    len := needle + 1;
  }

  // Calls

  /** The bytes and descriptors of a call. It fails on arrays of unsupported elements. */
  method MarshalCall(objectId: u32, k: u32, m: Method, q: u32, args: seq<Value>) returns (ok: bool, data: seq<byte>,
      fds: seq<int>)
    requires WireObject.Fits(m.params, 0, args)
    ensures ok <==> WireObject.Marshallable(m.params, 0)
    ensures ok ==>
      data == EncodeMessage(Generic(objectId, k, CallArgs(m, q, args))) &&
        fds == MessageFds(Generic(objectId, k, CallArgs(m, q, args)))
  {
    data := [GENERIC, OBJECT] + WordBytes(objectId);
    data := data + ([UINT] + WordBytes(k));
    ghost var head := data;
    if m.Returns() {
      data := data + ([SEQ] + WordBytes(q));
    }
    var bytes;
    ok, bytes, fds := WireObject.MarshalArgs(m.params, args);
    if ok {
      CallBytes(m, q, args);
      data := data + bytes;
      data := data + [END];
      MarshalledShape(head, if m.Returns() then [SEQ] + WordBytes(q) else [], bytes, objectId, k, CallArgs(m, q, args));
    }
  }

  lemma CallBytes(m: Method, q: u32, args: seq<Value>)
    ensures EncodeAll(CallArgs(m, q, args)) == (if m.Returns() then [SEQ] + WordBytes(q) else []) + EncodeAll(args)
    ensures DescriptorsOf(CallArgs(m, q, args)) == DescriptorsOf(args)
  {
    if m.Returns() {
      assert CallArgs(m, q, args)[1..] == args;
    } else {
      assert [] + args == args;
    }
  }

  lemma MarshalledShape(head: seq<byte>, seq_: seq<byte>, bytes: seq<byte>, objectId: u32, k: u32, all: seq<Value>)
    requires head == [GENERIC, OBJECT] + WordBytes(objectId) + ([UINT] + WordBytes(k)) && EncodeAll(all) == seq_ + bytes
    ensures head + seq_ + bytes + [END] == Marshalled(objectId, k, all)
    ensures seq_ == [] ==> head + bytes + [END] == Marshalled(objectId, k, all)
  {
    Assoc(head, seq_, bytes);
    Assoc(head, seq_ + bytes, [END]);
    assert seq_ == [] ==> head + seq_ == head;
  }
}
