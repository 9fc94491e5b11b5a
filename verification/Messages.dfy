/** The wire messages: their bytes, their parsing constructors, and the reference reading
    that takes one message off the front of a batch. */
module Messages {
  import opened Bytes
  import opened VarInt
  import opened Arguments
  import opened GenericMessage

  datatype Message =
    | Hello
    | HandshakeBegin(versions: seq<u32>)
    | HandshakeAck(version: u32)
    | HandshakeProtocols(protocols: seq<Text>)
    | BindProtocol(seq_: u32, protocol: Text, bindVersion: u32)
    | NewObject(id: u32, forSeq: u32)
    | FatalError(culprit: u32, errorId: u32, text: Text)
    | RoundtripRequest(request: u32)
    | RoundtripDone(answered: u32)
    | Generic(objectId: u32, method_: u32, args: seq<Value>)

  // eMessageType
  const SUP: byte := 1
  const HANDSHAKE_BEGIN: byte := 2
  const HANDSHAKE_ACK: byte := 3
  const HANDSHAKE_PROTOCOLS: byte := 4
  const BIND_PROTOCOL: byte := 10
  const NEW_OBJECT: byte := 11
  const FATAL_PROTOCOL_ERROR: byte := 12
  const ROUNDTRIP_REQUEST: byte := 13
  const ROUNDTRIP_DONE: byte := 14

  const MAX_VERSIONS: nat := 256
  const MAX_PROTOCOLS: nat := 2048

  function HelloBytes(): seq<byte> { [SUP, VARCHAR, 3, 0x56, 0x41, 0x58, END] }

  /** A word parameter: its code and its four bytes. */
  function UintParam(w: u32): seq<byte> { [UINT] + WordBytes(w) }

  function EncodeMessage(m: Message): seq<byte> {
    match m
    case Hello => HelloBytes()
    case HandshakeBegin(vs) => [HANDSHAKE_BEGIN, ARRAY, UINT] + (Written(|vs|) + (EncodeWords(vs) + [END]))
    case HandshakeAck(v) => [HANDSHAKE_ACK] + (UintParam(v) + [END])
    case HandshakeProtocols(ps) => [HANDSHAKE_PROTOCOLS, ARRAY, VARCHAR] + (Written(|ps|) + (EncodeTexts(ps) + [END]))
    case BindProtocol(s, p, v) =>
      [BIND_PROTOCOL] + (UintParam(s) + ([VARCHAR] + (EncodeText(p) + (UintParam(v) + [END]))))
    case NewObject(id, s) => [NEW_OBJECT] + (UintParam(id) + (UintParam(s) + [END]))
    case FatalError(o, e, t) =>
      [FATAL_PROTOCOL_ERROR] + (UintParam(o) + (UintParam(e) + ([VARCHAR] + (EncodeText(t) + [END]))))
    case RoundtripRequest(s) => [ROUNDTRIP_REQUEST] + (UintParam(s) + [END])
    case RoundtripDone(s) => [ROUNDTRIP_DONE] + (UintParam(s) + [END])
    case Generic(o, k, args) => Marshalled(o, k, args)
  }

  function MessageFds(m: Message): seq<int> {
    if m.Generic? then DescriptorsOf(m.args) else []
  }

  /** Within the limits the receiving constructors impose. */
  predicate Transmissible(m: Message) {
    match m
    case HandshakeBegin(vs) => |vs| < MAX_VERSIONS
    case HandshakeProtocols(ps) => |ps| < MAX_PROTOCOLS && ShortTexts(ps)
    case BindProtocol(_, p, v) => |p| < LIMIT && v != 0
    case FatalError(_, _, t) => |t| < LIMIT
    case Generic(_, _, args) => AllSendable(args)
    case _ => true
  }

  /** A message, the position behind it, and the descriptors left in the queue. */
  datatype MessageRead = NoMessage | MessageRead(msg: Message, next: nat, rest: seq<int>)

  // Cursors shared by the reference readings.

  datatype WordRead = NoWord | WordRead(w: u32, next: nat)

  function ReadUint(data: seq<byte>, i: nat): (r: WordRead)
    ensures r.WordRead? ==> r.next == i + 5 <= |data|
  {
    if i + 5 <= |data| && data[i] == UINT then WordRead(WordAt(data, i + 1), i + 5) else NoWord
  }

  predicate EndAt(data: seq<byte>, i: nat) { i < |data| && data[i] == END }

  /** The three messages that carry one word. */
  function WordMessage(code: byte, w: u32): Message {
    if code == HANDSHAKE_ACK then HandshakeAck(w)
    else if code == ROUNDTRIP_REQUEST then RoundtripRequest(w)
    else RoundtripDone(w)
  }

  function ReadWordMessage(data: seq<byte>, offset: nat, fds: seq<int>): MessageRead
    requires offset < |data|
  {
    match ReadUint(data, offset + 1)
    case NoWord => NoMessage
    case WordRead(w, next) =>
      if EndAt(data, next) then MessageRead(WordMessage(data[offset], w), next + 1, fds) else NoMessage
  }

  function ReadHandshakeBegin(data: seq<byte>, offset: nat, fds: seq<int>): MessageRead {
    if !At(data, offset, [HANDSHAKE_BEGIN, ARRAY, UINT]) then NoMessage else
      match ReadVarInt(data, offset + 3)
      case NoNumber => NoMessage
      case Number(count, len) =>
        var start := offset + 3 + len;
        if count < MAX_VERSIONS && EndAt(data, start + 4 * count)
        then MessageRead(HandshakeBegin(WordsAt(data, start, count)), start + 4 * count + 1, fds)
        else NoMessage
  }

  function ReadHandshakeProtocols(data: seq<byte>, offset: nat, fds: seq<int>): MessageRead {
    if !At(data, offset, [HANDSHAKE_PROTOCOLS, ARRAY, VARCHAR]) then NoMessage else
      match ReadVarInt(data, offset + 3)
      case NoNumber => NoMessage
      case Number(count, len) =>
        if count >= MAX_PROTOCOLS then NoMessage else
          match ReadTexts(data, offset + 3 + len, count)
          case NoTexts => NoMessage
          case TextsRead(ps, next) =>
            if EndAt(data, next) then MessageRead(HandshakeProtocols(ps), next + 1, fds) else NoMessage
  }

  /** VARCHAR and the string behind it. */
  function ReadVarchar(data: seq<byte>, i: nat): (r: TextRead)
    ensures r.TextRead? ==> i < r.next <= |data|
  {
    if i < |data| && data[i] == VARCHAR then ReadText(data, i + 1) else NoText
  }

  function ReadBindProtocol(data: seq<byte>, offset: nat, fds: seq<int>): MessageRead {
    match ReadUint(data, offset + 1)
    case NoWord => NoMessage
    case WordRead(s, i) =>
      match ReadVarchar(data, i)
      case NoText => NoMessage
      case TextRead(p, j) =>
        match ReadUint(data, j)
        case NoWord => NoMessage
        case WordRead(v, k) =>
          if v != 0 && EndAt(data, k) then MessageRead(BindProtocol(s, p, v), k + 1, fds) else NoMessage
  }

  function ReadNewObject(data: seq<byte>, offset: nat, fds: seq<int>): MessageRead {
    match ReadUint(data, offset + 1)
    case NoWord => NoMessage
    case WordRead(id, i) =>
      match ReadUint(data, i)
      case NoWord => NoMessage
      case WordRead(s, j) => if EndAt(data, j) then MessageRead(NewObject(id, s), j + 1, fds) else NoMessage
  }

  function ReadFatalError(data: seq<byte>, offset: nat, fds: seq<int>): MessageRead {
    match ReadUint(data, offset + 1)
    case NoWord => NoMessage
    case WordRead(o, i) =>
      match ReadUint(data, i)
      case NoWord => NoMessage
      case WordRead(e, j) =>
        match ReadVarchar(data, j)
        case NoText => NoMessage
        case TextRead(t, k) => if EndAt(data, k) then MessageRead(FatalError(o, e, t), k + 1, fds) else NoMessage
  }

  function ReadGenericMessage(data: seq<byte>, offset: nat, fds: seq<int>): MessageRead {
    match ReadGeneric(data, offset, fds)
    case NotGeneric => NoMessage
    case GenericRead(o, k, args) => MessageRead(Generic(o, k, args.values), args.end + 1, args.rest)
  }

  /** The message at offset, by its type code. */
  function ReadMessage(data: seq<byte>, offset: nat, fds: seq<int>): (r: MessageRead)
    requires offset < |data|
  {
    var code := data[offset];
    if code == SUP then if At(data, offset, HelloBytes()) then MessageRead(Hello, offset + 7, fds) else NoMessage
    else if code == HANDSHAKE_BEGIN then ReadHandshakeBegin(data, offset, fds)
    else if code == HANDSHAKE_ACK || code == ROUNDTRIP_REQUEST || code == ROUNDTRIP_DONE then
      ReadWordMessage(data, offset, fds)
    else if code == HANDSHAKE_PROTOCOLS then ReadHandshakeProtocols(data, offset, fds)
    else if code == BIND_PROTOCOL then ReadBindProtocol(data, offset, fds)
    else if code == NEW_OBJECT then ReadNewObject(data, offset, fds)
    else if code == FATAL_PROTOCOL_ERROR then ReadFatalError(data, offset, fds)
    else if code == GENERIC then ReadGenericMessage(data, offset, fds)
    else NoMessage
  }

  /** Every message read takes at least one byte and ends inside the batch. */
  lemma ReadMessageProgress(data: seq<byte>, offset: nat, fds: seq<int>)
    requires offset < |data| && ReadMessage(data, offset, fds).MessageRead?
    ensures offset < ReadMessage(data, offset, fds).next <= |data|
  {
  }

  // Each message is read back from its own bytes.

  lemma UintAt(data: seq<byte>, i: nat, w: u32, tail: seq<byte>)
    requires At(data, i, UintParam(w) + tail)
    ensures ReadUint(data, i) == WordRead(w, i + 5) && At(data, i + 5, tail)
  {
    AtAppend(data, i, UintParam(w), tail);
    AtAppend(data, i, [UINT], WordBytes(w));
    AtIndex(data, i, [UINT], 0);
    WordAtEncoded(data, i + 1, w);
  }

  lemma EndAtEnd(data: seq<byte>, i: nat)
    requires At(data, i, [END])
    ensures EndAt(data, i)
  {
    AtIndex(data, i, [END], 0);
  }

  /** The type code, and what stands behind it. */
  lemma CodeAt(data: seq<byte>, i: nat, code: byte, tail: seq<byte>)
    requires At(data, i, [code] + tail)
    ensures i < |data| && data[i] == code && At(data, i + 1, tail)
  {
    AtAppend(data, i, [code], tail);
    AtIndex(data, i, [code], 0);
  }

  lemma VarcharAt(data: seq<byte>, i: nat, s: Text, tail: seq<byte>) returns (next: nat)
    requires |s| < LIMIT && At(data, i, [VARCHAR] + (EncodeText(s) + tail))
    ensures ReadVarchar(data, i) == TextRead(s, next) && At(data, next, tail)
    ensures next + |tail| == i + |[VARCHAR] + (EncodeText(s) + tail)|
  {
    CodeAt(data, i, VARCHAR, EncodeText(s) + tail);
    AtAppend(data, i + 1, EncodeText(s), tail);
    ReadTextEncoded(data, i + 1, s);
    next := i + 1 + |EncodeText(s)|;
  }

  /** What it means for a message to be read back from offset. */
  predicate ReadsBack(data: seq<byte>, offset: nat, m: Message, more: seq<int>) {
    offset < |data| &&
    ReadMessage(data, offset, MessageFds(m) + more) == MessageRead(m, offset + |EncodeMessage(m)|, more)
  }

  lemma ReadWordMessageEncoded(data: seq<byte>, offset: nat, m: Message, more: seq<int>)
    requires m.HandshakeAck? || m.RoundtripRequest? || m.RoundtripDone?
    requires At(data, offset, EncodeMessage(m))
    ensures ReadsBack(data, offset, m, more)
  {
    assert [] + more == more;
    var w := if m.HandshakeAck? then m.version else if m.RoundtripRequest? then m.request else m.answered;
    var code := if m.HandshakeAck? then HANDSHAKE_ACK else if m.RoundtripRequest? then ROUNDTRIP_REQUEST
      else ROUNDTRIP_DONE;
    CodeAt(data, offset, code, UintParam(w) + [END]);
    UintAt(data, offset + 1, w, [END]);
    EndAtEnd(data, offset + 6);
  }

  lemma ReadNewObjectEncoded(data: seq<byte>, offset: nat, id: u32, s: u32, more: seq<int>)
    requires At(data, offset, EncodeMessage(NewObject(id, s)))
    ensures ReadsBack(data, offset, NewObject(id, s), more)
  {
    assert [] + more == more;
    CodeAt(data, offset, NEW_OBJECT, UintParam(id) + (UintParam(s) + [END]));
    UintAt(data, offset + 1, id, UintParam(s) + [END]);
    UintAt(data, offset + 6, s, [END]);
    EndAtEnd(data, offset + 11);
  }

  lemma ReadBindEncoded(data: seq<byte>, offset: nat, s: u32, p: Text, v: u32, more: seq<int>)
    requires |p| < LIMIT && v != 0 && At(data, offset, EncodeMessage(BindProtocol(s, p, v)))
    ensures ReadsBack(data, offset, BindProtocol(s, p, v), more)
  {
    hide At, EncodeText, ReadBindProtocol;
    assert [] + more == more;
    ReadBindBody(data, offset, s, p, v, more);
  }

  lemma ReadBindBody(data: seq<byte>, offset: nat, s: u32, p: Text, v: u32, more: seq<int>)
    requires |p| < LIMIT && v != 0
    requires At(data, offset, [BIND_PROTOCOL] + (UintParam(s) + ([VARCHAR] + (EncodeText(p) + (UintParam(v) + [END])))))
    ensures offset < |data| && data[offset] == BIND_PROTOCOL
    ensures ReadBindProtocol(data, offset, more) == MessageRead(BindProtocol(s, p, v),
      offset + |[BIND_PROTOCOL] + (UintParam(s) + ([VARCHAR] + (EncodeText(p) + (UintParam(v) + [END]))))|, more)
  {
    hide At, EncodeText, ReadVarchar, ReadUint, EndAt;
    var tail := UintParam(v) + [END];
    CodeAt(data, offset, BIND_PROTOCOL, UintParam(s) + ([VARCHAR] + (EncodeText(p) + tail)));
    UintAt(data, offset + 1, s, [VARCHAR] + (EncodeText(p) + tail));
    var j := VarcharAt(data, offset + 6, p, tail);
    UintAt(data, j, v, [END]);
    EndAtEnd(data, j + 5);
  }

  lemma ReadFatalEncoded(data: seq<byte>, offset: nat, o: u32, e: u32, t: Text, more: seq<int>)
    requires |t| < LIMIT && At(data, offset, EncodeMessage(FatalError(o, e, t)))
    ensures ReadsBack(data, offset, FatalError(o, e, t), more)
  {
    hide At, EncodeText, ReadFatalError;
    assert [] + more == more;
    ReadFatalBody(data, offset, o, e, t, more);
  }

  lemma ReadFatalBody(data: seq<byte>, offset: nat, o: u32, e: u32, t: Text, more: seq<int>)
    requires |t| < LIMIT
    requires At(data, offset,
      [FATAL_PROTOCOL_ERROR] + (UintParam(o) + (UintParam(e) + ([VARCHAR] + (EncodeText(t) + [END])))))
    ensures offset < |data| && data[offset] == FATAL_PROTOCOL_ERROR
    ensures ReadFatalError(data, offset, more) == MessageRead(FatalError(o, e, t),
      offset + |[FATAL_PROTOCOL_ERROR] + (UintParam(o) + (UintParam(e) + ([VARCHAR] + (EncodeText(t) + [END]))))|, more)
  {
    hide At, EncodeText, ReadVarchar, ReadUint, EndAt;
    var tail := [VARCHAR] + (EncodeText(t) + [END]);
    CodeAt(data, offset, FATAL_PROTOCOL_ERROR, UintParam(o) + (UintParam(e) + tail));
    UintAt(data, offset + 1, o, UintParam(e) + tail);
    UintAt(data, offset + 6, e, tail);
    var k := VarcharAt(data, offset + 11, t, [END]);
    EndAtEnd(data, k);
  }

  /** An array header and its count. */
  lemma CountAt(data: seq<byte>, i: nat, head: seq<byte>, count: nat, tail: seq<byte>) returns (start: nat)
    requires |head| == 3 && count < LIMIT && At(data, i, head + (Written(count) + tail))
    ensures i + 3 <= |data| && data[i] == head[0] && At(data, i, head)
    ensures i + 3 <= start && ReadVarInt(data, i + 3) == Number(count, start - (i + 3)) && At(data, start, tail)
    ensures start + |tail| == i + |head + (Written(count) + tail)|
  {
    AtAppend(data, i, head, Written(count) + tail);
    AtIndex(data, i, head, 0);
    AtAppend(data, i + 3, Written(count), tail);
    ReadEncoded(data, i + 3, count);
    start := i + 3 + |Written(count)|;
  }

  lemma ReadBeginBody(data: seq<byte>, offset: nat, vs: seq<u32>, more: seq<int>)
    requires |vs| < MAX_VERSIONS
    requires At(data, offset, [HANDSHAKE_BEGIN, ARRAY, UINT] + (Written(|vs|) + (EncodeWords(vs) + [END])))
    ensures offset < |data| && data[offset] == HANDSHAKE_BEGIN
    ensures ReadHandshakeBegin(data, offset, more) == MessageRead(HandshakeBegin(vs),
      offset + |[HANDSHAKE_BEGIN, ARRAY, UINT] + (Written(|vs|) + (EncodeWords(vs) + [END]))|, more)
  {
    hide At, EncodeWords, Written, ReadVarInt, WordsAt, EndAt;
    var start := CountAt(data, offset, [HANDSHAKE_BEGIN, ARRAY, UINT], |vs|, EncodeWords(vs) + [END]);
    AtAppend(data, start, EncodeWords(vs), [END]);
    WordsAtEncoded(data, start, vs);
    EndAtEnd(data, start + 4 * |vs|);
  }

  lemma ReadBeginEncoded(data: seq<byte>, offset: nat, vs: seq<u32>, more: seq<int>)
    requires |vs| < MAX_VERSIONS && At(data, offset, EncodeMessage(HandshakeBegin(vs)))
    ensures ReadsBack(data, offset, HandshakeBegin(vs), more)
  {
    hide At, EncodeWords, Written, ReadHandshakeBegin;
    assert [] + more == more;
    ReadBeginBody(data, offset, vs, more);
  }

  lemma ReadProtocolsBody(data: seq<byte>, offset: nat, ps: seq<Text>, more: seq<int>)
    requires |ps| < MAX_PROTOCOLS && ShortTexts(ps)
    requires At(data, offset, [HANDSHAKE_PROTOCOLS, ARRAY, VARCHAR] + (Written(|ps|) + (EncodeTexts(ps) + [END])))
    ensures offset < |data| && data[offset] == HANDSHAKE_PROTOCOLS
    ensures ReadHandshakeProtocols(data, offset, more) == MessageRead(HandshakeProtocols(ps),
      offset + |[HANDSHAKE_PROTOCOLS, ARRAY, VARCHAR] + (Written(|ps|) + (EncodeTexts(ps) + [END]))|, more)
  {
    hide At, ReadTexts, EncodeTexts, Written, ReadVarInt, ShortTexts, EndAt;
    var start := CountAt(data, offset, [HANDSHAKE_PROTOCOLS, ARRAY, VARCHAR], |ps|, EncodeTexts(ps) + [END]);
    AtAppend(data, start, EncodeTexts(ps), [END]);
    ReadTextsEncoded(data, start, ps);
    EndAtEnd(data, start + |EncodeTexts(ps)|);
  }

  lemma ReadProtocolsEncoded(data: seq<byte>, offset: nat, ps: seq<Text>, more: seq<int>)
    requires |ps| < MAX_PROTOCOLS && ShortTexts(ps) && At(data, offset, EncodeMessage(HandshakeProtocols(ps)))
    ensures ReadsBack(data, offset, HandshakeProtocols(ps), more)
  {
    hide At, EncodeTexts, Written, ShortTexts, ReadHandshakeProtocols;
    assert [] + more == more;
    ReadProtocolsBody(data, offset, ps, more);
  }

  lemma ReadGenericEncoded(data: seq<byte>, offset: nat, o: u32, k: u32, args: seq<Value>, more: seq<int>)
    requires AllSendable(args) && At(data, offset, EncodeMessage(Generic(o, k, args)))
    ensures ReadsBack(data, offset, Generic(o, k, args), more)
  {
    ReadMarshalled(data, offset, o, k, args, more);
  }

  /** Every message within the limits is read back exactly: its fields, its length, and
      its own descriptors from the front of the queue. */
  lemma ReadMessageEncoded(data: seq<byte>, offset: nat, m: Message, more: seq<int>)
    requires Transmissible(m) && At(data, offset, EncodeMessage(m))
    ensures ReadsBack(data, offset, m, more)
  {
    match m
    case Hello =>
      assert [] + more == more;
      AtIndex(data, offset, HelloBytes(), 0);
    case HandshakeBegin(vs) => ReadBeginEncoded(data, offset, vs, more);
    case HandshakeProtocols(ps) => ReadProtocolsEncoded(data, offset, ps, more);
    case BindProtocol(s, p, v) => ReadBindEncoded(data, offset, s, p, v, more);
    case NewObject(id, s) => ReadNewObjectEncoded(data, offset, id, s, more);
    case FatalError(o, e, t) => ReadFatalEncoded(data, offset, o, e, t, more);
    case Generic(o, k, args) => ReadGenericEncoded(data, offset, o, k, args, more);
    case _ => ReadWordMessageEncoded(data, offset, m, more);
  }
}
