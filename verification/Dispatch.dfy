/** A received batch of bytes, handled: the reference for the two handleMessage loops and
    for what a dispatch does around them. */
module Dispatch {
  import opened Bytes
  import opened Arguments
  import opened GenericMessage
  import opened Messages
  import opened Framing
  import opened Specs
  import C = Client
  import S = Server

  /** eMessageParsingResult */
  datatype Verdict = ParsedOk | ParsedError | StrayFds

  datatype ServerRun = ServerRun(s: S.ServerState, verdict: Verdict)
  datatype ClientRun = ClientRun(c: C.ClientState, verdict: Verdict)

  function Finished(fds: seq<int>): Verdict {
    if fds == [] then ParsedOk else StrayFds
  }

  /** The type codes a server parses; it takes any other for an error on sight. */
  predicate ServerTakes(code: byte) {
    code == SUP || code == HANDSHAKE_ACK || code == BIND_PROTOCOL || code == GENERIC || code == ROUNDTRIP_REQUEST
  }

  /** The server's loop stops at the end of the batch or at the first error. */
  function ServerBatch(env: S.ServerEnv, s: S.ServerState, data: seq<byte>, needle: nat, fds: seq<int>): ServerRun
    decreases |data| - needle
  {
    if needle >= |data| || s.error then ServerRun(s, Finished(fds))
    else if !ServerTakes(data[needle]) then ServerRun(s.(error := true), ParsedError)
    else
      match ReadMessage(data, needle, fds)
      case NoMessage => ServerRun(s, ParsedError)
      case MessageRead(m, next, rest) =>
        ReadMessageProgress(data, needle, fds);
        ServerBatch(env, S.Handle(env, s, m), data, next, rest)
  }

  /** What came off a client's socket. */
  datatype Received = Bad | Received(data: seq<byte>, fds: seq<int>)

  /** dispatchClient */
  function DispatchServer(env: S.ServerEnv, s: S.ServerState, r: Received): S.ServerState {
    match r
    case Bad => S.Fails(s, S.Fatal(0, S.NO_ERROR_ID))
    case Received(data, fds) =>
      if data == [] then s
      else
        var run := ServerBatch(env, s, data, 0, fds);
        if run.verdict.ParsedOk? then S.EndBatch(run.s) else S.Fails(run.s, S.Fatal(0, S.NO_ERROR_ID))
  }

  /** The type codes a client parses. Any other known code sets its error; an unknown one
      only ends the batch. */
  predicate ClientTakes(code: byte) {
    code == HANDSHAKE_BEGIN || code == HANDSHAKE_PROTOCOLS || code == NEW_OBJECT || code == GENERIC
    || code == FATAL_PROTOCOL_ERROR || code == ROUNDTRIP_DONE
  }

  /** The client's loop goes on after an error, until a message does not parse or is refused. */
  function ClientBatch(c: C.ClientState, data: seq<byte>, needle: nat, fds: seq<int>): ClientRun
    decreases |data| - needle
  {
    if needle >= |data| then ClientRun(c, Finished(fds))
    else if !ClientTakes(data[needle])
      then ClientRun(if ServerTakes(data[needle]) then c.(error := true) else c, ParsedError)
    else
      match ReadMessage(data, needle, fds)
      case NoMessage => ClientRun(if data[needle] == FATAL_PROTOCOL_ERROR then c.(error := true) else c, ParsedError)
      case MessageRead(m, next, rest) =>
        ReadMessageProgress(data, needle, fds);
        var h := C.Handle(c, m);
        if h.ok then ClientBatch(h.c, data, next, rest) else ClientRun(h.c, ParsedError)
  }

  /** The rest of CClientSocket::dispatchEvents, once something was received. */
  function DispatchClient(impls: seq<ProtocolSpec>, c: C.ClientState, r: Received): C.ClientState {
    match r
    case Bad => C.Disconnect(c)
    case Received(data, fds) =>
      if data == [] then c
      else
        var run := ClientBatch(c, data, 0, fds);
        if run.verdict.ParsedOk? then C.EndBatch(impls, run.c) else C.Disconnect(run.c)
  }

  /** What poll reports for the client's socket: nothing to read, perhaps because the other end
      is gone, or what can be read. */
  datatype Report = Quiet(hangup: bool) | Readable(received: Received)

  /** The new state, and whether dispatchEvents returned true. */
  datatype Dispatched = Dispatched(c: C.ClientState, again: bool)

  /** CClientSocket::dispatchEvents */
  function DispatchEvents(impls: seq<ProtocolSpec>, c: C.ClientState, p: Report): Dispatched {
    if c.error then Dispatched(c, false)
    else
      var collected := C.Collect(impls, c);
      match p
      case Quiet(hangup) => Dispatched(C.Collect(impls, collected), !hangup)
      case Readable(r) =>
        var t := DispatchClient(impls, collected, r);
        Dispatched(t, r.Received? && r.data != [] && !t.error)
  }

  // The waits.

  /** The object with the number has its id, also if it has left the table since: only objects
      with ids do. */
  predicate Identified(c: C.ClientState, q: u32) {
    C.FindSeq(c.objects, q) < 0 || c.objects[C.FindSeq(c.objects, q)].id != 0
  }

  /** A wait, over what poll reports in turn: where it ends, and the reports it has not seen. */
  datatype Waited = Waited(c: C.ClientState, rest: seq<Report>)

  /** CClientSocket::waitForObject */
  function WaitForObject(impls: seq<ProtocolSpec>, c: C.ClientState, q: u32, reports: seq<Report>): Waited
    decreases |reports|
  {
    if Identified(c, q) || c.error || reports == [] then Waited(c, reports)
    else WaitForObject(impls, DispatchEvents(impls, c, reports[0]).c, q, reports[1..])
  }

  /** The wait of CClientSocket::roundtrip. */
  function WaitForAnswer(impls: seq<ProtocolSpec>, c: C.ClientState, n: u32, reports: seq<Report>): Waited
    decreases |reports|
  {
    if c.acked >= n || reports == [] then Waited(c, reports)
    else
      var d := DispatchEvents(impls, c, reports[0]);
      if d.again then WaitForAnswer(impls, d.c, n, reports[1..]) else Waited(d.c, reports[1..])
  }

  /** CClientSocket::waitForHandshake */
  function WaitForHandshake(impls: seq<ProtocolSpec>, c: C.ClientState, reports: seq<Report>): Waited
    decreases |reports|
  {
    if c.error || c.handshakeDone || reports == [] then Waited(c, reports)
    else
      var d := DispatchEvents(impls, c, reports[0]);
      if d.again then WaitForHandshake(impls, d.c, reports[1..]) else Waited(d.c, reports[1..])
  }

  // Batches of messages.

  lemma CodeOf(m: Message)
    ensures |EncodeMessage(m)| > 0 && (S.FromClient(m) <==> ServerTakes(EncodeMessage(m)[0]))
  {
  }

  predicate AllFromClient(ms: seq<Message>) {
    ms == [] || (S.FromClient(ms[0]) && AllFromClient(ms[1..]))
  }

  /** The loop over the bytes of a batch is handling its messages in order, up to the
      first that sets the error. */
  lemma {:induction false} ServerBatchHandles(env: S.ServerEnv, s: S.ServerState, data: seq<byte>, needle: nat,
      ms: seq<Message>)
    requires AllTransmissible(ms) && AllFromClient(ms)
    requires At(data, needle, EncodeBatch(ms)) && needle + |EncodeBatch(ms)| == |data|
    ensures ServerBatch(env, s, data, needle, BatchFds(ms)).s == S.HandleAll(env, s, ms)
    ensures !S.HandleAll(env, s, ms).error ==> ServerBatch(env, s, data, needle, BatchFds(ms)).verdict == ParsedOk
    decreases |ms|
  {
    hide S.Handle, EncodeMessage, MessageFds, Transmissible, ReadMessage, ServerTakes, S.FromClient;
    if ms != [] && !s.error {
      var next := CutFirst(data, needle, ms);
      FirstCode(data, needle, ms);
      ServerBatchHandles(env, S.Handle(env, s, ms[0]), data, next, ms[1..]);
    }
  }

  /** The client handling a list of messages, until one is refused. */
  function HandleEvents(c: C.ClientState, ms: seq<Message>): C.Handled
    decreases |ms|
  {
    if ms == [] then C.Handled(c, true)
    else
      var h := C.Handle(c, ms[0]);
      if h.ok then HandleEvents(h.c, ms[1..]) else h
  }

  /** The messages a client takes. */
  predicate FromServer(m: Message) {
    m.HandshakeBegin? || m.HandshakeProtocols? || m.NewObject? || m.Generic? || m.FatalError? || m.RoundtripDone?
  }

  predicate AllFromServer(ms: seq<Message>) {
    ms == [] || (FromServer(ms[0]) && AllFromServer(ms[1..]))
  }

  lemma EventCode(data: seq<byte>, needle: nat, m: Message, tail: seq<byte>)
    requires At(data, needle, EncodeMessage(m) + tail) && FromServer(m)
    ensures needle < |data| && ClientTakes(data[needle])
  {
    hide EncodeMessage, ClientTakes, FromServer;
    EventCodeOf(m);
    AtAppend(data, needle, EncodeMessage(m), tail);
    AtIndex(data, needle, EncodeMessage(m), 0);
  }

  lemma EventCodeOf(m: Message)
    requires FromServer(m)
    ensures |EncodeMessage(m)| > 0 && ClientTakes(EncodeMessage(m)[0])
  {
  }

  /** The client's loop over the bytes of a batch is handling its messages in order. */
  lemma {:induction false} ClientBatchHandles(c: C.ClientState, data: seq<byte>, needle: nat, ms: seq<Message>)
    requires AllTransmissible(ms) && AllFromServer(ms) && HandleEvents(c, ms).ok
    requires At(data, needle, EncodeBatch(ms)) && needle + |EncodeBatch(ms)| == |data|
    ensures ClientBatch(c, data, needle, BatchFds(ms)) == ClientRun(HandleEvents(c, ms).c, ParsedOk)
    decreases |ms|
  {
    hide C.Handle, EncodeMessage, MessageFds, Transmissible, ReadMessage, ClientTakes, FromServer, At;
    if ms == [] {
    } else {
      EventCode(data, needle, ms[0], EncodeBatch(ms[1..]));
      var next := CutFirst(data, needle, ms);
      ClientBatchHandles(C.Handle(c, ms[0]).c, data, next, ms[1..]);
    }
  }

  /** A batch of messages that are not refused, dispatched: all are handled, then the batch ends. */
  lemma ClientDispatchHandles(impls: seq<ProtocolSpec>, c: C.ClientState, ms: seq<Message>)
    requires AllTransmissible(ms) && AllFromServer(ms) && ms != [] && HandleEvents(c, ms).ok
    ensures DispatchClient(impls, c, Received(EncodeBatch(ms), BatchFds(ms)))
      == C.EndBatch(impls, HandleEvents(c, ms).c)
  {
    hide EncodeMessage, ClientBatch, HandleEvents, C.EndBatch;
    var data := EncodeBatch(ms);
    SliceAt(data, 0, data);
    EventCodeOf(ms[0]);
    ClientBatchHandles(c, data, 0, ms);
  }

  /** A list of messages that ends in an error: the loop over their bytes ends there, whatever
      bytes and descriptors come behind. */
  lemma {:induction false} ServerBatchStops(env: S.ServerEnv, s: S.ServerState, data: seq<byte>, needle: nat,
      ms: seq<Message>, tail: seq<byte>, more: seq<int>)
    requires AllTransmissible(ms) && AllFromClient(ms) && S.HandleAll(env, s, ms).error
    requires At(data, needle, EncodeBatch(ms) + tail) && needle + |EncodeBatch(ms) + tail| == |data|
    ensures ServerBatch(env, s, data, needle, BatchFds(ms) + more).s == S.HandleAll(env, s, ms)
    decreases |ms|
  {
    hide S.Handle, EncodeMessage, MessageFds, Transmissible, ReadMessage, ServerTakes, S.FromClient, At;
    if s.error {
    } else {
      var rest := ms[1..];
      assert ms[0] in ms;
      Assoc(EncodeMessage(ms[0]), EncodeBatch(rest), tail);
      Assoc(MessageFds(ms[0]), BatchFds(rest), more);
      CodeAt(data, needle, ms[0], EncodeBatch(rest) + tail);
      var next := CutHead(data, needle, ms[0], EncodeBatch(rest) + tail, BatchFds(rest) + more);
      ServerBatchStops(env, S.Handle(env, s, ms[0]), data, next, rest, tail, more);
    }
  }

  lemma CodeAt(data: seq<byte>, needle: nat, m: Message, tail: seq<byte>)
    requires At(data, needle, EncodeMessage(m) + tail) && S.FromClient(m)
    ensures needle < |data| && ServerTakes(data[needle])
  {
    hide EncodeMessage, ServerTakes, S.FromClient;
    CodeOf(m);
    AtAppend(data, needle, EncodeMessage(m), tail);
    AtIndex(data, needle, EncodeMessage(m), 0);
  }

  // Any bytes.

  /** The messages stand at the front of the bytes, one behind the other. */
  ghost predicate ReadsOff(data: seq<byte>, needle: nat, fds: seq<int>, ms: seq<Message>)
    decreases |ms|
  {
    ms == [] ||
    (needle < |data| &&
     match ReadMessage(data, needle, fds)
     case NoMessage => false
     case MessageRead(m, next, rest) => m == ms[0] && ReadsOff(data, next, rest, ms[1..]))
  }

  /** No message of the list but the last sets the error. */
  predicate OnlyLastFails(env: S.ServerEnv, s: S.ServerState, ms: seq<Message>)
    decreases |ms|
  {
    ms == [] || (!s.error && OnlyLastFails(env, S.Handle(env, s, ms[0]), ms[1..]))
  }

  /** Whatever bytes are received, the loop handles messages that stand at their front, up to the
      first that sets the error and none behind it; all else it may do is to set the error. */
  lemma {:induction false} BytesHandled(env: S.ServerEnv, s: S.ServerState, data: seq<byte>, needle: nat,
      fds: seq<int>) returns (ms: seq<Message>)
    ensures ReadsOff(data, needle, fds, ms) && OnlyLastFails(env, s, ms)
    ensures var r := ServerBatch(env, s, data, needle, fds); var t := S.HandleAll(env, s, ms);
      r.s == t || (r.s == t.(error := true) && r.verdict == ParsedError)
    decreases |data| - needle
  {
    hide S.Handle, ReadMessage, ServerTakes;
    ms := [];
    if needle < |data| && !s.error && ServerTakes(data[needle]) {
      var r := ReadMessage(data, needle, fds);
      if r.MessageRead? {
        ReadMessageProgress(data, needle, fds);
        var rest := BytesHandled(env, S.Handle(env, s, r.msg), data, r.next, r.rest);
        ms := [r.msg] + rest;
        assert ms[1..] == rest;
      }
    }
  }

  lemma FirstCode(data: seq<byte>, needle: nat, ms: seq<Message>)
    requires ms != [] && At(data, needle, EncodeBatch(ms)) && needle < |data| && S.FromClient(ms[0])
    ensures ServerTakes(data[needle])
  {
    hide EncodeMessage, ServerTakes, S.FromClient;
    CodeOf(ms[0]);
    AtAppend(data, needle, EncodeMessage(ms[0]), EncodeBatch(ms[1..]));
    AtIndex(data, needle, EncodeMessage(ms[0]), 0);
  }

  /** A batch of right messages dispatched without error: all are handled, and the last
      roundtrip request among them is answered. */
  lemma DispatchHandles(env: S.ServerEnv, s: S.ServerState, ms: seq<Message>)
    requires AllTransmissible(ms) && AllFromClient(ms) && ms != [] && !S.HandleAll(env, s, ms).error
    ensures DispatchServer(env, s, Received(EncodeBatch(ms), BatchFds(ms))) == S.EndBatch(S.HandleAll(env, s, ms))
  {
    hide EncodeMessage, ServerBatch, S.HandleAll;
    var data := EncodeBatch(ms);
    SliceAt(data, 0, data);
    CodeOf(ms[0]);
    ServerBatchHandles(env, s, data, 0, ms);
  }
}
