/** What a client does with what it reads, said without its own functions: which bytes and which
    messages cost it its connection, what its calls do, and that an error is the end. */
module ClientLaws {
  import opened Bytes
  import opened Arguments
  import opened Specs
  import opened SpecNames
  import opened Messages
  import opened Framing
  import opened WireObject
  import opened CallRoundTrip
  import opened Dispatch
  import opened Waits
  import opened ServerLaws
  import C = Client
  import S = Server
  import Farewells

  // Messages.

  /** The strings parse to these, up to the first that does not parse, if there is one. */
  ghost predicate Learnt(ps: seq<Text>, read: seq<ServerSpec>) {
    && |read| <= |ps| && (forall k :: 0 <= k < |read| ==> ParseSpec(ps[k]) == GoodSpec(read[k]))
    && (|read| < |ps| ==> ParseSpec(ps[|read|]).BadSpec?)
  }

  /** The messages that end the connection of a client. */
  ghost predicate Ends(c: C.ClientState, m: Message) {
    match m
    case HandshakeBegin(vs) => 1 !in vs
    case HandshakeProtocols(ps) => exists k :: 0 <= k < |ps| && ParseSpec(ps[k]).BadSpec?
    case NewObject(_, _) => false
    case Generic(id, _, _) => forall k :: 0 <= k < |c.objects| ==> c.objects[k].id != id
    case RoundtripDone(_) => false
    case _ => true
  }

  lemma LearntMore(p: Text, ps: seq<Text>, s: ServerSpec, read: seq<ServerSpec>)
    requires Learnt(ps, read) && ParseSpec(p) == GoodSpec(s)
    ensures Learnt([p] + ps, [s] + read)
  {
    hide ParseSpec;
  }

  lemma {:induction false} SpecsRead(ps: seq<Text>)
    ensures Learnt(ps, C.ReadSpecs(ps).read) && (C.ReadSpecs(ps).ok <==> |C.ReadSpecs(ps).read| == |ps|)
  {
    if ps == [] {
    } else {
      hide ParseSpec;
      match ParseSpec(ps[0])
      case BadSpec =>
      case GoodSpec(s) =>
        hide Learnt;
        SpecsRead(ps[1..]);
        LearntMore(ps[0], ps[1..], s, C.ReadSpecs(ps[1..]).read);
        assert [ps[0]] + ps[1..] == ps;
    }
  }

  lemma {:induction false} Identity(objects: seq<C.ClientObject>, id: u32)
    ensures C.FindId(objects, id) < 0 <==> forall k :: 0 <= k < |objects| ==> objects[k].id != id
    ensures forall k :: 0 <= k < C.FindId(objects, id) ==> objects[k].id != id
  {
    if objects == [] {
    } else {
      Identity(objects[1..], id);
      assert objects == [objects[0]] + objects[1..];
    }
  }

  /** A message leaves a client in error, or is refused, exactly if it was in error before or the
      message ends the connection. */
  lemma HandleVerdict(c: C.ClientState, m: Message)
    ensures var h := C.Handle(c, m); !h.ok || h.c.error <==> c.error || Ends(c, m)
  {
    hide C.ReadSpecs, C.FindId, CalledOutcome, C.FindSeq, C.WithoutId, ParseSpec;
    if m.Generic? {
      Identity(c.objects, m.objectId);
    } else if m.HandshakeProtocols? {
      SpecsRead(m.protocols);
    }
  }

  /** The greeting: acknowledged if it offers version 1, else refused without a word. */
  lemma GreetingVerdict(c: C.ClientState, vs: seq<u32>)
    ensures var h := C.Handle(c, HandshakeBegin(vs));
      if 1 !in vs then h == C.Handled(c, false)
      else h.ok && h.c == c.(sent := h.c.sent) &&
           h.c.sent == c.sent + if c.connected then [C.Outgoing(HandshakeAck(1), 0, false)] else []
  {
    assert c.sent + [] == c.sent;
  }

  /** The list of protocols: the client learns those in front of the first bad string, and takes
      the handshake for done; a bad string costs it the connection. */
  lemma ProtocolsVerdict(c: C.ClientState, ps: seq<Text>) returns (read: seq<ServerSpec>)
    ensures Learnt(ps, read)
    ensures C.Handle(c, HandshakeProtocols(ps)) ==
      C.Handled(c.(handshakeDone := true, serverSpecs := c.serverSpecs + read,
                   error := c.error || |read| < |ps|, connected := c.connected && |read| == |ps|), true)
  {
    hide C.ReadSpecs, Learnt;
    SpecsRead(ps);
    read := C.ReadSpecs(ps).read;
    assert |read| <= |ps| by { Within(ps, read); }
  }

  lemma Within(ps: seq<Text>, read: seq<ServerSpec>)
    requires Learnt(ps, read)
    ensures |read| <= |ps|
  {
  }

  /** The first object with the number is at position i; none has it if that is the end. */
  ghost predicate FirstOf(objects: seq<C.ClientObject>, q: u32, i: nat) {
    i <= |objects| && (forall k :: 0 <= k < i ==> objects[k].seq_ != q) && (i < |objects| ==> objects[i].seq_ == q)
  }

  lemma {:induction false} NumberAt(objects: seq<C.ClientObject>, q: u32, i: nat)
    requires FirstOf(objects, q, i)
    ensures C.FindSeq(objects, q) == if i < |objects| then i else -1
  {
    if i == 0 {
    } else {
      forall k | 0 <= k < i - 1 ensures objects[1..][k].seq_ != q {
        assert objects[1..][k] == objects[k + 1];
      }
      NumberAt(objects[1..], q, i - 1);
    }
  }

  /** An announcement: the first object with the number gets the id, and nothing else happens. */
  lemma AnnouncementVerdict(c: C.ClientState, id: u32, q: u32, i: nat)
    requires FirstOf(c.objects, q, i)
    ensures C.Handle(c, NewObject(id, q)) ==
      C.Handled(if i < |c.objects| then c.(objects := c.objects[i := c.objects[i].(id := id)]) else c, true)
  {
    hide FirstOf, C.FindSeq;
    NumberAt(c.objects, q, i);
  }

  /** What is wrong with an event: the object has no such method; or it has a listener, and the
      method is newer than the client's half, or the arguments do not begin with the method's. */
  ghost predicate WrongEvent(o: C.ClientObject, k: nat, args: seq<Value>) {
    k >= |o.spec.s2c| ||
    (k in o.listeners &&
     (o.spec.s2c[k].since > o.version ||
      !((if o.spec.s2c[k].returnsType != [] then [SEQ] else []) + o.spec.s2c[k].params <= TypesOf(args))))
  }

  /** An event for an object of the table: wrong, it has no effect; right, its listener, if there
      is one, is called with a frame that reads back to the arguments in front, and the object
      leaves exactly if the method is a destructor. */
  lemma EventVerdict(c: C.ClientState, i: nat, k: u32, args: seq<Value>)
    requires i < |c.objects| && c.objects[i].id != 0 && AllSendable(args)
    requires forall j :: 0 <= j < i ==> c.objects[j].id != c.objects[i].id
    ensures var o := c.objects[i]; var t := C.OnGeneric(c, o.id, k, args);
      if WrongEvent(o, k, args) then t == c
      else
        && t == c.(objects := t.objects, calls := t.calls)
        && (forall x :: x in t.objects <==> x in c.objects && (o.spec.s2c[k].isDestructor ==> x.id != o.id))
        && (if k in o.listeners then
              |t.calls| == |c.calls| + 1 && c.calls <= t.calls &&
              (Proper(o.spec.s2c[k].params) ==> RightCall(t.calls[|c.calls|], o.id, k, o.spec.s2c[k], args))
            else t.calls == c.calls)
  {
    hide C.FindId, C.WithoutId, TypesOf, SlotsOf, ReadFrame, AllSendable, RightCall, Proper;
    var o := c.objects[i];
    FirstId(c.objects, i);
    if !WrongEvent(o, k, args) {
      WithoutIdExactly(c.objects, o.id);
      if k in o.listeners && Proper(o.spec.s2c[k].params) {
        FrameOfCall(o.id, k, o.spec.s2c[k], args);
      }
    }
  }

  /** A listener that was registered is called by a right event. */
  lemma ListenerHears(c: C.ClientState, i: nat, k: u32, args: seq<Value>)
    requires i < |c.objects| && c.objects[i].id != 0 && AllSendable(args)
    requires forall j :: 0 <= j < i ==> c.objects[j].id != c.objects[i].id
    requires !WrongEvent(c.objects[i].(listeners := {k}), k, args)
    ensures var t := C.OnGeneric(C.Listen(c, i, k), c.objects[i].id, k, args);
      t.error == c.error && |t.calls| == |c.calls| + 1 && t.calls[|c.calls|].method_ == k
  {
    hide C.FindId, TypesOf, SlotsOf, AllSendable, C.WithoutId;
    FirstId(C.Listen(c, i, k).objects, i);
  }

  lemma {:induction false} FirstId(objects: seq<C.ClientObject>, i: nat)
    requires i < |objects| && forall j :: 0 <= j < i ==> objects[j].id != objects[i].id
    ensures C.FindId(objects, objects[i].id) == i
  {
    if i == 0 {
    } else {
      assert objects[0].id != objects[i].id;
      forall j | 0 <= j < i - 1 ensures objects[1..][j].id != objects[1..][i - 1].id {
        assert objects[1..][j] == objects[j + 1];
      }
      FirstId(objects[1..], i - 1);
    }
  }

  lemma {:induction false} WithoutIdExactly(objects: seq<C.ClientObject>, id: u32)
    ensures forall x :: x in C.WithoutId(objects, id) <==> x in objects && x.id != id
  {
    if objects == [] {
    } else {
      WithoutIdExactly(objects[1..], id);
      assert objects == [objects[0]] + objects[1..];
    }
  }

  /** The other messages: an answer is noted; a fatal error sets the error; kinds of messages only
      clients send set the error and are refused; an event for an id that is not in the table
      costs the connection. */
  lemma OtherVerdicts(c: C.ClientState, m: Message)
    ensures m.RoundtripDone? ==> C.Handle(c, m) == C.Handled(c.(acked := m.answered), true)
    ensures m.FatalError? ==> C.Handle(c, m) == C.Handled(c.(error := true), true)
    ensures S.FromClient(m) && !m.Generic? ==> C.Handle(c, m) == C.Handled(c.(error := true), false)
    ensures m.Generic? && (forall k :: 0 <= k < |c.objects| ==> c.objects[k].id != m.objectId) ==>
      C.Handle(c, m) == C.Handled(c.(error := true, connected := false), true)
  {
    hide C.FindId, C.WithoutId, CalledOutcome;
    if m.Generic? {
      Identity(c.objects, m.objectId);
    }
  }

  // Bytes.

  /** No message for a client stands at the position. */
  ghost predicate NoneForClient(data: seq<byte>, at: nat, fds: seq<int>) {
    at < |data| && (ReadMessage(data, at, fds).MessageRead? ==> !FromServer(ReadMessage(data, at, fds).msg))
  }

  /** No message of the list but the last is refused. */
  ghost predicate OnlyLastRefused(c: C.ClientState, ms: seq<Message>)
    decreases |ms|
  {
    ms == [] ||
    ((|ms| > 1 ==> C.Handle(c, ms[0]).ok) && OnlyLastRefused(C.Handle(c, ms[0]).c, ms[1..]))
  }

  lemma CodeReadByClient(data: seq<byte>, at: nat, fds: seq<int>)
    requires at < |data| && ReadMessage(data, at, fds).MessageRead?
    ensures FromServer(ReadMessage(data, at, fds).msg) <==> ClientTakes(data[at])
  {
    hide ReadTexts, ReadText, WordsAt, At;
  }

  /** The messages a client handles of any bytes: all that stand at their front, up to the first
      that is refused, or to where no message for a client stands. */
  lemma {:induction false} ClientReads(c: C.ClientState, data: seq<byte>, needle: nat, fds: seq<int>)
      returns (ms: seq<Message>, end: nat, left: seq<int>)
    requires needle <= |data|
    ensures ReadsTo(data, needle, fds, ms, end, left) && OnlyLastRefused(c, ms) && end <= |data| && AllFromServer(ms)
    ensures !HandleEvents(c, ms).ok || end == |data| || NoneForClient(data, end, left)
    ensures var r := ClientBatch(c, data, needle, fds); var h := HandleEvents(c, ms);
      if h.ok && end == |data| then r == ClientRun(h.c, if left == [] then ParsedOk else StrayFds)
      else r.verdict == ParsedError && (r.c == h.c || r.c == h.c.(error := true))
    decreases |data| - needle
  {
    hide C.Handle, ReadMessage, ClientTakes, ServerTakes, FromServer;
    ms, end, left := [], needle, fds;
    if needle < |data| {
      var r := ReadMessage(data, needle, fds);
      if r.MessageRead? {
        CodeReadByClient(data, needle, fds);
        ReadMessageProgress(data, needle, fds);
        if ClientTakes(data[needle]) {
          var h := C.Handle(c, r.msg);
          if h.ok {
            var rest;
            rest, end, left := ClientReads(h.c, data, r.next, r.rest);
            ms := [r.msg] + rest;
            assert ms[1..] == rest;
          } else {
            ms, end, left := [r.msg], r.next, r.rest;
            assert ms[1..] == [];
          }
        }
      }
    }
  }

  // The end of a dispatch.

  lemma FarewellErrs(impls: seq<ProtocolSpec>, c: C.ClientState, o: C.ClientObject)
    requires c.error
    ensures C.Farewell(impls, c, o).error
  {
    hide C.AutoDestructor, FindProtocol, FindObject, CallArgs;
  }

  lemma {:induction false} FarewellsErr(impls: seq<ProtocolSpec>, c: C.ClientState, objects: seq<C.ClientObject>)
    requires c.error
    ensures C.Farewells(impls, c, objects).error
    decreases |objects|
  {
    if objects == [] {
    } else {
      hide C.Farewell;
      FarewellErrs(impls, c, objects[0]);
      FarewellsErr(impls, if C.Orphaned(objects[0]) then C.Farewell(impls, c, objects[0]) else c, objects[1..]);
    }
  }

  lemma {:induction false} FlushSpares(c: C.ClientState, es: seq<C.Outgoing>)
    ensures C.FlushAll(c, es).error == c.error && C.FlushAll(c, es).objects == c.objects
    decreases |es|
  {
    if es == [] {
    } else {
      hide C.FindSeq, C.ResolvedTo;
      FlushSpares(C.FlushOne(c, es[0]), es[1..]);
    }
  }

  lemma EndBatchErrs(impls: seq<ProtocolSpec>, c: C.ClientState)
    requires c.error
    ensures C.EndBatch(impls, c).error
  {
    hide C.FlushAll, C.Farewells;
    FlushSpares(c.(pending := []), c.pending);
    var d := C.Flush(c);
    FarewellsErr(impls, d.(objects := C.Survivors(d.objects)), d.objects);
  }

  // Fatal errors.

  /** An error is not taken back by what comes after in the same batch. */
  lemma {:induction false} ErrorSticks(c: C.ClientState, data: seq<byte>, needle: nat, fds: seq<int>)
    requires c.error
    ensures var r := ClientBatch(c, data, needle, fds); r.c.error
    decreases |data| - needle
  {
    hide C.Handle, ReadMessage, ClientTakes, ServerTakes;
    if needle < |data| && ClientTakes(data[needle]) && ReadMessage(data, needle, fds).MessageRead? {
      var r := ReadMessage(data, needle, fds);
      ReadMessageProgress(data, needle, fds);
      HandleErrs(c, r.msg);
      ErrorSticks(C.Handle(c, r.msg).c, data, r.next, r.rest);
    }
  }

  lemma HandleErrs(c: C.ClientState, m: Message)
    requires c.error
    ensures C.Handle(c, m).c.error
  {
    hide C.ReadSpecs, C.FindId, CalledOutcome, C.FindSeq, C.WithoutId;
  }

  lemma {:induction false} FatalInBatch(c: C.ClientState, data: seq<byte>, needle: nat, fds: seq<int>,
      ms: seq<Message>, end: nat, left: seq<int>, k: nat)
    requires ReadsTo(data, needle, fds, ms, end, left) && k < |ms| && ms[k].FatalError?
    ensures var r := ClientBatch(c, data, needle, fds); r.c.error || !r.verdict.ParsedOk?
    decreases |ms|
  {
    hide C.Handle, ReadMessage, ClientTakes, ServerTakes;
    var r := ReadMessage(data, needle, fds);
    ReadMessageProgress(data, needle, fds);
    var h := C.Handle(c, r.msg);
    if !ClientTakes(data[needle]) || !h.ok {
    } else if k == 0 {
      OtherVerdicts(c, r.msg);
      ErrorSticks(h.c, data, r.next, r.rest);
    } else {
      FatalInBatch(h.c, data, r.next, r.rest, ms[1..], end, left, k - 1);
    }
  }

  /** Bytes with a fatal error among the messages at their front end a client: the dispatch fails
      and leaves it in error, whatever comes before and after in the bytes. */
  lemma FatalEnds(impls: seq<ProtocolSpec>, c: C.ClientState, data: seq<byte>, fds: seq<int>, ms: seq<Message>,
      end: nat, left: seq<int>, k: nat)
    requires ReadsTo(data, 0, fds, ms, end, left) && k < |ms| && ms[k].FatalError?
    ensures var d := DispatchEvents(impls, c, Readable(Received(data, fds))); d.c.error && !d.again
  {
    hide C.Collect, ClientBatch, ReadMessage, C.EndBatch;
    assert data != [];
    if !c.error {
      var x := C.Collect(impls, c);
      FatalInBatch(x, data, 0, fds, ms, end, left, k);
      if ClientBatch(x, data, 0, fds).c.error {
        EndBatchErrs(impls, ClientBatch(x, data, 0, fds).c);
      }
    }
  }

  lemma {:induction false} EncodedReads(data: seq<byte>, needle: nat, ms: seq<Message>, tail: seq<byte>,
      more: seq<int>)
    requires AllTransmissible(ms) && At(data, needle, EncodeBatch(ms) + tail)
    requires needle + |EncodeBatch(ms) + tail| == |data|
    ensures ReadsTo(data, needle, BatchFds(ms) + more, ms, needle + |EncodeBatch(ms)|, more)
    decreases |ms|
  {
    hide EncodeMessage, MessageFds, Transmissible, ReadMessage, At;
    if ms == [] {
      assert BatchFds(ms) + more == more;
    } else {
      var rest := ms[1..];
      assert ms[0] in ms;
      Assoc(EncodeMessage(ms[0]), EncodeBatch(rest), tail);
      Assoc(MessageFds(ms[0]), BatchFds(rest), more);
      var next := CutHead(data, needle, ms[0], EncodeBatch(rest) + tail, BatchFds(rest) + more);
      EncodedReads(data, next, rest, tail, more);
    }
  }

  /** A fatal error is the end of a client. It reads a list of messages with one among them,
      whatever bytes and descriptors come behind: its dispatch fails, and from then on nothing
      it is given to read and no roundtrip has any effect. */
  lemma FatalIsFinal(impls: seq<ProtocolSpec>, c: C.ClientState, ms: seq<Message>, k: nat, tail: seq<byte>,
      more: seq<int>, reports: seq<Report>, n: u32)
    requires AllTransmissible(ms) && k < |ms| && ms[k].FatalError?
    ensures var d := DispatchEvents(impls, c, Readable(Received(EncodeBatch(ms) + tail, BatchFds(ms) + more)));
      && d.c.error && !d.again
      && AfterReports(impls, d.c, reports) == d.c
      && (forall j :: 0 <= j < |reports| ==> !Succeeds(impls, d.c, reports, j))
      && C.Roundtrip(d.c) == d.c && WaitForAnswer(impls, C.Roundtrip(d.c), n, reports).c == d.c
  {
    hide AllTransmissible, EncodeBatch, BatchFds, DispatchEvents, AfterReports, Succeeds, ReadsTo, WaitForAnswer;
    var data, fds := EncodeBatch(ms) + tail, BatchFds(ms) + more;
    SliceAt(data, 0, data);
    EncodedReads(data, 0, ms, tail, more);
    FatalEnds(impls, c, data, fds, ms, |EncodeBatch(ms)|, more, k);
    var d := DispatchEvents(impls, c, Readable(Received(data, fds)));
    Frozen(impls, d.c, n, reports);
  }

  /** A client in error stays as it is. */
  lemma Frozen(impls: seq<ProtocolSpec>, c: C.ClientState, n: u32, reports: seq<Report>)
    requires c.error
    ensures AfterReports(impls, c, reports) == c && WaitForAnswer(impls, c, n, reports).c == c && C.Roundtrip(c) == c
    ensures forall j :: 0 <= j < |reports| ==> !Succeeds(impls, c, reports, j)
  {
    hide AfterReports, Succeeds;
    ErrorFreezes(impls, c, reports, |reports|);
    assert reports[..|reports|] == reports;
    forall j | 0 <= j < |reports| ensures !Succeeds(impls, c, reports, j) {
      ErrorFreezes(impls, c, reports, j);
    }
  }

  /** Both ends together. Whatever a client has sent, if it costs it its place at the server, then
      a client that reads what the server has sent to it is in error, and its dispatch fails. */
  lemma ServerEndsClient(env: S.ServerEnv, s: S.ServerState, r: Received, impls: seq<ProtocolSpec>, c: C.ClientState,
      from: nat)
    requires !s.error && DispatchServer(env, s, r).error && from <= |s.sent|
    requires from <= |DispatchServer(env, s, r).sent| && AllTransmissible(DispatchServer(env, s, r).sent[from..])
    ensures var ms := DispatchServer(env, s, r).sent[from..];
      var d := DispatchEvents(impls, c, Readable(Received(EncodeBatch(ms), BatchFds(ms)))); d.c.error && !d.again
  {
    hide AllTransmissible, EncodeBatch, BatchFds, DispatchEvents, DispatchServer;
    var p := ErrorIsTold(env, s, r);
    var sent := DispatchServer(env, s, r).sent;
    assert sent[from..] == sent[from..|sent|];
    FatalReached(impls, c, sent, from, |sent|, p);
  }

  /** A client that reads a part of the server's log with a fatal error in it is in error. */
  lemma FatalReached(impls: seq<ProtocolSpec>, c: C.ClientState, sent: seq<Message>, from: nat, to: nat, p: nat)
    requires from <= p < to <= |sent| && sent[p].FatalError? && AllTransmissible(sent[from..to])
    ensures var ms := sent[from..to];
      var d := DispatchEvents(impls, c, Readable(Received(EncodeBatch(ms), BatchFds(ms)))); d.c.error && !d.again
  {
    hide AllTransmissible, EncodeBatch, BatchFds, DispatchEvents;
    var ms := sent[from..to];
    assert ms[p - from] == sent[p];
    assert EncodeBatch(ms) + [] == EncodeBatch(ms) && BatchFds(ms) + [] == BatchFds(ms);
    FatalIsFinal(impls, c, ms, p - from, [], [], [], 0);
  }

  // A whole dispatch.

  /** What dispatchEvents does with bytes. After an error, nothing. Else orphans are let go of, and
      the messages at the front of the bytes are handled; the batch then ends as it should if
      none was refused, the bytes end where the last of them ends, and no descriptor is left;
      in every other case the client disconnects. It returns true exactly if there is no
      error then. */
  lemma BytesVerdict(impls: seq<ProtocolSpec>, c: C.ClientState, data: seq<byte>, fds: seq<int>)
      returns (ms: seq<Message>, end: nat, left: seq<int>)
    requires data != [] && !c.error
    ensures ReadsTo(data, 0, fds, ms, end, left) && end <= |data| && AllFromServer(ms)
    ensures var x := C.Collect(impls, c); var h := HandleEvents(x, ms);
      var d := DispatchEvents(impls, c, Readable(Received(data, fds)));
      && OnlyLastRefused(x, ms) && (!h.ok || end == |data| || NoneForClient(data, end, left))
      && d.c == (if h.ok && end == |data| && left == [] then C.EndBatch(impls, h.c)
                 else h.c.(error := true, connected := false))
      && (d.again <==> !d.c.error)
  {
    hide C.Collect, ClientBatch, ReadsTo, HandleEvents, OnlyLastRefused, NoneForClient, C.EndBatch, AllFromServer;
    ms, end, left := ClientReads(C.Collect(impls, c), data, 0, fds);
  }

  /** The other reports: an error in the client or on the socket, nothing read, nothing to read. */
  lemma ReportVerdicts(impls: seq<ProtocolSpec>, c: C.ClientState, p: Report, fds: seq<int>)
    ensures c.error ==> DispatchEvents(impls, c, p) == Dispatched(c, false)
    ensures !c.error ==>
      var x := C.Collect(impls, c);
      && DispatchEvents(impls, c, Readable(Bad)) == Dispatched(x.(error := true, connected := false), false)
      && DispatchEvents(impls, c, Readable(Received([], fds))) == Dispatched(x, false)
      && DispatchEvents(impls, c, Quiet(false)) == Dispatched(C.Collect(impls, x), true)
      && DispatchEvents(impls, c, Quiet(true)) == Dispatched(C.Collect(impls, x), false)
  {
    hide C.Collect;
  }

  /** Nothing in the table has an id and no holder. */
  ghost predicate NoOrphans(objects: seq<C.ClientObject>) {
    forall o :: o in objects ==> o.id == 0 || o.held
  }

  /** A dispatch that succeeds leaves no orphan. */
  lemma OrphansLeave(impls: seq<ProtocolSpec>, c: C.ClientState, p: Report)
    requires DispatchEvents(impls, c, p).again
    ensures NoOrphans(DispatchEvents(impls, c, p).c.objects)
  {
    hide NoOrphans, C.Collect, C.Flush, ClientBatch;
    var x := C.Collect(impls, c);
    match p
    case Quiet(_) => Collected(impls, x);
    case Readable(r) => Collected(impls, C.Flush(ClientBatch(x, r.data, 0, r.fds).c));
  }

  lemma Collected(impls: seq<ProtocolSpec>, c: C.ClientState)
    ensures NoOrphans(C.Collect(impls, c).objects)
  {
    hide C.Survivors, C.Farewells;
    Farewells.SurvivorsExactly(c.objects);
    StillNone(impls, c.(objects := C.Survivors(c.objects)), c.objects);
  }

  lemma {:induction false} StillNone(impls: seq<ProtocolSpec>, c: C.ClientState, objects: seq<C.ClientObject>)
    requires NoOrphans(c.objects)
    ensures NoOrphans(C.Farewells(impls, c, objects).objects)
    decreases |objects|
  {
    if objects == [] {
    } else {
      hide C.Farewell, NoOrphans;
      NoneMade(impls, c, objects[0]);
      StillNone(impls, if C.Orphaned(objects[0]) then C.Farewell(impls, c, objects[0]) else c, objects[1..]);
    }
  }

  lemma NoneMade(impls: seq<ProtocolSpec>, c: C.ClientState, o: C.ClientObject)
    requires NoOrphans(c.objects)
    ensures NoOrphans(C.Farewell(impls, c, o).objects)
  {
    hide C.AutoDestructor, FindProtocol, FindObject, CallArgs;
  }

  // Calls of the application.

  /** What a call that gets past its checks does outside the table: with an array that cannot be
      marshalled it is an error without a message; else exactly its message, with the next number
      in front if the method returns an object, is sent, or kept back if the object has no id. */
  ghost predicate Emits(c: C.ClientState, t: C.ClientState, o: C.ClientObject, k: u32, args: seq<Value>)
    requires k < |o.spec.c2s|
  {
    var m := o.spec.c2s[k];
    var q := if m.returnsType != [] then (c.seq_ + 1) % 0x1_0000_0000 else c.seq_;
    var e := C.Outgoing(Generic(o.id, k, (if m.returnsType != [] then [Word(SEQ, q)] else []) + args), o.seq_,
                        m.isDestructor);
    && t == c.(seq_ := q, objects := t.objects, pending := t.pending, sent := t.sent, error := t.error)
    && if !Marshallable(m.params, 0) then t.error && t.sent == c.sent && t.pending == c.pending
       else
         && t.error == c.error
         && t.pending == c.pending + (if o.id == 0 then [e] else [])
         && t.sent == c.sent + (if o.id != 0 && c.connected then [e] else [])
  }

  lemma CallMade(impls: seq<ProtocolSpec>, c: C.ClientState, o: C.ClientObject, k: u32, args: seq<Value>)
    requires k < |o.spec.c2s| && o.spec.c2s[k].since <= o.version
    ensures var t := C.CallOn(impls, c, o, k, args);
      && Emits(c, t, o, k, args) && c.objects <= t.objects
      && (o.spec.c2s[k].returnsType == [] || !Marshallable(o.spec.c2s[k].params, 0) ==> t.objects == c.objects)
  {
    hide FindProtocol, FindObject;
    assert c.sent + [] == c.sent && c.pending + [] == c.pending;
  }

  lemma EmitsAnyTable(c: C.ClientState, t: C.ClientState, o: C.ClientObject, k: u32, args: seq<Value>,
      objects: seq<C.ClientObject>)
    requires k < |o.spec.c2s| && Emits(c.(objects := objects), t, o, k, args)
    ensures Emits(c, t, o, k, args)
  {
  }

  /** A call of the application. If its object's version has no such method, nothing happens. Else
      it has its effect outside the table; a destructor marks its object; and no other object
      of the table changes, though a new one may come behind. */
  lemma CallVerdict(impls: seq<ProtocolSpec>, c: C.ClientState, i: nat, k: u32, args: seq<Value>)
    requires i < |c.objects|
    ensures var o := c.objects[i]; var t := C.CallObject(impls, c, i, k, args);
      if k >= |o.spec.c2s| || o.spec.c2s[k].since > o.version then t == c
      else
        && Emits(c, t, o, k, args)
        && c.objects[i := o.(destroyed := o.destroyed || o.spec.c2s[k].isDestructor)] <= t.objects
        && (o.spec.c2s[k].returnsType == [] || !Marshallable(o.spec.c2s[k].params, 0) ==>
            |t.objects| == |c.objects|)
  {
    hide C.CallOn, Marshallable, Emits;
    var o := c.objects[i];
    assert c.objects[i := o] == c.objects;
    if C.Callable(o, k) {
      var marked := c.objects[i := o.(destroyed := o.destroyed || o.spec.c2s[k].isDestructor)];
      CallMade(impls, c.(objects := marked), o, k, args);
      EmitsAnyTable(c, C.CallOn(impls, c.(objects := marked), o, k, args), o, k, args, marked);
    }
  }

  /** The object a call returns: of the first type of the name in the first protocol of the name,
      without an id and at version 0. */
  lemma ChildVerdict(impls: seq<ProtocolSpec>, c: C.ClientState, protocol: Text, name: Text, q: u32, i: nat, j: nat)
    requires Names(impls, protocol, name, i, j)
    ensures C.MakeObject(impls, c, protocol, name, q) ==
      c.(objects := c.objects + [C.ClientObject(0, q, 0, impls[i].objects[j], protocol, false, {}, false)])
  {
    var i' := ProtocolAt(impls, protocol);
    assert i' == i;
    var j' := ObjectAt(impls[i].objects, name);
    assert j' == j;
  }

  /** An object is made only if the client knows the type. */
  lemma KnownChild(impls: seq<ProtocolSpec>, c: C.ClientState, protocol: Text, name: Text, q: u32)
      returns (i: nat, j: nat)
    requires C.MakeObject(impls, c, protocol, name, q) != c
    ensures Names(impls, protocol, name, i, j)
  {
    hide FindProtocol, FindObject;
    i := ProtocolAt(impls, protocol);
    j := ObjectAt(impls[i].objects, name);
  }

  /** A bind to a version newer than the protocol's costs the connection, and nothing is sent. Any
      other makes an object with the next number and sends its request. */
  lemma BindVerdict(c: C.ClientState, spec: ProtocolSpec, version: u32)
    requires spec.objects != []
    ensures var t := C.Bind(c, spec, version); var q := (c.seq_ + 1) % 0x1_0000_0000;
      if version > spec.version then t == c.(error := true, connected := false)
      else
        && t == c.(seq_ := q, objects := t.objects, sent := t.sent)
        && t.objects == c.objects + [C.ClientObject(0, q, version, spec.objects[0], spec.name, false, {}, true)]
        && t.sent == c.sent +
             if c.connected then [C.Outgoing(BindProtocol(q, spec.name, version), 0, false)] else []
  {
    assert c.sent + [] == c.sent;
  }
}