/** Every honest step keeps the invariant. */
module SessionSteps {
  import opened Bytes
  import opened VarInt
  import opened Arguments
  import opened Specs
  import opened SpecNames
  import opened Messages
  import opened WireObject
  import CallRoundTrip
  import opened Session
  import opened Invariant
  import C = Client
  import S = Server
  import CT = ClientTables
  import CS = ClientSteps
  import SS = ServerSteps

  // The handshake's baton.

  lemma {:induction false} ClientSaysAt(stage: Stage, sent: seq<C.Outgoing>, read: nat, j: nat)
    requires ClientHandshake(stage, sent, read) && read <= j < |sent|
    ensures ClientSays(stage, j, sent[j].msg)
  {
    if j < |sent| - 1 {
      ClientSaysAt(stage, sent[..|sent| - 1], read, j);
    }
  }

  lemma {:induction false} ServerSaysAt(env: Env, stage: Stage, sent: seq<Message>, read: nat, p: nat)
    requires ServerHandshake(env, stage, sent, read) && read <= p < |sent|
    ensures ServerSays(env, stage, p, sent[p])
  {
    if p < |sent| - 1 {
      ServerSaysAt(env, stage, sent[..|sent| - 1], read, p);
    }
  }

  /** Behind the handshake message being read there is no other; reading any other message
      does not change the stage. */
  lemma {:induction false} ClientHandshakeRead(stage: Stage, stage': Stage, sent: seq<C.Outgoing>, read: nat)
    requires ClientHandshake(stage, sent, read) && read < |sent|
    requires stage' == stage || (stage == Greeting && read == 0) || stage == Acked(read)
    ensures ClientHandshake(stage', sent, read + 1)
  {
    if |sent| - 1 > read {
      ClientHandshakeRead(stage, stage', sent[..|sent| - 1], read);
    }
  }

  lemma {:induction false} ServerHandshakeRead(env: Env, stage: Stage, stage': Stage, sent: seq<Message>, read: nat)
    requires ServerHandshake(env, stage, sent, read) && read < |sent|
    requires stage' == stage || stage == Began(read) || stage == Listed(read)
    ensures ServerHandshake(env, stage', sent, read + 1)
  {
    if |sent| - 1 > read {
      ServerHandshakeRead(env, stage, stage', sent[..|sent| - 1], read);
    }
  }

  /** While the baton is on the other channel, this one holds no handshake message. */
  lemma {:induction false} ClientHandshakeIdle(stage: Stage, stage': Stage, sent: seq<C.Outgoing>, read: nat)
    requires ClientHandshake(stage, sent, read) && !stage.Greeting? && !stage.Acked?
    ensures ClientHandshake(stage', sent, read)
  {
    if |sent| > read {
      ClientHandshakeIdle(stage, stage', sent[..|sent| - 1], read);
    }
  }

  lemma {:induction false} ServerHandshakeIdle(env: Env, stage: Stage, stage': Stage, sent: seq<Message>, read: nat)
    requires ServerHandshake(env, stage, sent, read) && !stage.Began? && !stage.Listed?
    ensures ServerHandshake(env, stage', sent, read)
  {
    if |sent| > read {
      ServerHandshakeIdle(env, stage, stage', sent[..|sent| - 1], read);
    }
  }

  lemma ClientHandshakeAppend(stage: Stage, sent: seq<C.Outgoing>, read: nat, e: C.Outgoing)
    requires ClientHandshake(stage, sent, read) && ClientSays(stage, |sent|, e.msg)
    ensures ClientHandshake(stage, sent + [e], read)
  {
    assert (sent + [e])[..|sent|] == sent;
  }

  lemma ServerHandshakeAppend(env: Env, stage: Stage, sent: seq<Message>, read: nat, m: Message)
    requires ServerHandshake(env, stage, sent, read) && ServerSays(env, stage, |sent|, m)
    ensures ServerHandshake(env, stage, sent + [m], read)
  {
    assert (sent + [m])[..|sent|] == sent;
  }

  // Growth of the client's log by calls and binds.

  predicate Quiet(m: Message) { m.Generic? || m.BindProtocol? }

  predicate AllQuiet(out: seq<C.Outgoing>) {
    out == [] || (Quiet(out[|out| - 1].msg) && AllQuiet(out[..|out| - 1]))
  }

  lemma {:induction false} AllQuietAppend(a: seq<C.Outgoing>, b: seq<C.Outgoing>)
    requires AllQuiet(a) && AllQuiet(b)
    ensures AllQuiet(a + b)
  {
    if b == [] {
      assert a + b == a;
    } else {
      assert (a + b)[..|a + b| - 1] == a + b[..|b| - 1];
      AllQuietAppend(a, b[..|b| - 1]);
    }
  }

  lemma {:induction false} QuietGrowth(stage: Stage, sent: seq<C.Outgoing>, out: seq<C.Outgoing>, read: nat)
    requires ClientHandshake(stage, sent, read) && AllQuiet(out)
    ensures ClientHandshake(stage, sent + out, read) && LastRequest(sent + out) == LastRequest(sent)
  {
    if out == [] {
      assert sent + out == sent;
    } else {
      var n := |out| - 1;
      QuietGrowth(stage, sent, out[..n], read);
      assert sent + out == sent + out[..n] + [out[n]];
      ClientHandshakeAppend(stage, sent + out[..n], read, out[n]);
      assert (sent + out)[..|sent + out| - 1] == sent + out[..n];
    }
  }

  /** What a client step may change besides its tables: its log, by calls and binds, and
      the connection, by losing it. */
  ghost predicate Quietly(c: C.ClientState, c': C.ClientState) {
    && c.sent <= c'.sent && AllQuiet(c'.sent[|c.sent|..])
    && c'.handshakeDone == c.handshakeDone && c'.serverSpecs == c.serverSpecs
    && c'.acked == c.acked && c'.lastSent == c.lastSent && (c'.connected ==> c.connected)
  }

  lemma QuietlyTwice(a: C.ClientState, b: C.ClientState, c: C.ClientState)
    requires Quietly(a, b) && Quietly(b, c)
    ensures Quietly(a, c)
  {
    AllQuietAppend(b.sent[|a.sent|..], c.sent[|b.sent|..]);
    assert c.sent[|a.sent|..] == b.sent[|a.sent|..] + c.sent[|b.sent|..];
  }

  lemma QuietlySame(c: C.ClientState, c': C.ClientState)
    requires c'.sent == c.sent && c'.handshakeDone == c.handshakeDone && c'.serverSpecs == c.serverSpecs
    requires c'.acked == c.acked && c'.lastSent == c.lastSent && (c'.connected ==> c.connected)
    ensures Quietly(c, c')
  {
  }

  lemma QuietlySend(c: C.ClientState, e: C.Outgoing)
    requires Quiet(e.msg)
    ensures Quietly(c, C.Send(c, e))
  {
    assert (c.sent + [e])[|c.sent|..] == [e] && [e][..0] == [];
  }

  lemma CallQuietly(impls: seq<ProtocolSpec>, c: C.ClientState, i: nat, k: u32, args: seq<Value>)
    requires i < |c.objects|
    ensures Quietly(c, C.CallObject(impls, c, i, k, args))
  {
    hide Quietly, C.MakeObject, Marshallable;
    var o := c.objects[i];
    if !C.Callable(o, k) {
      QuietlySame(c, c);
    } else {
      var marked := if o.spec.c2s[k].isDestructor then c.(objects := c.objects[i := o.(destroyed := true)]) else c;
      QuietlySame(c, marked);
      CallOnQuietly(impls, marked, o, k, args);
      QuietlyTwice(c, marked, C.CallOn(impls, marked, o, k, args));
    }
  }

  lemma MakeQuietly(impls: seq<ProtocolSpec>, c: C.ClientState, protocol: Text, name: Text, q: u32)
    ensures Quietly(c, C.MakeObject(impls, c, protocol, name, q))
  {
    hide FindProtocol, FindObject;
    QuietlySame(c, C.MakeObject(impls, c, protocol, name, q));
  }

  lemma CallOnQuietly(impls: seq<ProtocolSpec>, c: C.ClientState, o: C.ClientObject, k: u32, args: seq<Value>)
    requires C.Callable(o, k)
    ensures Quietly(c, C.CallOn(impls, c, o, k, args))
  {
    hide Quietly, C.MakeObject, Marshallable, C.Send;
    var m := o.spec.c2s[k];
    var q := C.SeqAfter(c, m);
    var counted := c.(seq_ := q);
    QuietlySame(c, counted.(error := true));
    QuietlySame(c, counted);
    var e := C.Outgoing(Generic(o.id, k, CallRoundTrip.CallArgs(m, q, args)), o.seq_, m.isDestructor);
    QuietlySame(counted, counted.(pending := counted.pending + [e]));
    QuietlySend(counted, e);
    var out := if o.id == 0 then counted.(pending := counted.pending + [e]) else C.Send(counted, e);
    QuietlyTwice(c, counted, out);
    MakeQuietly(impls, out, o.protocol, m.returnsType, q);
    QuietlyTwice(c, out, C.MakeObject(impls, out, o.protocol, m.returnsType, q));
  }

  lemma FarewellQuietly(impls: seq<ProtocolSpec>, c: C.ClientState, o: C.ClientObject)
    ensures Quietly(c, C.Farewell(impls, c, o))
  {
    hide Quietly, C.CallOn, C.AutoDestructor;
    QuietlySame(c, c);
    var auto := C.AutoDestructor(o.spec.c2s, o.version);
    if auto.Auto? && C.Callable(o, auto.idx) {
      CallOnQuietly(impls, c, o, auto.idx, []);
    }
  }

  lemma {:induction false} FarewellsQuietly(impls: seq<ProtocolSpec>, c: C.ClientState, rest: seq<C.ClientObject>)
    ensures Quietly(c, C.Farewells(impls, c, rest))
    decreases |rest|
  {
    hide Quietly, C.Farewell;
    QuietlySame(c, c);
    if rest == [] {
    } else {
      var next := if C.Orphaned(rest[0]) then C.Farewell(impls, c, rest[0]) else c;
      FarewellQuietly(impls, c, rest[0]);
      FarewellsQuietly(impls, next, rest[1..]);
      QuietlyTwice(c, next, C.Farewells(impls, next, rest[1..]));
    }
  }

  lemma CollectQuietly(impls: seq<ProtocolSpec>, c: C.ClientState)
    ensures Quietly(c, C.Collect(impls, c))
  {
    hide Quietly, C.Farewells;
    var kept := c.(objects := C.Survivors(c.objects));
    QuietlySame(c, kept);
    FarewellsQuietly(impls, kept, c.objects);
    QuietlyTwice(c, kept, C.Collect(impls, c));
  }

  /** Only calls are kept back. */
  lemma {:induction false} FlushAllQuietly(env: Env, kinds: seq<Kind>, c: C.ClientState, rest: seq<C.Outgoing>)
    requires AllCalls(rest)
    ensures Quietly(c, C.FlushAll(c, rest))
    decreases |rest|
  {
    hide Quietly, C.Send;
    QuietlySame(c, c);
    if rest == [] {
    } else {
      var next := C.FlushOne(c, rest[0]);
      QuietlySame(c, c.(pending := c.pending + [rest[0]]));
      var i := C.FindSeq(c.objects, rest[0].origin);
      if i >= 0 {
        QuietlySend(c, C.ResolvedTo(rest[0], c.objects[i].id));
      }
      FlushAllQuietly(env, kinds, next, rest[1..]);
      QuietlyTwice(c, next, C.FlushAll(next, rest[1..]));
    }
  }

  predicate AllCalls(ps: seq<C.Outgoing>) {
    ps == [] || (ps[0].msg.Generic? && AllCalls(ps[1..]))
  }

  lemma {:induction false} KeptAreCalls(env: Env, kinds: seq<Kind>, ps: seq<C.Outgoing>)
    requires AllKept(env, kinds, ps)
    ensures AllCalls(ps)
  {
    if ps == [] {
    } else {
      KeptAreCalls(env, kinds, ps[..|ps| - 1]);
      CallsSnoc(ps[..|ps| - 1], ps[|ps| - 1]);
      assert ps[..|ps| - 1] + [ps[|ps| - 1]] == ps;
    }
  }

  lemma {:induction false} CallsSnoc(ps: seq<C.Outgoing>, e: C.Outgoing)
    requires AllCalls(ps) && e.msg.Generic?
    ensures AllCalls(ps + [e])
  {
    if ps != [] {
      assert (ps + [e])[1..] == ps[1..] + [e];
      CallsSnoc(ps[1..], e);
    } else {
      assert ([] + [e])[1..] == [];
    }
  }

  lemma EndBatchQuietly(env: Env, kinds: seq<Kind>, c: C.ClientState)
    requires AllKept(env, kinds, c.pending)
    ensures Quietly(c, C.EndBatch(env.clientImpls, c))
  {
    hide Quietly, C.FlushAll, C.Collect, AllKept;
    KeptAreCalls(env, kinds, c.pending);
    var emptied := c.(pending := []);
    QuietlySame(c, emptied);
    FlushAllQuietly(env, kinds, emptied, c.pending);
    QuietlyTwice(c, emptied, C.Flush(c));
    CollectQuietly(env.clientImpls, C.Flush(c));
    QuietlyTwice(c, C.Flush(c), C.EndBatch(env.clientImpls, c));
  }

  lemma OnGenericQuietly(c: C.ClientState, target: u32, k: u32, args: seq<Value>)
    ensures Quietly(c, C.OnGeneric(c, target, k, args))
  {
    hide CalledOutcome, C.FindId, C.WithoutId;
    var t := C.OnGeneric(c, target, k, args);
    QuietlySame(c, t);
  }

  // Roundtrips.

  lemma {:induction false} MarkedExtend(sent: seq<C.Outgoing>, out: seq<C.Outgoing>, mark: seq<int>, n: nat, p: int)
    requires |mark| <= |sent| && AllMarkedBy(sent, mark, n, p)
    ensures AllMarkedBy(sent + out, mark, n, p)
  {
    if mark == [] {
    } else {
      MarkedExtend(sent, out, mark[..|mark| - 1], n, p);
    }
  }

  lemma {:induction false} AnswersExtend(answers: seq<Message>, sent: seq<C.Outgoing>, out: seq<C.Outgoing>,
      mark: seq<int>)
    requires |mark| <= |sent| && AnswersMarked(answers, sent, mark)
    ensures AnswersMarked(answers, sent + out, mark)
  {
    if answers == [] {
    } else {
      var m := answers[|answers| - 1];
      if m.RoundtripDone? {
        MarkedExtend(sent, out, mark, m.answered, |answers| - 1);
      }
      AnswersExtend(answers[..|answers| - 1], sent, out, mark);
    }
  }

  lemma {:induction false} MarksMarked(sent: seq<C.Outgoing>, mark: seq<int>, n: nat, p: int, q: int)
    requires |mark| <= |sent| && MarksBelow(mark, p) && p <= q
    ensures AllMarkedBy(sent, mark, n, q)
  {
    if mark == [] {
    } else {
      MarksMarked(sent, mark[..|mark| - 1], n, mark[|mark| - 1], q);
    }
  }

  /** A request numbered past every answer leaves all answers right. */
  lemma {:induction false} AnswersMark(answers: seq<Message>, born: seq<u32>, sent: seq<C.Outgoing>, mark: seq<int>,
      at: int)
    requires |mark| < |sent| && AnswersMarked(answers, sent, mark) && ServerLogOk(answers, born)
    requires sent[|mark|].msg.RoundtripRequest? ==> LastDone(answers) < sent[|mark|].msg.request
    ensures AnswersMarked(answers, sent, mark + [at])
  {
    if answers == [] {
    } else {
      var n := |answers| - 1;
      AnswersMark(answers[..n], born, sent, mark, at);
      assert (mark + [at])[..|mark|] == mark;
    }
  }

  lemma AnswersAppend(answers: seq<Message>, m: Message, sent: seq<C.Outgoing>, mark: seq<int>)
    requires |mark| <= |sent| && AnswersMarked(answers, sent, mark)
    requires m.RoundtripDone? ==> AllMarkedBy(sent, mark, m.answered, |answers|)
    ensures AnswersMarked(answers + [m], sent, mark)
  {
    assert (answers + [m])[..|answers|] == answers;
  }

  lemma MarksAppend(mark: seq<int>, n: int, more: int)
    requires MarksBelow(mark, n) && n <= more
    ensures MarksBelow(mark + [n], more)
  {
    assert (mark + [n])[..|mark|] == mark;
  }

  lemma {:induction false} MarksWeaken(mark: seq<int>, n: int, more: int)
    requires MarksBelow(mark, n) && n <= more
    ensures MarksBelow(mark, more)
  {
  }

  // Client steps that only make calls and binds.

  lemma KindsGrow(env: Env, kinds: seq<Kind>, more: seq<Kind>, born: seq<u32>, owed: seq<Owed>, dead: set<u32>,
      s: S.ServerState)
    requires ServerInv(env, kinds, born, owed, dead, s) && AllKinds(env, kinds + more)
    ensures ServerInv(env, kinds + more, born, owed, dead, s)
  {
    hide AllTwins, Present, ServerLogOk, AllEvents, Births, AllKinds, AllOwed, AllBorn;
    SS.AllBornGrow(born, |kinds|, |kinds + more|);
    SS.AllOwedGrow(env, kinds, more, owed);
    assert born + [] == born;
    SS.AllTwinsGrow(kinds, more, born, [], s.objects);
    SS.AllEventsGrow(kinds, more, born, [], s.sent);
  }

  lemma RoundtripsGrow(y: System, c: C.ClientState, cRead: nat)
    requires y.cRead <= |y.s.sent| && cRead <= |y.s.sent| && y.sRead <= |y.c.sent| && |y.h.mark| == y.sRead
    requires Roundtrips(y.c, y.s, y.cRead, y.sRead, y.h.mark)
    requires y.c.sent <= c.sent && LastRequest(c.sent) == LastRequest(y.c.sent)
    requires c.acked == LastDone(y.s.sent[..cRead]) && c.lastSent == y.c.lastSent && (c.connected ==> y.c.connected)
    ensures Roundtrips(c, y.s, cRead, y.sRead, y.h.mark)
  {
    hide LastRequest, LastDone, AnswersMarked, MarksBelow;
    var out := c.sent[|y.c.sent|..];
    assert c.sent == y.c.sent + out;
    assert c.sent[..y.sRead] == y.c.sent[..y.sRead];
    AnswersExtend(y.s.sent, y.c.sent, out, y.h.mark);
  }

  /** The step common to all of them. */
  lemma ClientGrows(env: Env, y: System, c: C.ClientState, more: seq<Kind>, inBatch: bool)
    requires Inv(env, y) && Quietly(y.c, c)
    requires ClientInv(env, y.h.kinds + more, y.h.born, Known(y), c) && AllKinds(env, y.h.kinds + more)
    requires c.seq_ > 0 ==> y.h.stage == Done
    requires !inBatch && c.connected ==> AllWaiting(c.objects, c.pending)
    ensures Inv(env, y.(c := c, inBatch := inBatch, h := y.h.(kinds := y.h.kinds + more)))
  {
    hide ClientInv, ServerInv, ClientHandshake, ServerHandshake, AllWaiting, AllKinds, Births, LastRequest, LastDone,
      AllQuiet, Dead, Offers, S.ExposedNames, MarksBelow, AnswersMarked;
    var out := c.sent[|y.c.sent|..];
    assert c.sent == y.c.sent + out;
    assert c.sent[..y.sRead] == y.c.sent[..y.sRead];
    KindsGrow(env, y.h.kinds, more, y.h.born, y.h.owed, Dead(y.c.sent[..y.sRead]), y.s);
    QuietGrowth(y.h.stage, y.c.sent, out, y.sRead);
    RoundtripsGrow(y, c, y.cRead);
  }

  /** Nothing new is numbered. */
  lemma ClientActs(env: Env, y: System, c: C.ClientState, inBatch: bool)
    requires Inv(env, y) && Quietly(y.c, c)
    requires ClientInv(env, y.h.kinds, y.h.born, Known(y), c)
    requires !inBatch && c.connected ==> AllWaiting(c.objects, c.pending)
    ensures Inv(env, y.(c := c, inBatch := inBatch))
  {
    hide ClientHandshake, ServerHandshake, Roundtrips, AllWaiting, AllKinds, Births, LastRequest, AllQuiet, Dead,
      Quietly, AllObjects, AllKept, AllEntries, ClientLogOk, SeqsRise;
    assert y.h.kinds + [] == y.h.kinds;
    assert y.h.(kinds := y.h.kinds) == y.h;
    ClientGrows(env, y, c, [], inBatch);
  }

  // What waits goes on waiting.

  lemma {:induction false} FindSeqAppend(objects: seq<C.ClientObject>, o: C.ClientObject, q: u32)
    requires C.FindSeq(objects, q) >= 0
    ensures C.FindSeq(objects + [o], q) == C.FindSeq(objects, q)
  {
    assert (objects + [o])[1..] == objects[1..] + [o];
    if objects[0].seq_ != q {
      FindSeqAppend(objects[1..], o, q);
    }
  }

  lemma {:induction false} WaitingAppend(objects: seq<C.ClientObject>, o: C.ClientObject, ps: seq<C.Outgoing>)
    requires AllWaiting(objects, ps)
    ensures AllWaiting(objects + [o], ps)
  {
    if ps == [] {
    } else {
      FindSeqAppend(objects, o, ps[|ps| - 1].origin);
      WaitingAppend(objects, o, ps[..|ps| - 1]);
    }
  }

  lemma {:induction false} FindSeqUpdate(objects: seq<C.ClientObject>, i: nat, o: C.ClientObject, q: u32)
    requires i < |objects| && o.seq_ == objects[i].seq_
    ensures C.FindSeq(objects[i := o], q) == C.FindSeq(objects, q)
  {
    if i > 0 {
      assert objects[i := o][1..] == objects[1..][i - 1 := o];
      FindSeqUpdate(objects[1..], i - 1, o, q);
    } else {
      assert objects[i := o][1..] == objects[1..];
    }
  }

  lemma {:induction false} WaitingUpdate(objects: seq<C.ClientObject>, i: nat, o: C.ClientObject, ps: seq<C.Outgoing>)
    requires AllWaiting(objects, ps) && i < |objects| && o.seq_ == objects[i].seq_ && o.id == objects[i].id
    ensures AllWaiting(objects[i := o], ps)
  {
    if ps == [] {
    } else {
      FindSeqUpdate(objects, i, o, ps[|ps| - 1].origin);
      WaitingUpdate(objects, i, o, ps[..|ps| - 1]);
    }
  }

  lemma {:induction false} FindSeqSurvivors(objects: seq<C.ClientObject>, q: u32)
    requires C.FindSeq(objects, q) >= 0 && objects[C.FindSeq(objects, q)].id == 0
    ensures var kept := C.Survivors(objects);
      C.FindSeq(kept, q) >= 0 && kept[C.FindSeq(kept, q)].id == 0
  {
    var rest := C.Survivors(objects[1..]);
    assert [] + rest == rest && ([objects[0]] + rest)[1..] == rest;
    if objects[0].seq_ != q {
      FindSeqSurvivors(objects[1..], q);
    }
  }

  lemma {:induction false} WaitingSurvivors(objects: seq<C.ClientObject>, ps: seq<C.Outgoing>)
    requires AllWaiting(objects, ps)
    ensures AllWaiting(C.Survivors(objects), ps)
  {
    if ps == [] {
    } else {
      FindSeqSurvivors(objects, ps[|ps| - 1].origin);
      WaitingSurvivors(objects, ps[..|ps| - 1]);
    }
  }

  lemma {:induction false} FindSeqAt(objects: seq<C.ClientObject>, bound: int, i: nat)
    requires SeqsRise(objects, bound) && i < |objects|
    ensures C.FindSeq(objects, objects[i].seq_) == i
    decreases i
  {
    CT.RiseTail(objects, bound);
    if i > 0 {
      CT.FreeAt(objects[1..], objects[0].seq_, i - 1);
      FindSeqAt(objects[1..], bound, i - 1);
    }
  }

  lemma MakeWaiting(impls: seq<ProtocolSpec>, c: C.ClientState, protocol: Text, name: Text, q: u32)
    requires AllWaiting(c.objects, c.pending)
    ensures var t := C.MakeObject(impls, c, protocol, name, q); AllWaiting(t.objects, t.pending)
  {
    hide FindProtocol, FindObject, AllWaiting;
    var t := C.MakeObject(impls, c, protocol, name, q);
    if t != c {
      WaitingAppend(c.objects, t.objects[|c.objects|], c.pending);
    }
  }

  /** A call is kept back only for an object that has no id. */
  lemma CallWaiting(impls: seq<ProtocolSpec>, c: C.ClientState, bound: int, i: nat, k: u32, args: seq<Value>)
    requires AllWaiting(c.objects, c.pending) && SeqsRise(c.objects, bound) && HonestCall(c, i, k, args)
    ensures var t := C.CallObject(impls, c, i, k, args); AllWaiting(t.objects, t.pending)
  {
    hide AllWaiting, SeqsRise, C.MakeObject, C.CallObject, HasPending;
    var o := c.objects[i];
    if C.Callable(o, k) {
      var m := o.spec.c2s[k];
      var q := C.SeqAfter(c, m);
      CS.CallObjectIs(impls, c, i, k, args);
      WaitingUpdate(c.objects, i, o.(destroyed := true), c.pending);
      var counted := CS.Marked(c, i, m.isDestructor).(seq_ := q);
      var e := C.Outgoing(Generic(o.id, k, CallRoundTrip.CallArgs(m, q, args)), o.seq_, m.isDestructor);
      FindSeqAt(c.objects, bound, i);
      FindSeqUpdate(c.objects, i, o.(destroyed := true), o.seq_);
      var out := CS.Emitted(counted, o, e);
      if o.id == 0 {
        CS.AllWaitingAppend(counted.objects, c.pending, e);
      }
      MakeWaiting(impls, out, o.protocol, m.returnsType, q);
    } else {
      assert C.CallObject(impls, c, i, k, args) == c by { NotCallable(impls, c, i, k, args); }
    }
  }

  lemma NotCallable(impls: seq<ProtocolSpec>, c: C.ClientState, i: nat, k: u32, args: seq<Value>)
    requires i < |c.objects| && !C.Callable(c.objects[i], k)
    ensures C.CallObject(impls, c, i, k, args) == c
  {
  }

  lemma {:induction false} FarewellsTables(impls: seq<ProtocolSpec>, c: C.ClientState, rest: seq<C.ClientObject>)
    requires OrphansCallPlain(rest)
    ensures var t := C.Farewells(impls, c, rest); t.objects == c.objects && t.pending == c.pending
    decreases |rest|
  {
    if rest == [] {
    } else {
      FarewellsTables(impls, if C.Orphaned(rest[0]) then C.Farewell(impls, c, rest[0]) else c, rest[1..]);
    }
  }

  predicate OrphansCallPlain(objects: seq<C.ClientObject>) {
    objects == [] ||
    ((C.AutoDestructor(objects[0].spec.c2s, objects[0].version).Auto? &&
      C.Callable(objects[0], C.AutoDestructor(objects[0].spec.c2s, objects[0].version).idx) ==>
        !objects[0].spec.c2s[C.AutoDestructor(objects[0].spec.c2s, objects[0].version).idx].Returns()) &&
     OrphansCallPlain(objects[1..]))
  }

  lemma {:induction false} OrphansPlain(env: Env, kinds: seq<Kind>, born: seq<u32>, known: nat, ps: seq<C.Outgoing>,
      dead: set<u32>,
                                        objects: seq<C.ClientObject>)
    requires Agreed(env) && AllKinds(env, kinds) && AllObjects(kinds, born, known, ps, dead, objects)
    ensures OrphansCallPlain(objects)
    decreases |objects|
  {
    if objects == [] {
    } else {
      hide AllObjects, Agreed, AllKinds, C.AutoDestructor, HasPending, DtorPending;
      CT.AllObjectsTail(kinds, born, known, ps, dead, objects);
      OrphansPlain(env, kinds, born, known, ps, dead, objects[1..]);
      if C.AutoDestructor(objects[0].spec.c2s, objects[0].version).Auto? {
        CS.OrphanMethod(env, kinds, objects[0]);
      }
    }
  }

  lemma CollectWaiting(env: Env, kinds: seq<Kind>, born: seq<u32>, known: nat, c: C.ClientState)
    requires Agreed(env) && AllKinds(env, kinds) && ClientInv(env, kinds, born, known, c) &&
      AllWaiting(c.objects, c.pending)
    ensures var t := C.Collect(env.clientImpls, c); AllWaiting(t.objects, t.pending)
  {
    hide AllWaiting, C.Farewells, AllObjects, Agreed, AllKinds, AllEntries, AllKept, SeqsRise, ClientLogOk,
      OrphansCallPlain;
    WaitingSurvivors(c.objects, c.pending);
    OrphansPlain(env, kinds, born, known, c.pending, Dead(c.sent), c.objects);
    FarewellsTables(env.clientImpls, c.(objects := C.Survivors(c.objects)), c.objects);
  }
}
