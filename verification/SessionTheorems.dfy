/** What every honest run has, stated about the run alone. */
module SessionTheorems {
  import opened Bytes
  import opened VarInt
  import opened Arguments
  import opened Specs
  import opened SpecNames
  import opened Messages
  import opened WireObject
  import opened CallRoundTrip
  import opened Framing
  import opened Dispatch
  import opened Session
  import opened Invariant
  import C = Client
  import S = Server
  import CT = ClientTables
  import SS = ServerSteps
  import SessionSteps
  import SessionSafety

  /** y is where some honest run of the two sides ends. */
  ghost predicate Reachable(env: Env, y: System) {
    Agreed(env) && exists steps :: Honest(env, Init(), steps) && y == Run(env, Init(), steps)
  }

  lemma ReachableInv(env: Env, y: System)
    requires Reachable(env, y)
    ensures Agreed(env) && Inv(env, y)
  {
    hide Inv, Agreed;
    var steps :| Honest(env, Init(), steps) && y == Run(env, Init(), steps);
    SessionSafety.InitInv(env);
    SessionSafety.RunKeeps(env, Init(), steps);
  }

  lemma {:induction false} RunSnoc(env: Env, y: System, steps: seq<Step>, step: Step)
    requires Honest(env, y, steps) && Enabled(env, Run(env, y, steps), step)
    ensures Honest(env, y, steps + [step]) && Run(env, y, steps + [step]) == Next(env, Run(env, y, steps), step)
    decreases |steps|
  {
    hide Enabled, Next;
    if steps == [] {
      assert [step][1..] == [];
      assert Honest(env, Next(env, y, step), []);
      assert [] + [step] == [step];
    } else {
      assert (steps + [step])[1..] == steps[1..] + [step];
      RunSnoc(env, Next(env, y, steps[0]), steps[1..], step);
    }
  }

  /** A run may go on with any step that is enabled where it ends. */
  lemma ReachableStep(env: Env, y: System, step: Step)
    requires Reachable(env, y) && Enabled(env, y, step)
    ensures Reachable(env, Next(env, y, step))
  {
    hide Enabled, Next, Agreed, Honest, Run;
    var steps :| Honest(env, Init(), steps) && y == Run(env, Init(), steps);
    RunSnoc(env, Init(), steps, step);
  }

  lemma InitReachable(env: Env)
    requires Agreed(env)
    ensures Reachable(env, Init())
  {
    assert Honest(env, Init(), []) && Run(env, Init(), []) == Init();
  }

  // Honest runs never fail.

  lemma {:induction false} NoFatal(sent: seq<Message>, born: seq<u32>, p: nat)
    requires ServerLogOk(sent, born) && p < |sent|
    ensures !sent[p].FatalError?
  {
    SS.ServerLogAt(sent, born, p);
  }

  lemma NoServerError(env: Env, y: System)
    requires Inv(env, y)
    ensures !y.s.error
  {
    hide ClientInv, ClientHandshake, ServerHandshake, Roundtrips, StageOk, AllWaiting, Births, Dead, AllTwins, Present,
      AllKinds, AllOwed, AllBorn, ServerLogOk, AllEvents;
  }

  /** In no honest run does the server set its error or send a fatal error. */
  lemma HonestRunsNeverFail(env: Env, y: System, p: nat)
    requires Reachable(env, y)
    ensures !y.s.error
    ensures p < |y.s.sent| ==> !y.s.sent[p].FatalError?
  {
    hide ClientInv, ClientHandshake, ServerHandshake, Roundtrips, StageOk, AllWaiting, Births, Dead, AllTwins, Present,
      AllKinds, AllOwed, AllBorn, ServerLogOk, AllEvents, Reachable;
    ReachableInv(env, y);
    if p < |y.s.sent| {
      NoFatal(y.s.sent, y.h.born, p);
    }
  }

  /** The next call the server takes finds a living object of the kind the client called,
      at a version that has the method. If a listener is registered it is called with a frame
      that reads back to exactly the arguments sent; if none is, nothing is checked. */
  lemma CallsArrive(env: Env, y: System) returns (i: nat)
    requires Reachable(env, y) && y.sRead < |y.c.sent| && y.c.sent[y.sRead].msg.Generic?
    ensures var m := y.c.sent[y.sRead].msg;
      && i < |y.s.objects| && S.Find(y.s.objects, m.objectId) == i && y.s.objects[i].spec.Spec?
      && var o := y.s.objects[i]; var f := o.spec.os.c2s;
      && m.method_ < |f| && f[m.method_].since <= o.version
      && TypesOf(m.args) == f[m.method_].Expected() && ReadFrame(TypesOf(m.args), SlotsOf(m.args)) == m.args
      && CalledOutcome(f, o.listeners, o.version, m.method_, m.args)
        == if m.method_ in o.listeners then Delivered([ObjectPtr] + SlotsOf(m.args)) else Ignored
  {
    hide Inv, ServerInv, Reachable, CalledOutcome, Dead;
    ReachableInv(env, y);
    NextCall(env, y);
    var e := y.c.sent[y.sRead];
    i := SS.CallAccepted(env, y.h.kinds, y.h.born, y.h.owed, Dead(y.c.sent[..y.sRead]), y.s,
                         e.msg.objectId, e.origin, e.msg.method_, e.msg.args, e.dtor);
    FrameReadsBack(e.msg.args);
  }

  /** The next message is a right call of an object that has not been destroyed. */
  lemma NextCall(env: Env, y: System)
    requires Inv(env, y) && y.sRead < |y.c.sent| && y.c.sent[y.sRead].msg.Generic?
    ensures var e := y.c.sent[y.sRead]; var id := e.msg.objectId; var dead := Dead(y.c.sent[..y.sRead]);
      && ServerInv(env, y.h.kinds, y.h.born, y.h.owed, dead, y.s)
      && 1 <= id <= |y.h.born| && id !in dead && y.h.born[id - 1] == e.origin
      && CallOk(env, y.h.kinds, e.origin, e.msg.method_, e.msg.args, e.dtor)
  {
    hide ClientInv, ServerInv, ClientHandshake, ServerHandshake, Roundtrips, StageOk, AllWaiting, Births, Dead,
      LastRequest, CallOk;
    SessionSafety.TakeNext(env, y);
  }

  // The bytes of a batch.

  lemma EntryTransmissible(env: Env, kinds: seq<Kind>, born: seq<u32>, known: nat, e: C.Outgoing)
    requires EntryOk(env, kinds, born, known, e)
    ensures Transmissible(e.msg)
  {
  }

  /** The server takes the next n messages as one batch, its application standing still. */
  function TakeBatch(env: Env, y: System, n: nat): System
    requires y.sRead + n <= |y.c.sent|
    decreases n
  {
    if n == 0 then y else TakeBatch(env, HandleOnServer(env, y), n - 1)
  }

  lemma {:induction false} BatchTaken(env: Env, y: System, n: nat, ms: seq<Message>)
    requires Agreed(env) && Inv(env, y) && y.sRead + n <= |y.c.sent| && y.s.maxId + n <= 0xFFFF_FFFF && |ms| == n
    requires forall j :: 0 <= j < n ==> ms[j] == y.c.sent[y.sRead + j].msg
    ensures S.HandleAll(env.server, y.s, ms) == TakeBatch(env, y, n).s && Inv(env, TakeBatch(env, y, n))
    decreases n
  {
    hide ClientInv, ClientHandshake, ServerHandshake, Roundtrips, StageOk, AllWaiting, Births, Dead, AllTwins, Present,
      AllKinds, AllOwed, AllBorn, ServerLogOk, AllEvents, Agreed, S.Handle;
    if n > 0 {
      assert ms[0] == y.c.sent[y.sRead].msg;
      SessionSafety.ServerHandleStep(env, y);
      var z := HandleOnServer(env, y);
      MaxIdStep(env, y);
      forall j | 0 <= j < n - 1 ensures ms[1..][j] == z.c.sent[z.sRead + j].msg {
        assert ms[1..][j] == ms[j + 1];
      }
      BatchTaken(env, z, n - 1, ms[1..]);
    }
  }

  lemma MaxIdStep(env: Env, y: System)
    requires Inv(env, y) && y.sRead < |y.c.sent| && Inv(env, HandleOnServer(env, y))
    ensures HandleOnServer(env, y).s.maxId <= y.s.maxId + 1
  {
    hide ClientInv, ClientHandshake, ServerHandshake, Roundtrips, StageOk, AllWaiting, Births, Dead, AllTwins, Present,
      AllKinds, AllOwed, AllBorn, ServerLogOk, AllEvents, S.Handle, OwedBy;
  }

  lemma {:induction false} MessagesTransmissible(env: Env, y: System, n: nat, ms: seq<Message>)
    requires Inv(env, y) && y.sRead + n <= |y.c.sent| && |ms| == n
    requires forall j :: 0 <= j < n ==> ms[j] == y.c.sent[y.sRead + j].msg
    ensures AllTransmissible(ms)
  {
    hide ServerInv, ClientHandshake, ServerHandshake, Roundtrips, StageOk, AllWaiting, Births, Dead, AllObjects,
      AllKept, ClientLogOk, SeqsRise, EntryOk, Transmissible, AllEntries;
    forall m | m in ms ensures Transmissible(m) {
      var j :| 0 <= j < n && ms[j] == m;
      CT.EntryAt(env, y.h.kinds, y.h.born, Known(y), y.c.sent, y.sRead + j);
      EntryTransmissible(env, y.h.kinds, y.h.born, Known(y), y.c.sent[y.sRead + j]);
    }
  }

  /** From bytes to effect: however many of the messages under way arrive together, their
      bytes are cut back into exactly those messages with exactly their descriptors, and
      dispatching the bytes handles them all, sets no error, and answers the last request. */
  lemma BatchesArrive(env: Env, y: System, n: nat, ms: seq<Message>)
    requires Reachable(env, y) && y.sRead + n <= |y.c.sent| && y.s.maxId + n <= 0xFFFF_FFFF && |ms| == n
    requires forall j :: 0 <= j < n ==> ms[j] == y.c.sent[y.sRead + j].msg
    requires n > 0
    ensures CutBatch(EncodeBatch(ms), 0, BatchFds(ms)) == Cut(ms, [])
    ensures var t := DispatchServer(env.server, y.s, Received(EncodeBatch(ms), BatchFds(ms)));
      !t.error && t == S.EndBatch(TakeBatch(env, y, n).s)
  {
    hide Agreed, TakeBatch, ClientInv, ClientHandshake, ServerHandshake, Roundtrips, StageOk, AllWaiting, Births, Dead,
      AllTwins, Present, AllKinds, AllOwed, AllBorn, ServerLogOk, AllEvents, DispatchServer, S.HandleAll, AllFromClient;
    ReachableInv(env, y);
    MessagesTransmissible(env, y, n, ms);
    BatchFraming(ms);
    BatchTaken(env, y, n, ms);
    MessagesFromClient(env, y, n, 0, ms);
    assert ms[0..] == ms;
    DispatchHandles(env.server, y.s, ms);
  }

  lemma {:induction false} MessagesFromClient(env: Env, y: System, n: nat, j: nat, ms: seq<Message>)
    requires Inv(env, y) && y.sRead + n <= |y.c.sent| && |ms| == n && j <= n
    requires forall j :: 0 <= j < n ==> ms[j] == y.c.sent[y.sRead + j].msg
    ensures AllFromClient(ms[j..])
    decreases n - j
  {
    hide ServerInv, ClientHandshake, ServerHandshake, Roundtrips, StageOk, AllWaiting, Births, Dead, AllObjects,
      AllKept, ClientLogOk, SeqsRise, AllEntries, CallOk, BindOk;
    if j < n {
      CT.EntryAt(env, y.h.kinds, y.h.born, Known(y), y.c.sent, y.sRead + j);
      assert ms[j..][1..] == ms[j + 1..] && ms[j] == y.c.sent[y.sRead + j].msg;
      MessagesFromClient(env, y, n, j + 1, ms);
    }
  }

  // The other direction.

  lemma {:induction false} DecimalLength(n: nat, k: nat)
    requires k >= 1 && n < Power10(k)
    ensures |Decimal(n)| <= k
  {
    if n >= 10 {
      DecimalLength(n / 10, k - 1);
    }
  }

  function Power10(k: nat): nat { if k == 0 then 1 else 10 * Power10(k - 1) }

  lemma {:induction false} OffersShort(impls: seq<ProtocolSpec>, exposed: seq<Text>)
    requires forall p :: p in impls ==> |p.name| + 11 < LIMIT
    ensures ShortTexts(Printed(S.Offered(impls, exposed))) && |S.Offered(impls, exposed)| <= |impls|
  {
    if impls == [] {
    } else {
      var p := impls[0];
      OffersShort(impls[1..], exposed);
      var rest := S.Offered(impls[1..], exposed);
      TenDigits(p.version);
      assert ([ServerSpec(p.name, p.version)] + rest)[1..] == rest && [] + rest == rest;
      PrintedShort(ServerSpec(p.name, p.version), rest);
    }
  }

  lemma PrintedShort(s: ServerSpec, rest: seq<ServerSpec>)
    requires ShortTexts(Printed(rest)) && |s.name| + 11 < LIMIT && |Decimal(s.version)| <= 10
    ensures ShortTexts(Printed([s] + rest))
  {
    hide Decimal;
    assert ([s] + rest)[1..] == rest;
    assert Printed([s] + rest) == [PrintSpec(s)] + Printed(rest);
  }

  lemma TenDigits(n: u32)
    ensures |Decimal(n)| <= 10
  {
    assert Power10(5) == 100000 && Power10(8) == 100000000 && Power10(10) == 10000000000;
    DecimalLength(n, 10);
  }

  /** What the server sends can all be read: however many of its messages arrive together,
      the client cuts the bytes back into exactly those messages. */
  lemma EventsArrive(env: Env, y: System, n: nat)
    requires Reachable(env, y) && y.cRead + n <= |y.s.sent|
    ensures var ms := y.s.sent[y.cRead..y.cRead + n]; CutBatch(EncodeBatch(ms), 0, BatchFds(ms)) == Cut(ms, [])
  {
    hide ClientInv, ClientHandshake, ServerHandshake, Roundtrips, StageOk, AllWaiting, Births, Dead, AllTwins, Present,
      AllKinds, AllOwed, AllBorn, ServerLogOk, AllEvents, Reachable, Agreed, EncodeBatch, BatchFds, CutBatch,
      Transmissible;
    ReachableInv(env, y);
    var ms := y.s.sent[y.cRead..y.cRead + n];
    forall m | m in ms ensures Transmissible(m) {
      var j :| 0 <= j < n && ms[j] == m;
      EventTransmissible(env, y, y.cRead + j);
    }
    BatchFraming(ms);
  }

  lemma EventTransmissible(env: Env, y: System, p: nat)
    requires Agreed(env) && Inv(env, y) && y.cRead <= p < |y.s.sent|
    ensures Transmissible(y.s.sent[p])
  {
    hide ClientInv, ClientHandshake, ServerHandshake, Roundtrips, StageOk, AllWaiting, Births, Dead, AllTwins, Present,
      AllKinds, AllOwed, AllBorn, ServerLogOk, AllEvents, S.ExposedNames, LastDone;
    SS.ServerLogAt(y.s.sent, y.h.born, p);
    SS.EventAt(y.h.kinds, y.h.born, y.s.sent, p);
    SessionSteps.ServerSaysAt(env, y.h.stage, y.s.sent, y.cRead, p);
    OffersShort(env.server.impls, S.ExposedNames(env.server.impls, env.server.filter));
  }

  // Sequence numbers and ids.

  /** An id up to the count of announcements was announced, for the number it was made for. */
  lemma {:induction false} AnnouncedAt(sent: seq<Message>, born: seq<u32>, id: u32) returns (p: nat)
    requires ServerLogOk(sent, born) && 1 <= id <= Births(sent)
    ensures p < |sent| && id <= |born| && sent[p] == NewObject(id, born[id - 1])
  {
    var n := |sent| - 1;
    if id <= Births(sent[..n]) {
      p := AnnouncedAt(sent[..n], born, id);
    } else {
      p := n;
    }
  }

  lemma {:induction false} ServerLogPrefix(sent: seq<Message>, born: seq<u32>, n: nat)
    requires ServerLogOk(sent, born) && n <= |sent|
    ensures ServerLogOk(sent[..n], born)
  {
    if n < |sent| {
      ServerLogPrefix(sent[..|sent| - 1], born, n);
      assert sent[..|sent| - 1][..n] == sent[..n];
    } else {
      assert sent[..n] == sent;
    }
  }

  /** The client's numbers are distinct and counted, and an object's id is one the server
      assigned to that number, in an announcement the client has read. */
  lemma IdsAreAssigned(env: Env, y: System, i: nat) returns (p: nat)
    requires Reachable(env, y) && i < |y.c.objects|
    ensures 1 <= y.c.objects[i].seq_ <= y.c.seq_
    ensures y.c.objects[i].id != 0 ==>
      p < y.cRead <= |y.s.sent| && y.s.sent[p] == NewObject(y.c.objects[i].id, y.c.objects[i].seq_)
      && y.c.objects[i].id < y.s.maxId
  {
    hide ClientHandshake, ServerHandshake, Roundtrips, StageOk, AllWaiting, Births, Dead, AllObjects, AllKept,
      AllEntries, ClientLogOk, SeqsRise, AllTwins, Present, AllKinds, AllOwed, AllBorn, ServerLogOk, AllEvents,
      HasPending, DtorPending, Reachable;
    ReachableInv(env, y);
    CT.ObjectAt(y.h.kinds, y.h.born, Known(y), y.c.pending, Dead(y.c.sent), y.c.objects, i);
    p := 0;
    if y.c.objects[i].id != 0 {
      ServerLogPrefix(y.s.sent, y.h.born, y.cRead);
      p := AnnouncedAt(y.s.sent[..y.cRead], y.h.born, y.c.objects[i].id);
    }
  }

  lemma {:induction false} SeqsDistinct(objects: seq<C.ClientObject>, bound: int, i: nat, j: nat)
    requires SeqsRise(objects, bound) && i < j < |objects|
    ensures objects[i].seq_ < objects[j].seq_
    decreases |objects|
  {
    var n := |objects| - 1;
    if j < n {
      SeqsDistinct(objects[..n], objects[n].seq_ - 1, i, j);
    } else {
      CT.SeqBelow(objects[..n], objects[n].seq_ - 1, i);
    }
  }

  /** No two objects of the client share a number, or an id. */
  lemma IdsInjective(env: Env, y: System, i: nat, j: nat)
    requires Reachable(env, y) && i < j < |y.c.objects|
    ensures y.c.objects[i].seq_ < y.c.objects[j].seq_
    ensures y.c.objects[i].id != 0 ==> y.c.objects[i].id != y.c.objects[j].id
  {
    hide ClientHandshake, ServerHandshake, Roundtrips, StageOk, AllWaiting, Births, Dead, AllObjects, AllKept,
      AllEntries, ClientLogOk, SeqsRise, ServerInv, HasPending, DtorPending, Reachable;
    ReachableInv(env, y);
    SeqsDistinct(y.c.objects, |y.h.kinds|, i, j);
    CT.ObjectAt(y.h.kinds, y.h.born, Known(y), y.c.pending, Dead(y.c.sent), y.c.objects, i);
    CT.ObjectAt(y.h.kinds, y.h.born, Known(y), y.c.pending, Dead(y.c.sent), y.c.objects, j);
  }

  /** The two halves of an object agree on its type and protocol; the client's version is
      never newer than the server's, so a method the client may call the server has. */
  lemma TwinsAgree(env: Env, y: System, i: nat, j: nat)
    requires Reachable(env, y) && i < |y.c.objects| && j < |y.s.objects|
    requires y.c.objects[i].id == y.s.objects[j].id
    ensures var o, t := y.c.objects[i], y.s.objects[j];
      t.spec == Spec(o.spec) && t.protocol == o.protocol && o.version <= t.version
  {
    hide ClientHandshake, ServerHandshake, Roundtrips, StageOk, AllWaiting, Births, Dead, AllObjects, AllKept,
      AllEntries, ClientLogOk, SeqsRise, AllTwins, Present, AllKinds, AllOwed, AllBorn, ServerLogOk, AllEvents,
      HasPending, DtorPending, Reachable;
    ReachableInv(env, y);
    CT.ObjectAt(y.h.kinds, y.h.born, Known(y), y.c.pending, Dead(y.c.sent), y.c.objects, i);
    SS.TwinAt(y.h.kinds, y.h.born, y.s.objects, j);
  }

  lemma {:induction false} IdGone(objects: seq<C.ClientObject>, id: u32)
    ensures C.FindId(C.WithoutId(objects, id), id) < 0
  {
    if objects == [] {
    } else {
      IdGone(objects[1..], id);
      var rest := C.WithoutId(objects[1..], id);
      assert [] + rest == rest && ([objects[0]] + rest)[1..] == rest;
    }
  }

  /** What an event does to the client, once its object is found and its method and types are
      right: a listener is called if the client's own version has the method, and a destructor
      takes the object away; but an event that is too new for a listener has no effect. */
  lemma EventOutcome(c: C.ClientState, i: nat, k: u32, args: seq<Value>)
    requires i < |c.objects| && C.FindId(c.objects, c.objects[i].id) == i && c.objects[i].id != 0
    requires k < |c.objects[i].spec.s2c| && TypesOf(args) == c.objects[i].spec.s2c[k].Expected()
    ensures var t := C.OnGeneric(c, c.objects[i].id, k, args); t.error == c.error && t.connected == c.connected
    ensures var o := c.objects[i]; var f := o.spec.s2c[k]; var t := C.OnGeneric(c, o.id, k, args);
      if k in o.listeners && f.since > o.version then t == c
      else
        && t.calls == c.calls + (if k in o.listeners then [S.Call(o.id, k, [ObjectPtr] + SlotsOf(args))] else [])
        && (if f.isDestructor then C.FindId(t.objects, o.id) < 0 else t.objects == c.objects)
  {
    hide C.WithoutId, C.FindId;
    assert SlotsOf(args)[..|TypesOf(args)|] == SlotsOf(args);
    IdGone(c.objects, c.objects[i].id);
    assert c.calls + [] == c.calls;
  }

  /** Towards the client. The next event the client reads belongs to an object announced to it
      before. If its id is not in the client's table, the client disconnects; if it is, error flag
      and connection stay as they are. In that case the event's method
      is one of the object's, its arguments are of that method's types, and the listener, if
      there is one, is called with a frame that reads back to the arguments sent, exactly if the
      client's own version of the object has the method; if it has not, nothing happens. */
  lemma EventReaches(env: Env, y: System) returns (i: int, p: nat)
    requires Reachable(env, y) && y.cRead < |y.s.sent| && y.s.sent[y.cRead].Generic?
    ensures p < y.cRead && y.s.sent[p].NewObject? && y.s.sent[p].id == y.s.sent[y.cRead].objectId
    ensures i == C.FindId(y.c.objects, y.s.sent[y.cRead].objectId)
    ensures i < 0 ==> HandleOnClient(y).c == C.Disconnect(y.c)
    ensures i >= 0 ==> HandleOnClient(y).c.error == y.c.error && HandleOnClient(y).c.connected == y.c.connected
    ensures i >= 0 ==>
      var m, o := y.s.sent[y.cRead], y.c.objects[i];
      var k, f, t := m.method_, o.spec.s2c, HandleOnClient(y).c;
      && k < |f| && !f[k].Returns() && TypesOf(m.args) == f[k].params &&
        ReadFrame(TypesOf(m.args), SlotsOf(m.args)) == m.args
      && if k in o.listeners && f[k].since > o.version then t == y.c
         else
           && t.calls == y.c.calls + (if k in o.listeners then [S.Call(o.id, k, [ObjectPtr] + SlotsOf(m.args))] else [])
           && (if f[k].isDestructor then C.FindId(t.objects, o.id) < 0 else t.objects == y.c.objects)
  {
    hide Inv, Reachable, HandleOnClient, EventOk, C.FindId;
    ReachableInv(env, y);
    var m := y.s.sent[y.cRead];
    p := EventAnnounced(env, y);
    i := C.FindId(y.c.objects, m.objectId);
    if i >= 0 {
      EventFits(env, y, i);
      EventOutcome(y.c, i, m.method_, m.args);
      FrameReadsBack(m.args);
    } else {
      EventLost(y.c, m);
    }
    EventHandled(y);
  }

  lemma EventHandled(y: System)
    requires y.cRead < |y.s.sent| && y.s.sent[y.cRead].Generic?
    ensures var m := y.s.sent[y.cRead]; HandleOnClient(y).c == C.OnGeneric(y.c, m.objectId, m.method_, m.args)
  {
    hide C.OnGeneric;
  }

  /** The event's object was announced before. */
  lemma EventAnnounced(env: Env, y: System) returns (p: nat)
    requires Inv(env, y) && y.cRead < |y.s.sent| && y.s.sent[y.cRead].Generic?
    ensures EventOk(y.h.kinds, y.h.born, Births(y.s.sent[..y.cRead]), y.s.sent[y.cRead])
    ensures p < y.cRead && y.s.sent[p].NewObject? && y.s.sent[p].id == y.s.sent[y.cRead].objectId
  {
    hide ClientInv, ClientHandshake, ServerHandshake, Roundtrips, StageOk, AllWaiting, Births, Dead, AllTwins, Present,
      AllKinds, AllOwed, AllBorn, ServerLogOk, AllEvents;
    SS.EventAt(y.h.kinds, y.h.born, y.s.sent, y.cRead);
    ServerLogPrefix(y.s.sent, y.h.born, y.cRead);
    p := AnnouncedAt(y.s.sent[..y.cRead], y.h.born, y.s.sent[y.cRead].objectId);
  }

  /** What the client's half of an object is, by its id. */
  lemma HalfOf(env: Env, y: System, i: nat)
    requires Inv(env, y) && i < |y.c.objects| && y.c.objects[i].id != 0
    ensures var o := y.c.objects[i];
      && o.id <= |y.h.born| && 1 <= y.h.born[o.id - 1] <= |y.h.kinds| &&
        o.spec == y.h.kinds[y.h.born[o.id - 1] - 1].spec
  {
    hide ServerInv, ClientHandshake, ServerHandshake, Roundtrips, StageOk, AllWaiting, Births, Dead, AllObjects,
      AllKept, AllEntries, ClientLogOk, SeqsRise, HasPending, DtorPending;
    CT.ObjectAt(y.h.kinds, y.h.born, Known(y), y.c.pending, Dead(y.c.sent), y.c.objects, i);
  }

  /** The event's method is one of the client's half, and its arguments are right for it. */
  lemma EventFits(env: Env, y: System, i: nat)
    requires Inv(env, y) && y.cRead < |y.s.sent| && y.s.sent[y.cRead].Generic?
    requires EventOk(y.h.kinds, y.h.born, Births(y.s.sent[..y.cRead]), y.s.sent[y.cRead])
    requires i < |y.c.objects| && y.c.objects[i].id == y.s.sent[y.cRead].objectId
    ensures var m, f := y.s.sent[y.cRead], y.c.objects[i].spec.s2c;
      && m.method_ < |f| && !f[m.method_].Returns() && TypesOf(m.args) == f[m.method_].params == f[m.method_].Expected()
      && AllSendable(m.args) && m.objectId != 0
  {
    hide Inv, TypesOf, AllSendable, Births;
    HalfOf(env, y, i);
    var f := y.c.objects[i].spec.s2c[y.s.sent[y.cRead].method_];
    assert [] + f.params == f.params;
  }

  lemma EventLost(c: C.ClientState, m: Message)
    requires m.Generic? && C.FindId(c.objects, m.objectId) < 0
    ensures C.Handle(c, m) == C.Handled(C.Disconnect(c), true)
  {
  }

  // Destruction.

  lemma {:induction false} DeadAt(sent: seq<C.Outgoing>, n: nat, j: nat)
    requires j < n <= |sent| && sent[j].msg.Generic? && sent[j].dtor
    ensures sent[j].msg.objectId in Dead(sent[..n])
    decreases n
  {
    assert sent[..n][..n - 1] == sent[..n - 1];
    if j < n - 1 {
      DeadAt(sent, n - 1, j);
    }
  }

  /** Behind the destructor of an object the client sends nothing more for it: no second
      destructor, whether called, kept back until now, or sent by an orphan; and once the
      server has handled it, the object is gone. */
  lemma DestructorIsLast(env: Env, y: System, j: nat, k: nat)
    requires Reachable(env, y) && j < k < |y.c.sent| && y.c.sent[j].msg.Generic? && y.c.sent[j].dtor
    ensures y.c.sent[k].msg.Generic? ==> y.c.sent[k].msg.objectId != y.c.sent[j].msg.objectId
  {
    hide ClientHandshake, ServerHandshake, Roundtrips, StageOk, AllWaiting, Births, Dead, AllObjects, AllKept,
      AllEntries, ClientLogOk, SeqsRise, ServerInv, Reachable, LastRequest;
    ReachableInv(env, y);
    CT.ClientLogAt(y.c.sent, k);
    DeadAt(y.c.sent, k, j);
  }

  /** The log's flag is the method's: it is set exactly where the object called is of a type
      whose method is a destructor. */
  lemma FlagsAreRight(env: Env, y: System, j: nat)
    requires Reachable(env, y) && j < |y.c.sent| && y.c.sent[j].msg.Generic?
    ensures var e := y.c.sent[j]; var id := e.msg.objectId;
      && 1 <= id <= |y.h.born| && 1 <= y.h.born[id - 1] <= |y.h.kinds|
      && var f := y.h.kinds[y.h.born[id - 1] - 1].spec.c2s;
      e.msg.method_ < |f| && e.dtor == f[e.msg.method_].isDestructor
  {
    hide ClientHandshake, ServerHandshake, Roundtrips, StageOk, AllWaiting, Births, Dead, AllObjects, AllKept,
      AllEntries, ClientLogOk, SeqsRise, AllTwins, Present, AllKinds, AllOwed, AllBorn, ServerLogOk, AllEvents,
      Reachable;
    ReachableInv(env, y);
    CT.EntryAt(env, y.h.kinds, y.h.born, Known(y), y.c.sent, j);
  }

  /** A destructor the server has taken has taken the object with it. */
  lemma DestructorIsGone(env: Env, y: System, j: nat)
    requires Reachable(env, y) && j < y.sRead <= |y.c.sent| && y.c.sent[j].msg.Generic? && y.c.sent[j].dtor
    ensures S.Find(y.s.objects, y.c.sent[j].msg.objectId) < 0
  {
    hide ClientHandshake, ServerHandshake, Roundtrips, StageOk, AllWaiting, Births, Dead, AllObjects, AllKept,
      AllEntries, ClientLogOk, SeqsRise, AllTwins, Present, AllKinds, AllOwed, AllBorn, ServerLogOk, AllEvents,
      Reachable, CallOk;
    ReachableInv(env, y);
    CT.EntryAt(env, y.h.kinds, y.h.born, Known(y), y.c.sent, j);
    DeadAt(y.c.sent, y.sRead, j);
    SS.PresentAt(y.s.objects, |y.h.born|, Dead(y.c.sent[..y.sRead]), y.c.sent[j].msg.objectId);
  }

  // Handshake.

  /** A client that takes the handshake for done has been told exactly what the server
      exposes to it, and the server has recorded version 1. */
  lemma HandshakeAgreement(env: Env, y: System)
    requires Reachable(env, y) && y.c.handshakeDone
    ensures y.s.version == S.PROTOCOL_VERSION
    ensures y.s.exposed == S.ExposedNames(env.server.impls, env.server.filter)
    ensures y.c.serverSpecs == S.Offered(env.server.impls, y.s.exposed)
  {
    hide ClientInv, ServerInv, ClientHandshake, ServerHandshake, Roundtrips, AllWaiting, Births, Dead, Reachable;
    ReachableInv(env, y);
  }

  // Roundtrips.

  lemma {:induction false} MarkAt(sent: seq<C.Outgoing>, mark: seq<int>, n: nat, p: int, j: nat)
    requires |mark| <= |sent| && AllMarkedBy(sent, mark, n, p) && j < |mark|
    requires sent[j].msg.RoundtripRequest? && sent[j].msg.request <= n
    ensures mark[j] <= p
  {
    if j < |mark| - 1 {
      MarkAt(sent, mark[..|mark| - 1], n, p, j);
    }
  }

  lemma {:induction false} AnswersAt(answers: seq<Message>, sent: seq<C.Outgoing>, mark: seq<int>, p: nat)
    requires |mark| <= |sent| && AnswersMarked(answers, sent, mark) && p < |answers| && answers[p].RoundtripDone?
    ensures AllMarkedBy(sent, mark, answers[p].answered, p)
  {
    if p < |answers| - 1 {
      AnswersAt(answers[..|answers| - 1], sent, mark, p);
    }
  }

  lemma {:induction false} LastDoneAt(sent: seq<Message>, n: nat) returns (p: nat)
    requires n <= |sent| && LastDone(sent[..n]) > 0
    ensures p < n && sent[p].RoundtripDone? && sent[p].answered == LastDone(sent[..n])
    decreases n
  {
    if n > 0 {
      assert sent[..n][..n - 1] == sent[..n - 1];
      if sent[n - 1].RoundtripDone? {
        p := n - 1;
      } else {
        p := LastDoneAt(sent, n - 1);
      }
    }
  }

  lemma {:induction false} LastDoneRises(sent: seq<Message>, born: seq<u32>, n: nat, m: nat)
    requires ServerLogOk(sent, born) && n <= m <= |sent|
    ensures LastDone(sent[..n]) <= LastDone(sent[..m])
    decreases m
  {
    if n < m {
      assert sent[..m][..m - 1] == sent[..m - 1];
      LastDoneRises(sent, born, n, m - 1);
      SS.ServerLogAt(sent, born, m - 1);
    }
  }

  /** Roundtrip barrier. Once a request's number is acknowledged (by its own answer or by
      that of a later request of the same batch), the server has taken the request, so also
      every message before it, and the client has read everything the server had sent when
      it took the request. */
  lemma RoundtripBarrier(env: Env, y: System, j: nat)
    requires Reachable(env, y) && j < |y.c.sent|
    requires y.c.sent[j].msg.RoundtripRequest? && y.c.sent[j].msg.request <= y.c.acked
    ensures j < y.sRead && |y.h.mark| == y.sRead && y.h.mark[j] <= y.cRead
  {
    hide ClientHandshake, ServerHandshake, StageOk, AllWaiting, Births, Dead, AllObjects, AllKept, AllEntries,
      ClientLogOk, SeqsRise, AllTwins, Present, AllKinds, AllOwed, AllBorn, ServerLogOk, AllEvents, Reachable,
      LastRequest, LastDone, AnswersMarked, MarksBelow, EntryOk;
    ReachableInv(env, y);
    CT.ClientLogAt(y.c.sent, j);
    assert y.s.sent[..|y.s.sent|] == y.s.sent;
    LastDoneRises(y.s.sent, y.h.born, y.cRead, |y.s.sent|);
    if j >= y.sRead {
      RequestsRise(y.c.sent, y.sRead, j);
      assert false;
    }
    RequestPositive(env, y, j);
    var p := LastDoneAt(y.s.sent, y.cRead);
    AnswersAt(y.s.sent, y.c.sent, y.h.mark, p);
    MarkAt(y.c.sent, y.h.mark, y.c.acked, p, j);
  }

  lemma RequestPositive(env: Env, y: System, j: nat)
    requires Inv(env, y) && j < |y.c.sent| && y.c.sent[j].msg.RoundtripRequest?
    ensures y.c.sent[j].msg.request >= 1
  {
    hide ServerInv, ClientHandshake, ServerHandshake, StageOk, AllWaiting, Births, Dead, AllObjects, AllKept,
      AllEntries, SeqsRise, Roundtrips, LastRequest;
    CT.ClientLogAt(y.c.sent, j);
  }

  /** A request not yet taken has a number past all that were. */
  lemma {:induction false} RequestsRise(sent: seq<C.Outgoing>, n: nat, j: nat)
    requires ClientLogOk(sent) && n <= j < |sent| && sent[j].msg.RoundtripRequest?
    ensures LastRequest(sent[..n]) < sent[j].msg.request
  {
    CT.ClientLogAt(sent, j);
    LastRequestGrows(sent, n, j);
  }

  lemma {:induction false} LastRequestGrows(sent: seq<C.Outgoing>, n: nat, m: nat)
    requires ClientLogOk(sent) && n <= m <= |sent|
    ensures LastRequest(sent[..n]) <= LastRequest(sent[..m])
    decreases m
  {
    if n < m {
      assert sent[..m][..m - 1] == sent[..m - 1];
      LastRequestGrows(sent, n, m - 1);
      CT.ClientLogAt(sent, m - 1);
    }
  }

  /** Every request is answered at most once: the numbers of the answers rise. */
  lemma AnswersRise(env: Env, y: System, p: nat, r: nat)
    requires Reachable(env, y) && p < r < |y.s.sent| && y.s.sent[p].RoundtripDone? && y.s.sent[r].RoundtripDone?
    ensures y.s.sent[p].answered < y.s.sent[r].answered
  {
    hide ClientInv, ClientHandshake, ServerHandshake, Roundtrips, StageOk, AllWaiting, Births, Dead, AllTwins, Present,
      AllKinds, AllOwed, AllBorn, ServerLogOk, AllEvents, Reachable, LastDone;
    ReachableInv(env, y);
    SS.ServerLogAt(y.s.sent, y.h.born, r);
    LastDoneRises(y.s.sent, y.h.born, p + 1, r);
    DoneLast(y.s.sent, p);
  }

  lemma DoneLast(sent: seq<Message>, p: nat)
    requires p < |sent| && sent[p].RoundtripDone?
    ensures LastDone(sent[..p + 1]) == sent[p].answered
  {
  }

  /** The acknowledged number never passes the last one sent. */
  lemma AckedWithinSent(env: Env, y: System)
    requires Reachable(env, y)
    ensures y.c.acked <= y.c.lastSent
  {
    hide ClientHandshake, ServerHandshake, StageOk, AllWaiting, Births, Dead, AllObjects, AllKept, AllEntries,
      ClientLogOk, SeqsRise, AllTwins, Present, AllKinds, AllOwed, AllBorn, ServerLogOk, AllEvents, Reachable,
      LastRequest, LastDone, AnswersMarked, MarksBelow;
    ReachableInv(env, y);
    assert y.s.sent[..|y.s.sent|] == y.s.sent && y.c.sent[..|y.c.sent|] == y.c.sent;
    LastDoneRises(y.s.sent, y.h.born, y.cRead, |y.s.sent|);
    LastRequestGrows(y.c.sent, y.sRead, |y.c.sent|);
  }

  /** Nor does it ever go back. */
  lemma AckedNeverFalls(env: Env, y: System, step: Step)
    requires Agreed(env) && Inv(env, y) && Enabled(env, y, step)
    ensures y.c.acked <= Next(env, y, step).c.acked
  {
    hide ClientInv, ClientHandshake, ServerHandshake, StageOk, AllWaiting, Births, Dead, AllTwins, Present, AllKinds,
      AllOwed, AllBorn, LastRequest, LastDone, AnswersMarked, MarksBelow, Enabled, Agreed;
    SessionSafety.StepKeeps(env, y, step);
    var z := Next(env, y, step);
    ReadsOnward(env, y, step);
    assert z.s.sent[..y.cRead] == y.s.sent[..y.cRead];
    LastDoneRises(z.s.sent, z.h.born, y.cRead, z.cRead);
  }

  lemma HandleAppends(env: S.ServerEnv, s: S.ServerState, m: Message)
    ensures s.sent <= S.Handle(env, s, m).sent
  {
    hide S.NewEntry, S.Accepts, Printed, S.Offered, CalledOutcome, S.ExposedNames, S.Without, S.Find;
  }

  /** Logs only grow, and are only read onward. */
  lemma ReadsOnward(env: Env, y: System, step: Step)
    requires Enabled(env, y, step) && y.cRead <= |y.s.sent|
    ensures var z := Next(env, y, step); y.s.sent <= z.s.sent && y.cRead <= z.cRead <= |z.s.sent|
  {
    hide C.Bind, C.CallObject, C.Roundtrip, C.Hold, C.Listen, C.Collect, C.EndBatch, C.Handle, CallKinds, OwedBy,
      S.Handle, HonestCall, HonestServerCall, S.NewEntry, S.Accepts, S.CallOut;
    match step
    case ServerHandle => HandleAppends(env.server, y.s, y.c.sent[y.sRead].msg);
    case ServerCall(i, k, args) => SS.CallOutIs(y.s, i, k, args);
    case _ =>
  }
}
