/** Concrete honest runs: states in which something surprising happens can be reached. */
module Scenarios {
  import opened Bytes
  import opened Arguments
  import opened Specs
  import opened SpecNames
  import opened Messages
  import opened WireObject
  import opened Session
  import opened Invariant
  import opened SessionTheorems
  import C = Client
  import S = Server
  import SessionSafety
  import Deferred

  // A protocol of two types: a parent whose one method returns a child, and a child with two
  // plain methods, a destructor, and an event of version 1.

  const NAME: Text := [0x78]
  const CHILD: Text := [0x63]

  function Parent(): ObjectSpec {
    ObjectSpec([0x70], [Method(0, [], CHILD, 0, false)], [])
  }

  function Child(): ObjectSpec {
    ObjectSpec(CHILD, [Method(0, [], [], 0, false), Method(1, [], [], 0, true), Method(2, [], [], 0, false)],
               [Method(0, [], [], 1, false)])
  }

  function Protocol(): ProtocolSpec { ProtocolSpec(NAME, 1, [Parent(), Child()]) }

  function Demo(): Env { Env(S.ServerEnv([Protocol()], S.NoFilter), [Protocol()]) }

  lemma DemoNames()
    ensures FindProtocol([Protocol()], NAME) == Found(Protocol())
    ensures FindObject(Protocol().objects, []) == Spec(Parent()) &&
      FindObject(Protocol().objects, CHILD) == Spec(Child())
    ensures S.ExposedNames(Demo().server.impls, Demo().server.filter) == [NAME]
    ensures Offers(Demo()) == [ServerSpec(NAME, 1)]
  {
    assert [Protocol()][1..] == [] && Protocol().objects[1..] == [Child()];
    assert S.ExposedNames([], S.NoFilter) == [] && S.Offered([], [NAME]) == [];
    assert S.ExposedNames([Protocol()], S.NoFilter) == [NAME] + [];
    assert S.Offered([Protocol()], [NAME]) == [ServerSpec(NAME, 1)] + [];
  }

  lemma DemoAgreed()
    ensures Agreed(Demo())
  {
    DemoNames();
  }

  /** The handshake is over, and nothing else has happened. */
  function Greeted(): System {
    System(
      C.ClientState(true, false, true, [ServerSpec(NAME, 1)], 0, 0, 0, [], [],
                    [C.Outgoing(Hello, 0, false), C.Outgoing(HandshakeAck(1), 0, false)], []),
      S.ServerState(true, [NAME], 1, 1, false, 0, [],
                    [HandshakeBegin([1]), HandshakeProtocols(Printed([ServerSpec(NAME, 1)]))], []),
      2, 2, true, History([], [], [], [0, 1], Done))
  }

  /** The client has acknowledged the server's version. */
  function Saluted(): System {
    var g := Greeted();
    g.(c := g.c.(handshakeDone := false, serverSpecs := []),
       s := g.s.(version := 0, sent := [HandshakeBegin([1])]),
       cRead := 1, sRead := 1, h := History([], [], [], [0], Acked(1)))
  }

  /** The server's list is under way. */
  function Listing(): System {
    var g := Greeted();
    g.(c := g.c.(handshakeDone := false, serverSpecs := []), cRead := 1, h := g.h.(stage := Listed(1)))
  }

  /** The server has read the greeting. */
  function Begun(): System {
    var i := Init();
    i.(s := i.s.(firstPollDone := true, exposed := [NAME], sent := [HandshakeBegin([1])]),
       sRead := 1, h := History([], [], [], [0], Began(0)))
  }

  lemma BegunReachable()
    ensures Reachable(Demo(), Begun())
  {
    hide Reachable, Agreed, S.ExposedNames;
    DemoNames();
    DemoAgreed();
    InitReachable(Demo());
    ReachableStep(Demo(), Init(), ServerHandle);
    var z, g := HandleOnServer(Demo(), Init()), Begun();
    assert [] + [NAME] == [NAME];
    assert z.s.sent == g.s.sent;
    assert z.s == g.s;
    assert z.h.born == [] && z.h.owed == [] && z.h.mark == [0];
    assert z.c == g.c && z.h == g.h;
  }

  lemma SalutedReachable()
    ensures Reachable(Demo(), Saluted())
  {
    hide Reachable, Printed, Demo;
    BegunReachable();
    ReachableStep(Demo(), Begun(), ClientHandle);
    var z, g := HandleOnClient(Begun()), Saluted();
    assert z.c.sent == g.c.sent;
    assert z.c == g.c && z.h == g.h;
  }

  lemma ListingReachable()
    ensures Reachable(Demo(), Listing())
  {
    hide Reachable, Agreed, S.ExposedNames, S.Offered, Printed;
    var env, y := Demo(), Saluted();
    SalutedReachable();
    DemoNames();
    ReachableStep(env, y, ServerHandle);
    var z, g := HandleOnServer(env, y), Listing();
    assert z.s.sent == g.s.sent;
    assert z.h.mark == g.h.mark;
    assert z.s == g.s && z.h == g.h;
  }

  lemma GreetedReachable()
    ensures Reachable(Demo(), Greeted())
  {
    hide Reachable, S.ExposedNames, S.Offered, Printed, C.ReadSpecs;
    ListingReachable();
    DemoNames();
    ReachableStep(Demo(), Listing(), ClientHandle);
    SessionSafety.ReadPrinted(Offers(Demo()));
    var z, g := HandleOnClient(Listing()), Greeted();
    assert [] + Offers(Demo()) == Offers(Demo());
    assert z.c == g.c;
  }

  // The parent is bound, and its server half is listened to.

  function ParentObject(): C.ClientObject { C.ClientObject(1, 1, 1, Parent(), NAME, false, {}, true) }
  function ParentTwin(): S.ServerObject { S.ServerObject(1, 1, Spec(Parent()), NAME, false, {}) }
  function ParentKind(): Kind { Kind(NAME, Parent(), 1) }

  /** The server has answered the bind. */
  function Answered(): System {
    var g := Greeted();
    g.(c := g.c.(seq_ := 1, objects := [ParentObject().(id := 0)],
                 sent := g.c.sent + [C.Outgoing(BindProtocol(1, NAME, 1), 0, false)]),
       s := g.s.(maxId := 2, objects := [ParentTwin()], sent := g.s.sent + [NewObject(1, 1)]),
       sRead := 3, h := History([ParentKind()], [1], [], [0, 1, 2], Done))
  }

  function Bound(): System {
    var a := Answered();
    a.(c := a.c.(objects := [ParentObject()]), s := a.s.(objects := [ParentTwin().(listeners := {0})]),
       cRead := 3, inBatch := false)
  }

  function Binding(): System {
    var g := Greeted();
    g.(c := Answered().c, h := g.h.(kinds := [ParentKind()]))
  }

  lemma BindingReachable()
    ensures Reachable(Demo(), Binding())
  {
    hide Reachable, Agreed, Printed;
    var env, g := Demo(), Greeted();
    GreetedReachable();
    DemoNames();
    assert Advertised(g.c.serverSpecs, NAME) by { assert ServerSpec(NAME, 1) in g.c.serverSpecs; }
    ReachableStep(env, g, ClientBind(Protocol(), 1));
    var z, b := Next(env, g, ClientBind(Protocol(), 1)), Binding();
    assert z.c == b.c && z.h == b.h;
  }

  lemma AnsweredReachable()
    ensures Reachable(Demo(), Answered())
  {
    hide Reachable, Agreed, Printed;
    var env, y := Demo(), Binding();
    BindingReachable();
    DemoNames();
    ReachableStep(env, y, ServerHandle);
    var z, b := HandleOnServer(env, y), Answered();
    assert z.s == b.s && z.h == b.h;
  }

  lemma BoundReachable()
    ensures Reachable(Demo(), Bound())
  {
    hide Reachable, Agreed, FindProtocol, Printed;
    var env, y := Demo(), Answered();
    AnsweredReachable();
    ReachableStep(env, y, ClientHandle);
    var y1 := HandleOnClient(y);
    assert y1.c == Bound().c;
    ReachableStep(env, y1, ClientEndBatch);
    HeldStays(Bound().c);
    var y2 := Next(env, y1, ClientEndBatch);
    assert y2 == y1.(inBatch := false);
    ReachableStep(env, y2, ServerListen(0, 0));
    assert {} + {0 as nat} == {0 as nat};
    assert Next(env, y2, ServerListen(0, 0)).s.objects == Bound().s.objects;
  }

  /** With nothing kept back and nothing orphaned the end of a batch changes nothing. */
  lemma HeldStays(c: C.ClientState)
    requires c.pending == [] && |c.objects| == 1 && c.objects[0].held
    ensures C.EndBatch(Demo().clientImpls, c) == c
  {
    var objects := c.objects;
    assert objects[1..] == [] && C.Survivors([]) == [];
    assert C.Survivors(objects) == [objects[0]] + [] == objects;
    assert C.Flush(c) == c;
    assert C.Farewells(Demo().clientImpls, c, []) == c;
  }

  // The client asks for a child, and holds what it is given.

  function ChildObject(): C.ClientObject { C.ClientObject(0, 2, 0, Child(), NAME, false, {}, true) }
  function ChildTwin(): S.ServerObject { S.ServerObject(2, 1, Spec(Child()), NAME, false, {}) }
  function ChildCall(): Message { Generic(1, 0, [Word(SEQ, 2)]) }

  function Asked(): System {
    var b := Bound();
    b.(c := b.c.(seq_ := 2, objects := [ParentObject(), ChildObject()],
                 sent := b.c.sent + [C.Outgoing(ChildCall(), 1, false)]),
       h := b.h.(kinds := [ParentKind(), Kind(NAME, Child(), 1)]))
  }

  lemma AskedReachable()
    ensures Reachable(Demo(), Asked())
  {
    hide Reachable, Agreed, Printed;
    var env, y := Demo(), Bound();
    BoundReachable();
    DemoNames();
    assert [Word(SEQ, 2)] + [] == [Word(SEQ, 2)] &&
      [ParentObject()] + [ChildObject().(held := false)] == [ParentObject(), ChildObject().(held := false)];
    ReachableStep(env, y, ClientCall(0, 0, []));
    var z := Next(env, y, ClientCall(0, 0, []));
    assert z.c.objects == [ParentObject(), ChildObject().(held := false)];
    assert z.h.kinds == Asked().h.kinds;
    ReachableStep(env, z, ClientHold(1, true));
    assert Next(env, z, ClientHold(1, true)).c == Asked().c;
  }

  /** The server's listener has made the child; the client has not heard yet. */
  function Made(y: System): System
    requires |y.c.sent| >= 4
  {
    y.(s := y.s.(maxId := 3, objects := [ParentTwin().(listeners := {0}), ChildTwin()],
                 sent := y.s.sent + [NewObject(2, 2)], calls := [S.Call(1, 0, [ObjectPtr, U32Slot(2)])]),
       sRead := 4, h := y.h.(born := [1, 2], owed := [Owed(2, NAME, CHILD, 1)], mark := [0, 1, 2, 3]))
  }

  lemma ChildCallDelivered()
    ensures CalledOutcome(Parent().c2s, {0}, 1, 0, [Word(SEQ, 2)]) == Delivered([ObjectPtr, U32Slot(2)])
  {
    var vs := [Word(SEQ, 2)];
    assert vs[1..] == [] && TypesOf([]) == [] && SlotsOf([]) == [];
    assert TypesOf(vs) == [SEQ] && SlotsOf(vs) == [U32Slot(2)];
    assert Parent().c2s[0].Expected() == [SEQ];
    assert [ObjectPtr] + [U32Slot(2)][..1] == [ObjectPtr, U32Slot(2)];
  }

  /** The listener has been called, and has not made the child yet. */
  function Requested(y: System): System
    requires |y.c.sent| >= 4
  {
    var m := Made(y);
    m.(s := y.s.(calls := m.s.calls), h := m.h.(born := y.h.born))
  }

  lemma RequestedReachable(y: System)
    requires Reachable(Demo(), y) && y.sRead == 3 && |y.c.sent| >= 4 && y.c.sent[3].msg == ChildCall()
    requires y.s == Bound().s && y.h == Asked().h
    ensures Reachable(Demo(), Requested(y))
  {
    hide Reachable, Agreed, Printed, CalledOutcome;
    ChildCallDelivered();
    ReachableStep(Demo(), y, ServerHandle);
    var z := HandleOnServer(Demo(), y);
    assert z.s.calls == Made(y).s.calls;
    assert z.h.owed == Made(y).h.owed;
    assert z.h.mark == Made(y).h.mark && z.h.born == y.h.born;
    assert z.s == Requested(y).s;
  }

  lemma MadeReachable(y: System)
    requires Reachable(Demo(), y) && y.sRead == 3 && |y.c.sent| >= 4 && y.c.sent[3].msg == ChildCall()
    requires y.s == Bound().s && y.h == Asked().h
    ensures Reachable(Demo(), Made(y))
  {
    hide Reachable, Agreed, Printed;
    RequestedReachable(y);
    DemoNames();
    var r := Requested(y);
    ReachableStep(Demo(), r, ServerCreate(0));
    var z := CreateOnServer(Demo(), r, r.h.owed[0]);
    assert z.s == Made(y).s && z.h == Made(y).h;
  }

  // Twice the next message the client reads tells it the child's id.

  lemma IdLearnt(c: C.ClientState)
    requires c.objects == [ParentObject(), ChildObject()]
    ensures C.OnSeq(c, 2, 2).objects == [ParentObject(), ChildObject().(id := 2)]
    ensures C.OnSeq(c, 2, 2) == c.(objects := [ParentObject(), ChildObject().(id := 2)])
  {
    assert c.objects[1..] == [ChildObject()];
    assert C.FindSeq(c.objects, 2) == 1;
    assert c.objects[1 := ChildObject().(id := 2)] == [ParentObject(), ChildObject().(id := 2)];
  }

  /** The client called method 0 of the child before its id was known, and has now read the
      announcement; the batch is not over. */
  lemma CallKeptBack() returns (y: System)
    ensures Reachable(Demo(), y) && y.inBatch && y.c.connected && y.c.seq_ == 2 && y.s.maxId == 3
    ensures y.c.objects == [ParentObject(), ChildObject().(id := 2)]
    ensures y.c.pending == [C.Outgoing(Generic(0, 0, []), 2, false)] && |y.c.sent| == 4 == y.sRead
  {
    hide Reachable, Agreed, Printed, Made;
    var env, a := Demo(), Asked();
    AskedReachable();
    ReachableStep(env, a, ClientCall(1, 0, []));
    var b := Next(env, a, ClientCall(1, 0, []));
    var none: seq<Value> := [];
    assert none + none == none;
    assert b.c == a.c.(pending := [C.Outgoing(Generic(0, 0, []), 2, false)]);
    MadeReachable(b);
    var m := Made(b);
    MadeState(b);
    ReachableStep(env, m, ClientHandle);
    y := HandleOnClient(m);
    IdLearnt(m.c);
  }

  /** The destructor goes out, then the call kept back, and nothing else. */
  lemma TwoMore(c: C.ClientState)
    requires c.connected && c.objects == [ParentObject(), ChildObject().(id := 2)]
    requires c.pending == [C.Outgoing(Generic(0, 0, []), 2, false)]
    ensures |Deferred.Overtaken(Demo(), c, 1, 1, []).sent| == |c.sent| + 2
  {
    var t := C.CallObject(Demo().clientImpls, c, 1, 1, []);
    var objects := [ParentObject(), ChildObject().(id := 2, destroyed := true)];
    assert t.objects == objects && |t.sent| == |c.sent| + 1;
    assert objects[1..] == [objects[1]];
    assert C.FindSeq(objects, 2) == 1;
    FlushSingle(t.(pending := []), t.pending[0]);
    BothHeld(C.Flush(t));
  }

  lemma FlushSingle(c: C.ClientState, e: C.Outgoing)
    ensures C.FlushAll(c, [e]) == C.FlushOne(c, e)
  {
    assert [e][1..] == [];
  }

  lemma BothHeld(c: C.ClientState)
    requires |c.objects| == 2 && c.objects[0].held && c.objects[1].held
    ensures C.Collect(Demo().clientImpls, c) == c
  {
    var o := c.objects;
    assert o[1..] == [o[1]] && o[1..][1..] == [] && C.Survivors([]) == [];
    assert C.Survivors(o[1..]) == [o[1]] + [];
    assert C.Survivors(o) == [o[0]] + [o[1]] == o;
    assert C.Farewells(Demo().clientImpls, c, []) == c;
    assert C.Farewells(Demo().clientImpls, c, o[1..]) == c;
  }

  /** Overtaking with a destructor happens: a listener called now may call the child's
      destructor, all it takes to be an honest call but for the call kept back, and the server
      ends up in error. */
  lemma OvertakingHappens() returns (y: System)
    ensures Reachable(Demo(), y) && y.c.connected && Deferred.DestructorCall(y.c, 1, 1, [])
    ensures HasPending(y.c.pending, y.c.objects[1].seq_) && !HonestCall(y.c, 1, 1, [])
    ensures var u := Deferred.Overtaken(Demo(), y.c, 1, 1, []);
      y.sRead <= |u.sent| && S.HandleAll(Demo().server, y.s, Deferred.Unread(u, y.sRead)).error
  {
    hide Reachable, Agreed, Printed, Deferred.Overtaken, Deferred.Unread, S.HandleAll, ClientLogOk, C.Flush,
      C.CallObject;
    y := CallKeptBack();
    TwoMore(y.c);
    Deferred.UnreadLength(Deferred.Overtaken(Demo(), y.c, 1, 1, []), y.sRead);
    Deferred.OvertakingCondition(Demo(), y, 1, 1, []);
  }

  /** So does overtaking with another method, which no honest caller is kept from: the two calls
      reach the wire in the wrong order. */
  lemma OrderLost() returns (y: System)
    ensures Reachable(Demo(), y) && Enabled(Demo(), y, ClientCall(1, 2, [])) &&
      Deferred.Overtakes(y, ClientCall(1, 2, []), 2)
    ensures Deferred.Issued(Next(Demo(), y, ClientCall(1, 2, [])).c, 2)
      != Deferred.Issued(y.c, 2) + Deferred.MadeBy(y, ClientCall(1, 2, []), 2)
  {
    hide Reachable, Agreed, Printed, Deferred.Issued, C.CallObject;
    y := CallKeptBack();
    Deferred.OvertakingReorders(Demo(), y, 1, 2, [], 2);
    Deferred.CallsOfOne(2, y.c.pending[0]);
  }

  lemma MadeState(y: System)
    requires |y.c.sent| >= 4
    ensures Made(y).c == y.c && Made(y).s.maxId == 3 && Made(y).sRead == 4
    ensures Made(y).cRead == y.cRead && Made(y).inBatch == y.inBatch && Made(y).s.sent == y.s.sent + [NewObject(2, 2)]
    ensures Made(y).s.objects == [ParentTwin().(listeners := {0}), ChildTwin()]
  {
  }

  function Listening(): C.ClientObject { ChildObject().(id := 2, listeners := {0}) }

  /** An event of the child is under way, and the client listens to it. */
  lemma EventSent() returns (y: System)
    ensures Reachable(Demo(), y) && y.cRead < |y.s.sent| && y.s.sent[y.cRead] == Generic(2, 0, [])
    ensures y.c.objects == [ParentObject(), Listening()] && y.c.pending == [] && y.inBatch && !y.c.error
  {
    hide Reachable, Agreed, Printed, Made;
    var env, a := Demo(), Asked();
    AskedReachable();
    MadeReachable(a);
    var m := Made(a);
    MadeState(a);
    ReachableStep(env, m, ClientHandle);
    var b := HandleOnClient(m);
    IdLearnt(m.c);
    ReachableStep(env, b, ClientListen(1, 0));
    var d := Next(env, b, ClientListen(1, 0));
    assert {} + {0 as nat} == {0 as nat};
    assert d.c.objects == [ParentObject(), Listening()];
    assert TypesOf([]) == [];
    ReachableStep(env, d, ServerCall(1, 0, []));
    y := Next(env, d, ServerCall(1, 0, []));
  }

  lemma ChildFound(objects: seq<C.ClientObject>)
    requires objects == [ParentObject(), Listening()]
    ensures C.FindId(objects, 2) == 1
  {
    assert objects[1..] == [objects[1]];
  }

  /** An event dropped: the server may call the method, the client listens to it, and nothing
      happens, because the client's half of the child is of version 0. */
  lemma EventDropped() returns (y: System)
    ensures Reachable(Demo(), y) && y.cRead < |y.s.sent| && y.s.sent[y.cRead] == Generic(2, 0, [])
    ensures C.FindId(y.c.objects, 2) == 1 && 0 in y.c.objects[1].listeners
    ensures HandleOnClient(y).c == y.c
  {
    hide Reachable, Agreed, Printed, C.OnGeneric;
    y := EventSent();
    ChildFound(y.c.objects);
    assert TypesOf([]) == [];
    EventOutcome(y.c, 1, 0, []);
  }

  /** An event come too late: the client lets go of the child while the event is under way, and
      loses the connection over it. */
  lemma EventTooLate() returns (y: System)
    ensures Reachable(Demo(), y) && y.cRead < |y.s.sent| && y.s.sent[y.cRead] == Generic(2, 0, []) && !y.c.error
    ensures C.FindId(y.c.objects, 2) < 0 && HandleOnClient(y).c == C.Disconnect(y.c)
  {
    hide Reachable, Agreed, Printed, C.OnGeneric, C.Collect, C.FindId;
    var env := Demo();
    var a := EventSent();
    ReachableStep(env, a, ClientEndBatch);
    BothHeld(a.c);
    assert C.Flush(a.c) == a.c;
    var b := Next(env, a, ClientEndBatch);
    assert b == a.(inBatch := false);
    ReachableStep(env, b, ClientHold(1, false));
    var d := Next(env, b, ClientHold(1, false));
    ReachableStep(env, d, ClientCollect);
    y := Next(env, d, ClientCollect);
    assert d.c.objects == [ParentObject(), Listening().(held := false)];
    ChildDropped(d.c);
    EventLost(y.c, y.s.sent[y.cRead]);
  }

  lemma ChildDropped(c: C.ClientState)
    requires c.objects == [ParentObject(), Listening().(held := false)]
    ensures var t := C.Collect(Demo().clientImpls, c); C.FindId(t.objects, 2) < 0 && t.error == c.error
  {
    var o := c.objects;
    assert o[1..] == [o[1]] && o[1..][1..] == [] && C.Survivors([]) == [];
    assert C.Survivors(o[1..]) == [] + [];
    assert C.Survivors(o) == [o[0]] + [] == [o[0]];
    assert [ParentObject()][1..] == [] && C.FindId([], 2) == -1;
    var left := c.(objects := [ParentObject()]);
    ChildLeaves(left);
    assert C.Farewells(Demo().clientImpls, left, o) == C.Farewells(Demo().clientImpls, left, o[1..]);
    assert C.Farewells(Demo().clientImpls, C.Farewell(Demo().clientImpls, left, o[1]), [])
      == C.Farewell(Demo().clientImpls, left, o[1]);
  }

  /** The child's destructor goes out if the connection stands. */
  lemma ChildLeaves(c: C.ClientState)
    ensures var t := C.Farewell(Demo().clientImpls, c, Listening().(held := false));
      t.objects == c.objects && t.error == c.error
  {
    var f := Child().c2s;
    assert f[1..][0] == f[1];
    assert C.AutoDestructor(f[1..], 0) == C.Auto(1);
    assert C.AutoDestructor(f, 0) == C.Auto(1);
  }

  /** The child's request was answered a second time, and an event of the first child is under
      way behind both announcements. */
  lemma AnsweredTwice() returns (y: System)
    ensures Reachable(Demo(), y) && y.c == Asked().c && y.cRead + 3 == |y.s.sent| && !y.inBatch
    ensures y.s.sent[y.cRead..] == [NewObject(2, 2), NewObject(3, 2), Generic(2, 0, [])]
  {
    hide Reachable, Agreed, Printed, Made;
    var env, a := Demo(), Asked();
    AskedReachable();
    MadeReachable(a);
    var m := Made(a);
    MadeState(a);
    MadeOwed(a);
    DemoNames();
    ReachableStep(env, m, ServerCreate(0));
    var d := CreateOnServer(env, m, m.h.owed[0]);
    assert d.s.objects[1] == ChildTwin() && d.s.sent == m.s.sent + [NewObject(3, 2)];
    assert TypesOf([]) == [];
    ReachableStep(env, d, ServerCall(1, 0, []));
    y := Next(env, d, ServerCall(1, 0, []));
    assert y.s.sent == a.s.sent + [NewObject(2, 2)] + [NewObject(3, 2)] + [Generic(2, 0, [])];
  }

  lemma MadeOwed(y: System)
    requires |y.c.sent| >= 4
    ensures Made(y).h.owed == [Owed(2, NAME, CHILD, 1)]
    ensures Made(y).s.error == y.s.error && Made(y).s.exposed == y.s.exposed
  {
  }

  /** An event for an id taken away: the client never let the child go, but its number has another
      id by now, and the client loses the connection. */
  lemma EventRenamed() returns (y: System)
    ensures Reachable(Demo(), y) && y.cRead < |y.s.sent| && y.s.sent[y.cRead] == Generic(2, 0, []) && !y.c.error
    ensures y.c.objects == [ParentObject(), ChildObject().(id := 3)] && HandleOnClient(y).c == C.Disconnect(y.c)
  {
    hide Reachable, Agreed, Printed, C.OnGeneric;
    var env := Demo();
    var a := AnsweredTwice();
    var s := a.s.sent;
    assert s[a.cRead] == s[a.cRead..][0] && s[a.cRead + 1] == s[a.cRead..][1] && s[a.cRead + 2] == s[a.cRead..][2];
    ReachableStep(env, a, ClientHandle);
    var b := HandleOnClient(a);
    IdLearnt(a.c);
    ReachableStep(env, b, ClientHandle);
    y := HandleOnClient(b);
    IdLearntAgain(b.c);
    assert y.c.objects[1..] == [y.c.objects[1]] && y.c.objects[1..][1..] == [];
    assert C.FindId([], 2) == -1;
    EventLost(y.c, y.s.sent[y.cRead]);
  }

  lemma IdLearntAgain(c: C.ClientState)
    requires c.objects == [ParentObject(), ChildObject().(id := 2)]
    ensures C.OnSeq(c, 2, 3) == c.(objects := [ParentObject(), ChildObject().(id := 3)])
  {
    assert c.objects[1..] == [c.objects[1]];
    assert C.FindSeq(c.objects, 2) == 1;
    assert c.objects[1 := ChildObject().(id := 3)] == [ParentObject(), ChildObject().(id := 3)];
  }
}
