/** What holds of one client's server state whatever that client sends and whatever the
    server application does: exposure, identifiers, finality of destruction, error stop. */
module ServerSafety {
  import opened Bytes
  import opened Arguments
  import opened Specs
  import opened Messages
  import opened WireObject
  import opened SpecNames
  import opened Server

  /** Everything that can happen to a connected client. */
  datatype Event =
    | Receive(m: Message)
    | BatchEnds
    | Create(protocol: Text, name: Text, version: u32, seq_: u32)
    | AppCalls(i: nat, k: u32, args: seq<Value>)
    | AppListens(i: nat, k: u32)

  function Happens(env: ServerEnv, s: ServerState, e: Event): ServerState {
    match e
    case Receive(m) => if s.error then s else Handle(env, s, m)
    case BatchEnds => EndBatch(s)
    case Create(p, n, v, q) => CreateObject(env, s, p, n, v, q)
    case AppCalls(i, k, args) => if i < |s.objects| then CallOut(s, i, k, args) else s
    case AppListens(i, k) => if i < |s.objects| then Listen(s, i, k) else s
  }

  function After(env: ServerEnv, s: ServerState, events: seq<Event>): ServerState
    decreases |events|
  {
    if events == [] then s else After(env, Happens(env, s, events[0]), events[1..])
  }

  // Exposure.

  /** The object has its description, from a registered protocol exposed to this client. */
  predicate Permitted(env: ServerEnv, exposed: seq<Text>, o: ServerObject) {
    o.spec.Spec? && o.protocol in exposed &&
    match FindProtocol(env.impls, o.protocol)
    case Missing => false
    case Found(p) => o.spec.os in p.objects && o.version <= p.version
  }

  predicate AllPermitted(env: ServerEnv, exposed: seq<Text>, objects: seq<ServerObject>) {
    objects == [] || (Permitted(env, exposed, objects[0]) && AllPermitted(env, exposed, objects[1..]))
  }

  predicate Exposure(env: ServerEnv, s: ServerState) {
    && s.exposed == (if s.firstPollDone then ExposedNames(env.impls, env.filter) else [])
    && (!s.error ==> AllPermitted(env, s.exposed, s.objects))
  }

  lemma {:induction false} PermittedAt(env: ServerEnv, exposed: seq<Text>, objects: seq<ServerObject>, i: nat)
    requires AllPermitted(env, exposed, objects) && i < |objects|
    ensures Permitted(env, exposed, objects[i])
  {
    if i > 0 {
      PermittedAt(env, exposed, objects[1..], i - 1);
    }
  }

  lemma {:induction false} PermittedAppend(env: ServerEnv, exposed: seq<Text>, objects: seq<ServerObject>,
      o: ServerObject)
    requires AllPermitted(env, exposed, objects) && Permitted(env, exposed, o)
    ensures AllPermitted(env, exposed, objects + [o])
  {
    if objects == [] {
    } else {
      assert (objects + [o])[1..] == objects[1..] + [o];
      PermittedAppend(env, exposed, objects[1..], o);
    }
  }

  lemma {:induction false} PermittedUpdate(env: ServerEnv, exposed: seq<Text>, objects: seq<ServerObject>, i: nat,
      o: ServerObject)
    requires AllPermitted(env, exposed, objects) && i < |objects| && Permitted(env, exposed, o)
    ensures AllPermitted(env, exposed, objects[i := o])
  {
    if i > 0 {
      assert objects[i := o][1..] == objects[1..][i - 1 := o];
      PermittedUpdate(env, exposed, objects[1..], i - 1, o);
    } else {
      assert objects[i := o][1..] == objects[1..];
    }
  }

  lemma {:induction false} PermittedWithout(env: ServerEnv, exposed: seq<Text>, objects: seq<ServerObject>, id: u32)
    requires AllPermitted(env, exposed, objects)
    ensures AllPermitted(env, exposed, Without(objects, id))
  {
    if objects == [] {
    } else {
      PermittedWithout(env, exposed, objects[1..], id);
      var rest := Without(objects[1..], id);
      assert ([objects[0]] + rest)[1..] == rest;
      assert [] + rest == rest;
    }
  }

  /** No exposed name, no object: nothing passes createObject before the first poll. */
  lemma CreateKeepsExposure(env: ServerEnv, s: ServerState, protocol: Text, name: Text, version: u32, seq_: u32)
    requires Exposure(env, s)
    ensures Exposure(env, CreateObject(env, s, protocol, name, version, seq_))
  {
    if Accepts(env, s.exposed, protocol, name, version) && !s.error {
      PermittedAppend(env, s.exposed, s.objects, NewEntry(env, s.exposed, s.maxId, protocol, name, version));
    }
  }

  lemma DestroyKeepsExposure(env: ServerEnv, s: ServerState, i: nat, m: Method)
    requires Exposure(env, s) && !s.error && i < |s.objects|
    ensures Exposure(env, DestroyIfNeeded(s, i, m))
  {
    PermittedAt(env, s.exposed, s.objects, i);
    PermittedUpdate(env, s.exposed, s.objects, i, s.objects[i].(destroyed := true));
    PermittedWithout(env, s.exposed, s.objects, s.objects[i].id);
  }

  lemma GenericKeepsExposure(env: ServerEnv, s: ServerState, target: u32, k: u32, args: seq<Value>)
    requires Exposure(env, s) && !s.error
    ensures Exposure(env, OnGeneric(s, target, k, args))
  {
    var i := Find(s.objects, target);
    if i >= 0 {
      var o := s.objects[i];
      match CalledOutcome(o.MethodsIn(), o.listeners, o.version, k, args)
      case Ignored => DestroyKeepsExposure(env, s, i, o.MethodsIn()[k]);
      case Delivered(frame) =>
        DestroyKeepsExposure(env, s.(calls := s.calls + [Call(o.id, k, frame)]), i, o.MethodsIn()[k]);
      case _ =>
    }
  }

  lemma FirstPollKeepsExposure(env: ServerEnv, s: ServerState)
    requires Exposure(env, s) && !s.error && (!s.firstPollDone ==> s.objects == [])
    ensures Exposure(env, FirstPoll(env, s))
  {
    assert [] + ExposedNames(env.impls, env.filter) == ExposedNames(env.impls, env.filter);
  }

  /** Before the first poll a client without error has no objects. */
  lemma NothingBeforeFirstPoll(env: ServerEnv, s: ServerState)
    requires Exposure(env, s) && !s.error && !s.firstPollDone
    ensures s.objects == []
  {
    assert AllPermitted(env, [], s.objects);
  }

  lemma HandleKeepsExposure(env: ServerEnv, s: ServerState, m: Message)
    requires Exposure(env, s) && !s.error
    ensures Exposure(env, Handle(env, s, m))
  {
    match m
    case Hello =>
      if !s.firstPollDone {
        NothingBeforeFirstPoll(env, s);
      }
      FirstPollKeepsExposure(env, s);
    case BindProtocol(q, p, v) => CreateKeepsExposure(env, s, p, [], v, q);
    case Generic(o, k, args) => GenericKeepsExposure(env, s, o, k, args);
    case _ =>
  }

  lemma HappensKeepsExposure(env: ServerEnv, s: ServerState, e: Event)
    requires Exposure(env, s)
    ensures Exposure(env, Happens(env, s, e))
  {
    match e
    case Receive(m) => if !s.error { HandleKeepsExposure(env, s, m); }
    case BatchEnds =>
    case Create(p, n, v, q) => CreateKeepsExposure(env, s, p, n, v, q);
    case AppCalls(i, k, args) =>
      if i < |s.objects| && !s.error {
        PermittedAt(env, s.exposed, s.objects, i);
        PermittedUpdate(env, s.exposed, s.objects, i, s.objects[i].(destroyed := true));
      }
    case AppListens(i, k) =>
      if i < |s.objects| && !s.error {
        PermittedAt(env, s.exposed, s.objects, i);
        PermittedUpdate(env, s.exposed, s.objects, i, s.objects[i].(listeners := s.objects[i].listeners + {k}));
      }
  }

  lemma {:induction false} AfterKeepsExposure(env: ServerEnv, s: ServerState, events: seq<Event>)
    requires Exposure(env, s)
    ensures Exposure(env, After(env, s, events))
    decreases |events|
  {
    if events == [] {
    } else {
      HappensKeepsExposure(env, s, events[0]);
      AfterKeepsExposure(env, Happens(env, s, events[0]), events[1..]);
    }
  }

  lemma {:induction false} ExposedExactly(impls: seq<ProtocolSpec>, f: Filter, name: Text)
    ensures name in ExposedNames(impls, f) <==> Passes(f, name) && exists p :: p in impls && p.name == name
  {
    if impls == [] {
    } else {
      ExposedExactly(impls[1..], f, name);
      if exists p :: p in impls && p.name == name {
        var p :| p in impls && p.name == name;
        assert p == impls[0] || p in impls[1..];
      }
    }
  }

  /** Exposure safety. Whatever a client sends and the application does: while the client
      has no error, every object it owns has a description from a protocol whose name is
      registered and passes the filter, in no newer version than registered; and before the
      first SUP there is no object at all. */
  lemma ExposureSafety(env: ServerEnv, events: seq<Event>, i: nat)
    requires !After(env, Connected(), events).error && i < |After(env, Connected(), events).objects|
    ensures var s := After(env, Connected(), events);
      && s.firstPollDone && Permitted(env, s.exposed, s.objects[i])
      && Passes(env.filter, s.objects[i].protocol) && exists p :: p in env.impls && p.name == s.objects[i].protocol
  {
    var s := After(env, Connected(), events);
    AfterKeepsExposure(env, Connected(), events);
    if !s.firstPollDone {
      NothingBeforeFirstPoll(env, s);
    }
    PermittedAt(env, s.exposed, s.objects, i);
    ExposedExactly(env.impls, env.filter, s.objects[i].protocol);
  }

  // Identifiers.

  /** Identifiers rise along the table and stay below the counter. */
  predicate Rising(objects: seq<ServerObject>, bound: int) {
    objects == [] ||
    (var last := objects[|objects| - 1];
     1 <= last.id < bound && Rising(objects[..|objects| - 1], last.id))
  }

  lemma {:induction false} RisingWeaken(objects: seq<ServerObject>, bound: int, more: int)
    requires Rising(objects, bound) && bound <= more
    ensures Rising(objects, more)
  {
  }

  lemma {:induction false} RisingAt(objects: seq<ServerObject>, bound: int, i: nat, j: nat)
    requires Rising(objects, bound) && i <= j < |objects|
    ensures 1 <= objects[i].id <= objects[j].id < bound
    ensures i < j ==> objects[i].id < objects[j].id
    decreases |objects|
  {
    var n := |objects| - 1;
    if i < n {
      RisingAt(objects[..n], objects[n].id, i, if j < n then j else n - 1);
    }
  }

  lemma RisingAppend(objects: seq<ServerObject>, bound: int, o: ServerObject)
    requires Rising(objects, bound) && o.id == bound && bound >= 1
    ensures Rising(objects + [o], bound + 1)
  {
    assert (objects + [o])[..|objects|] == objects;
  }

  lemma {:induction false} RisingUpdate(objects: seq<ServerObject>, bound: int, i: nat, o: ServerObject)
    requires Rising(objects, bound) && i < |objects| && o.id == objects[i].id
    ensures Rising(objects[i := o], bound)
    decreases |objects|
  {
    var n := |objects| - 1;
    if i < n {
      assert objects[i := o][..n] == objects[..n][i := o];
      RisingUpdate(objects[..n], objects[n].id, i, o);
    } else {
      assert objects[i := o][..n] == objects[..n];
    }
  }

  lemma {:induction false} WithoutSnoc(objects: seq<ServerObject>, o: ServerObject, id: u32)
    ensures Without(objects + [o], id) == Without(objects, id) + if o.id == id then [] else [o]
  {
    var last := if o.id == id then [] else [o];
    if objects == [] {
      assert [o][1..] == [] && objects + [o] == [o];
      assert Without([o], id) == last + Without([], id);
    } else {
      var first := if objects[0].id == id then [] else [objects[0]];
      var rest := Without(objects[1..], id);
      assert (objects + [o])[1..] == objects[1..] + [o] && (objects + [o])[0] == objects[0];
      WithoutSnoc(objects[1..], o, id);
      assert first + (rest + last) == first + rest + last;
    }
  }

  lemma {:induction false} RisingWithout(objects: seq<ServerObject>, bound: int, id: u32)
    requires Rising(objects, bound)
    ensures Rising(Without(objects, id), bound)
    decreases |objects|
  {
    if objects == [] {
    } else {
      var n := |objects| - 1;
      RisingWithout(objects[..n], objects[n].id, id);
      assert objects == objects[..n] + [objects[n]];
      WithoutSnoc(objects[..n], objects[n], id);
      var rest := Without(objects[..n], id);
      if objects[n].id == id {
        assert rest + [] == rest;
        RisingWeaken(rest, objects[n].id, bound);
      } else {
        assert (rest + [objects[n]])[..|rest|] == rest;
      }
    }
  }

  /** What CallOut does to the table. */
  lemma CallOutTable(s: ServerState, i: nat, k: u32, args: seq<Value>)
    requires i < |s.objects|
    ensures var t := CallOut(s, i, k, args);
      && t.maxId == s.maxId && (s.error ==> t.error)
      && (t.objects == s.objects || t.objects == s.objects[i := s.objects[i].(destroyed := true)])
  {
  }

  lemma CreateTable(env: ServerEnv, s: ServerState, protocol: Text, name: Text, version: u32, seq_: u32)
    ensures var t := CreateObject(env, s, protocol, name, version, seq_);
      var entry := NewEntry(env, s.exposed, s.maxId, protocol, name, version);
      t.objects == s.objects + [entry] && entry.id == s.maxId && t.maxId == Increment(s.maxId)
  {
    hide Accepts, FindProtocol, FindObject;
  }

  lemma CreateRising(env: ServerEnv, s: ServerState, protocol: Text, name: Text, version: u32, seq_: u32)
    requires Rising(s.objects, s.maxId) && 1 <= s.maxId < 0xFFFF_FFFF
    ensures var t := CreateObject(env, s, protocol, name, version, seq_);
      Rising(t.objects, t.maxId) && t.maxId == s.maxId + 1
  {
    hide CreateObject, NewEntry, Rising;
    CreateTable(env, s, protocol, name, version, seq_);
    RisingAppend(s.objects, s.maxId, NewEntry(env, s.exposed, s.maxId, protocol, name, version));
  }

  lemma HappensRising(env: ServerEnv, s: ServerState, e: Event)
    requires Rising(s.objects, s.maxId) && 1 <= s.maxId < 0xFFFF_FFFF
    ensures var t := Happens(env, s, e); Rising(t.objects, t.maxId) && s.maxId <= t.maxId <= s.maxId + 1
  {
    hide Handle, CreateObject, CallOut;
    match e
    case Receive(m) => if !s.error { HandleRising(env, s, m); }
    case BatchEnds =>
    case Create(p, n, v, q) => CreateRising(env, s, p, n, v, q);
    case AppCalls(i, k, args) =>
      if i < |s.objects| {
        CallOutTable(s, i, k, args);
        RisingUpdate(s.objects, s.maxId, i, s.objects[i].(destroyed := true));
      }
    case AppListens(i, k) =>
      if i < |s.objects| {
        RisingUpdate(s.objects, s.maxId, i, s.objects[i].(listeners := s.objects[i].listeners + {k}));
      }
  }

  lemma HandleRising(env: ServerEnv, s: ServerState, m: Message)
    requires Rising(s.objects, s.maxId) && 1 <= s.maxId < 0xFFFF_FFFF
    ensures var t := Handle(env, s, m); Rising(t.objects, t.maxId) && s.maxId <= t.maxId <= s.maxId + 1
  {
    hide CreateObject, OnGeneric, Offered, Printed, ExposedNames;
    match m
    case BindProtocol(q, p, v) => CreateRising(env, s, p, [], v, q);
    case Generic(o, k, args) => GenericRising(s, o, k, args);
    case _ =>
  }

  lemma GenericRising(s: ServerState, target: u32, k: u32, args: seq<Value>)
    requires Rising(s.objects, s.maxId)
    ensures var t := OnGeneric(s, target, k, args); Rising(t.objects, t.maxId) && t.maxId == s.maxId
  {
    hide Rising, Without, Find, CalledOutcome;
    var i := Find(s.objects, target);
    if i >= 0 {
      RisingUpdate(s.objects, s.maxId, i, s.objects[i].(destroyed := true));
      RisingWithout(s.objects, s.maxId, s.objects[i].id);
    }
  }

  lemma {:induction false} AfterRising(env: ServerEnv, s: ServerState, events: seq<Event>)
    requires Rising(s.objects, s.maxId) && 1 <= s.maxId && s.maxId + |events| <= 0xFFFF_FFFF
    ensures var t := After(env, s, events); Rising(t.objects, t.maxId) && s.maxId <= t.maxId <= s.maxId + |events|
    decreases |events|
  {
    if events == [] {
    } else {
      HappensRising(env, s, events[0]);
      AfterRising(env, Happens(env, s, events[0]), events[1..]);
    }
  }

  /** Server ids are nonzero, pairwise distinct and below the counter, in every run short
      enough not to exhaust 32 bits. */
  lemma IdsDistinct(env: ServerEnv, events: seq<Event>, i: nat, j: nat)
    requires |events| < 0xFFFF_FFFF && i < j < |After(env, Connected(), events).objects|
    ensures var s := After(env, Connected(), events);
      1 <= s.objects[i].id < s.objects[j].id < s.maxId
  {
    AfterRising(env, Connected(), events);
    var s := After(env, Connected(), events);
    RisingAt(s.objects, s.maxId, i, j);
  }

  // Destruction.

  lemma {:induction false} FindWithout(objects: seq<ServerObject>, id: u32, gone: u32)
    ensures Find(Without(objects, gone), id) >= 0 <==> id != gone && Find(objects, id) >= 0
  {
    if objects == [] {
    } else {
      FindWithout(objects[1..], id, gone);
      var rest := Without(objects[1..], gone);
      if objects[0].id == gone {
        assert [] + rest == rest;
      } else {
        assert ([objects[0]] + rest)[1..] == rest;
      }
    }
  }

  lemma {:induction false} FindAppend(objects: seq<ServerObject>, id: u32, o: ServerObject)
    ensures Find(objects + [o], id) >= 0 <==> o.id == id || Find(objects, id) >= 0
  {
    if objects == [] {
      assert [o][1..] == [];
    } else {
      assert (objects + [o])[1..] == objects[1..] + [o];
      FindAppend(objects[1..], id, o);
    }
  }

  lemma {:induction false} FindUpdate(objects: seq<ServerObject>, id: u32, i: nat, o: ServerObject)
    requires i < |objects| && o.id == objects[i].id
    ensures Find(objects[i := o], id) == Find(objects, id)
  {
    if i > 0 {
      assert objects[i := o][1..] == objects[1..][i - 1 := o];
      FindUpdate(objects[1..], id, i - 1, o);
    } else {
      assert objects[i := o][1..] == objects[1..];
    }
  }

  /** An absent identifier that was already given out stays absent. */
  lemma HappensAbsent(env: ServerEnv, s: ServerState, e: Event, id: u32)
    requires Find(s.objects, id) < 0 && id < s.maxId < 0xFFFF_FFFF
    ensures Find(Happens(env, s, e).objects, id) < 0
  {
    hide Find, Handle, CreateObject, NewEntry, CallOut;
    match e
    case Receive(m) => if !s.error { HandleAbsent(env, s, m, id); }
    case BatchEnds =>
    case Create(p, n, v, q) =>
      CreateTable(env, s, p, n, v, q);
      FindAppend(s.objects, id, NewEntry(env, s.exposed, s.maxId, p, n, v));
    case AppCalls(i, k, args) =>
      if i < |s.objects| {
        CallOutTable(s, i, k, args);
        FindUpdate(s.objects, id, i, s.objects[i].(destroyed := true));
      }
    case AppListens(i, k) =>
      if i < |s.objects| {
        FindUpdate(s.objects, id, i, s.objects[i].(listeners := s.objects[i].listeners + {k}));
      }
  }

  lemma HandleAbsent(env: ServerEnv, s: ServerState, m: Message, id: u32)
    requires Find(s.objects, id) < 0 && id < s.maxId < 0xFFFF_FFFF
    ensures Find(Handle(env, s, m).objects, id) < 0
  {
    hide CalledOutcome, FindProtocol, FindObject, Printed, Offered, OnGeneric, ExposedNames;
    match m
    case BindProtocol(q, p, v) => FindAppend(s.objects, id, NewEntry(env, s.exposed, s.maxId, p, [], v));
    case Generic(o, k, args) => GenericAbsent(s, o, k, args, id);
    case _ =>
  }

  lemma GenericAbsent(s: ServerState, target: u32, k: u32, args: seq<Value>, id: u32)
    requires Find(s.objects, id) < 0
    ensures Find(OnGeneric(s, target, k, args).objects, id) < 0
  {
    hide Without, Find, CalledOutcome;
    var i := Find(s.objects, target);
    if i >= 0 {
      FindUpdate(s.objects, id, i, s.objects[i].(destroyed := true));
      FindWithout(s.objects, id, s.objects[i].id);
    }
  }

  /** The counter never goes back. */
  lemma HappensCounts(env: ServerEnv, s: ServerState, e: Event)
    requires s.maxId < 0xFFFF_FFFF
    ensures var t := Happens(env, s, e); s.maxId <= t.maxId <= s.maxId + 1 && (s.error ==> t.error)
  {
    hide CalledOutcome, Printed, Offered, ExposedNames, NewEntry, Accepts, Without, Find;
    match e
    case AppCalls(i, k, args) =>
      if i < |s.objects| {
        CallOutTable(s, i, k, args);
      }
    case _ =>
  }

  lemma {:induction false} GoneForever(env: ServerEnv, s: ServerState, events: seq<Event>, id: u32)
    requires Find(s.objects, id) < 0 && id < s.maxId && s.maxId + |events| <= 0xFFFF_FFFF
    ensures Find(After(env, s, events).objects, id) < 0
    decreases |events|
  {
    if events == [] {
    } else {
      HappensCounts(env, s, events[0]);
      HappensAbsent(env, s, events[0], id);
      GoneForever(env, Happens(env, s, events[0]), events[1..], id);
    }
  }

  /** A call of a destructor that is not refused takes the object out of the table. */
  lemma DestructorRemoves(s: ServerState, id: u32, k: u32, args: seq<Value>)
    requires id != 0 && Find(s.objects, id) >= 0
    requires var o := s.objects[Find(s.objects, id)]; k < |o.MethodsIn()| && o.MethodsIn()[k].isDestructor
    requires !OnGeneric(s, id, k, args).error
    ensures Find(OnGeneric(s, id, k, args).objects, id) < 0
  {
    hide Without, Find, CalledOutcome;
    FindWithout(s.objects, id, id);
  }

  /** Destruction is final. Once a destructor has been handled, then whatever else happens
      the object is never found again, and a stale call gets a fatal error back. */
  lemma DestructionIsFinal(env: ServerEnv, before: seq<Event>, id: u32, k: u32, args: seq<Value>,
                           after: seq<Event>, k': u32, args': seq<Value>)
    requires |before| + |after| < 0xFFFF_FFF0
    requires var s := After(env, Connected(), before);
      && Find(s.objects, id) >= 0
      && var o := s.objects[Find(s.objects, id)];
         k < |o.MethodsIn()| && o.MethodsIn()[k].isDestructor && !OnGeneric(s, id, k, args).error
    ensures var t := After(env, OnGeneric(After(env, Connected(), before), id, k, args), after);
      && Find(t.objects, id) < 0
      && OnGeneric(t, id, k', args').error
      && OnGeneric(t, id, k', args').sent == t.sent + [Fatal(id, NO_ERROR_ID)]
  {
    var s := After(env, Connected(), before);
    AfterRising(env, Connected(), before);
    RisingAt(s.objects, s.maxId, Find(s.objects, id), Find(s.objects, id));
    DestructorRemoves(s, id, k, args);
    HandleRising(env, s, Generic(id, k, args));
    GoneForever(env, OnGeneric(s, id, k, args), after, id);
  }

  // Errors.

  /** Handling a list of messages in pieces is handling the whole. */
  lemma {:induction false} HandleAllSplit(env: ServerEnv, s: ServerState, a: seq<Message>, b: seq<Message>)
    ensures HandleAll(env, s, a + b) == HandleAll(env, HandleAll(env, s, a), b)
    decreases |a|
  {
    if a == [] {
      assert a + b == b;
    } else {
      assert (a + b)[1..] == a[1..] + b;
      if !s.error {
        HandleAllSplit(env, Handle(env, s, a[0]), a[1..], b);
      }
    }
  }

  /** Error stop: a message that sets the error is the last one of its batch, and of any
      later batch, that has an effect. */
  lemma ErrorStop(env: ServerEnv, s: ServerState, a: seq<Message>, m: Message, b: seq<Message>, later: seq<Message>)
    requires HandleAll(env, s, a + [m]).error
    ensures HandleAll(env, s, a + [m] + b) == HandleAll(env, s, a + [m])
    ensures HandleAll(env, HandleAll(env, s, a + [m] + b), later) == HandleAll(env, s, a + [m])
  {
    HandleAllSplit(env, s, a + [m], b);
  }

  lemma {:induction false} HandleAllAbsent(env: ServerEnv, s: ServerState, ms: seq<Message>, id: u32)
    requires Rising(s.objects, s.maxId) && Find(s.objects, id) < 0
    requires 1 <= s.maxId && id < s.maxId && s.maxId + |ms| <= 0xFFFF_FFFF
    ensures Find(HandleAll(env, s, ms).objects, id) < 0
    decreases |ms|
  {
    if ms != [] && !s.error {
      HandleRising(env, s, ms[0]);
      HandleAbsent(env, s, ms[0], id);
      HandleAllAbsent(env, Handle(env, s, ms[0]), ms[1..], id);
    }
  }

  /** A call of an object behind its destructor is an error, whatever comes in between. */
  lemma StaleCallFails(env: ServerEnv, s: ServerState, id: u32, k: u32, args: seq<Value>, between: seq<Message>,
                       k': u32, args': seq<Value>)
    requires Rising(s.objects, s.maxId) && 1 <= s.maxId && s.maxId + |between| <= 0xFFFF_FFFF
    requires id != 0 && Find(s.objects, id) >= 0
    requires var f := s.objects[Find(s.objects, id)].MethodsIn(); k < |f| && f[k].isDestructor
    ensures HandleAll(env, s, [Generic(id, k, args)] + between + [Generic(id, k', args')]).error
  {
    hide OnGeneric, Rising, HandleAll, Find;
    var first, last := Generic(id, k, args), Generic(id, k', args');
    HandleAllSplit(env, s, [first] + between, [last]);
    HandleAllSplit(env, s, [first], between);
    HandleAllOne(env, s, first);
    var t := HandleAll(env, s, [first]);
    if !t.error {
      RisingAt(s.objects, s.maxId, Find(s.objects, id), Find(s.objects, id));
      DestructorRemoves(s, id, k, args);
      GenericRising(s, id, k, args);
      HandleAllAbsent(env, t, between, id);
      UnknownFails(HandleAll(env, t, between), id, k', args');
    } else {
      BatchAfterError(env, t, between);
    }
    HandleAllOne(env, HandleAll(env, s, [first] + between), last);
  }

  lemma HandleAllOne(env: ServerEnv, s: ServerState, m: Message)
    ensures HandleAll(env, s, [m]) == if s.error then s else Handle(env, s, m)
  {
    assert [m][1..] == [];
  }

  // A call behind its object's destructor, whatever happens in between.

  lemma {:induction false} AfterSplit(env: ServerEnv, s: ServerState, a: seq<Event>, b: seq<Event>)
    ensures After(env, s, a + b) == After(env, After(env, s, a), b)
    decreases |a|
  {
    if a == [] {
      assert a + b == b;
    } else {
      assert (a + b)[1..] == a[1..] + b;
      AfterSplit(env, Happens(env, s, a[0]), a[1..], b);
    }
  }

  lemma AfterOne(env: ServerEnv, s: ServerState, e: Event)
    ensures After(env, s, [e]) == Happens(env, s, e)
  {
    assert [e][1..] == [];
  }

  lemma {:induction false} AfterCounts(env: ServerEnv, s: ServerState, events: seq<Event>)
    requires s.maxId + |events| <= 0xFFFF_FFFF
    ensures var t := After(env, s, events); s.maxId <= t.maxId <= s.maxId + |events| && (s.error ==> t.error)
    decreases |events|
  {
    if events == [] {
    } else {
      hide Happens;
      HappensCounts(env, s, events[0]);
      AfterCounts(env, Happens(env, s, events[0]), events[1..]);
    }
  }

  /** Whatever object has the id is of the type. */
  ghost predicate Typed(objects: seq<ServerObject>, id: u32, os: ObjectSpec) {
    forall o :: o in objects && o.id == id ==> o.spec == Spec(os)
  }

  lemma {:induction false} WithoutFewer(objects: seq<ServerObject>, id: u32)
    ensures forall o :: o in Without(objects, id) ==> o in objects
  {
    if objects == [] {
    } else {
      WithoutFewer(objects[1..], id);
    }
  }

  lemma TypedUpdate(objects: seq<ServerObject>, i: nat, o: ServerObject, id: u32, os: ObjectSpec)
    requires Typed(objects, id, os) && i < |objects| && o.id == objects[i].id && o.spec == objects[i].spec
    ensures Typed(objects[i := o], id, os)
  {
    assert objects[i] in objects;
  }

  lemma TypedWithout(objects: seq<ServerObject>, gone: u32, id: u32, os: ObjectSpec)
    requires Typed(objects, id, os)
    ensures Typed(Without(objects, gone), id, os)
  {
    WithoutFewer(objects, gone);
  }

  lemma GenericTyped(s: ServerState, target: u32, k: u32, args: seq<Value>, id: u32, os: ObjectSpec)
    requires Typed(s.objects, id, os)
    ensures Typed(OnGeneric(s, target, k, args).objects, id, os)
  {
    hide Typed, Without, Find, CalledOutcome;
    var i := Find(s.objects, target);
    if i >= 0 {
      TypedUpdate(s.objects, i, s.objects[i].(destroyed := true), id, os);
      TypedWithout(s.objects, s.objects[i].id, id, os);
    }
  }

  /** An id given out never comes to stand for another type. */
  lemma HappensTyped(env: ServerEnv, s: ServerState, e: Event, id: u32, os: ObjectSpec)
    requires Typed(s.objects, id, os) && id < s.maxId
    ensures Typed(Happens(env, s, e).objects, id, os)
  {
    hide OnGeneric, Printed, Offered, ExposedNames, Accepts, FindProtocol, FindObject, CallOut;
    match e
    case Receive(m) =>
      if m.Generic? {
        GenericTyped(s, m.objectId, m.method_, m.args, id, os);
      }
    case AppCalls(i, k, args) =>
      if i < |s.objects| {
        CallOutTable(s, i, k, args);
        TypedUpdate(s.objects, i, s.objects[i].(destroyed := true), id, os);
      }
    case AppListens(i, k) =>
      if i < |s.objects| {
        TypedUpdate(s.objects, i, s.objects[i].(listeners := s.objects[i].listeners + {k}), id, os);
      }
    case _ =>
  }

  lemma {:induction false} AfterTyped(env: ServerEnv, s: ServerState, events: seq<Event>, id: u32, os: ObjectSpec)
    requires Typed(s.objects, id, os) && id < s.maxId && s.maxId + |events| <= 0xFFFF_FFFF
    ensures Typed(After(env, s, events).objects, id, os)
    decreases |events|
  {
    if events == [] {
    } else {
      hide Happens, Typed;
      HappensCounts(env, s, events[0]);
      HappensTyped(env, s, events[0], id, os);
      AfterTyped(env, Happens(env, s, events[0]), events[1..], id, os);
    }
  }

  /** A destructor is refused, or takes the object away, or finds it gone already. */
  lemma DestructorEnds(env: ServerEnv, s: ServerState, id: u32, k: u32, args: seq<Value>, os: ObjectSpec)
    requires Typed(s.objects, id, os) && id != 0 && k < |os.c2s| && os.c2s[k].isDestructor
    ensures var t := Happens(env, s, Receive(Generic(id, k, args))); t.error || Find(t.objects, id) < 0
  {
    hide OnGeneric, Find;
    if !s.error {
      if Find(s.objects, id) >= 0 {
        assert s.objects[Find(s.objects, id)] in s.objects;
        if !OnGeneric(s, id, k, args).error {
          DestructorRemoves(s, id, k, args);
        }
      } else {
        UnknownFails(s, id, k, args);
      }
    }
  }

  lemma UnknownFails(s: ServerState, id: u32, k: u32, args: seq<Value>)
    requires Find(s.objects, id) < 0
    ensures OnGeneric(s, id, k, args).error
  {
  }

  lemma {:induction false} GoneCallFails(env: ServerEnv, s: ServerState, between: seq<Event>, id: u32, k: u32,
      args: seq<Value>)
    requires s.error || Find(s.objects, id) < 0
    requires id < s.maxId && s.maxId + |between| <= 0xFFFF_FFFF
    ensures Happens(env, After(env, s, between), Receive(Generic(id, k, args))).error
  {
    hide Find, OnGeneric;
    AfterCounts(env, s, between);
    if !s.error {
      GoneForever(env, s, between, id);
      UnknownFails(After(env, s, between), id, k, args);
    }
  }

  function MessageOf(e: Event): seq<Message> {
    match e
    case Receive(m) => [m]
    case _ => []
  }

  /** The messages among the events. */
  function Heard(events: seq<Event>): seq<Message> {
    if events == [] then []
    else MessageOf(events[0]) + Heard(events[1..])
  }

  lemma {:induction false} HeardAt(events: seq<Event>, p: nat) returns (n: nat)
    requires p < |Heard(events)|
    ensures n < |events| && events[n] == Receive(Heard(events)[p]) && Heard(events[n + 1..]) == Heard(events)[p + 1..]
  {
    var rest := Heard(events[1..]);
    var first := MessageOf(events[0]);
    assert Heard(events) == first + rest;
    if events[0].Receive? && p == 0 {
      n := 0;
      assert (first + rest)[1..] == rest;
    } else {
      var q := p - |first|;
      n := HeardAt(events[1..], q);
      HeardSkips(events, first, rest, n, p, q);
      n := n + 1;
    }
  }

  lemma HeardSkips(events: seq<Event>, first: seq<Message>, rest: seq<Message>, n: nat, p: nat, q: nat)
    requires q == p - |first| && n + 1 < |events| && q < |rest|
    ensures events[1..][n] == events[n + 1] && events[1..][n + 1..] == events[n + 2..]
    ensures (first + rest)[p] == rest[q] && (first + rest)[p + 1..] == rest[q + 1..]
  {
  }

  lemma Around(events: seq<Event>, n: nat)
    requires n < |events|
    ensures events == events[..n] + ([events[n]] + events[n + 1..])
  {
  }

  lemma AfterAround(env: ServerEnv, s: ServerState, events: seq<Event>, n: nat)
    requires n < |events|
    ensures After(env, s, events) == After(env, Happens(env, After(env, s, events[..n]), events[n]), events[n + 1..])
  {
    hide Happens, After;
    Around(events, n);
    AfterSplit(env, s, events[..n], [events[n]] + events[n + 1..]);
    AfterSplit(env, After(env, s, events[..n]), [events[n]], events[n + 1..]);
    AfterOne(env, After(env, s, events[..n]), events[n]);
  }

  /** A client that is heard to call a destructor and, later, the same object again ends in
      error, whatever else it sends and whatever the application does meanwhile. */
  lemma LateCallFails(env: ServerEnv, s: ServerState, events: seq<Event>, p: nat, r: nat, id: u32, os: ObjectSpec)
    requires p < r < |Heard(events)| && id != 0 && id < s.maxId && s.maxId + |events| <= 0xFFFF_FFFF
    requires var m := Heard(events)[p];
      m.Generic? && m.objectId == id && m.method_ < |os.c2s| && os.c2s[m.method_].isDestructor
    requires Heard(events)[r].Generic? && Heard(events)[r].objectId == id && Typed(s.objects, id, os)
    ensures After(env, s, events).error
  {
    hide Happens, After, Heard, Typed, Find;
    var m, late := Heard(events)[p], Heard(events)[r];
    var n := HeardAt(events, p);
    var a, rest := events[..n], events[n + 1..];
    AfterAround(env, s, events, n);
    AfterCounts(env, s, a);
    AfterTyped(env, s, a, id, os);
    var t := After(env, s, a);
    DestructorEnds(env, t, id, m.method_, m.args, os);
    HappensCounts(env, t, events[n]);
    var u := Happens(env, t, events[n]);
    var l := HeardAt(rest, r - p - 1);
    AfterAround(env, u, rest, l);
    GoneCallFails(env, u, rest[..l], id, late.method_, late.args);
    AfterCounts(env, u, rest[..l]);
    HappensCounts(env, After(env, u, rest[..l]), rest[l]);
    AfterCounts(env, Happens(env, After(env, u, rest[..l]), rest[l]), rest[l + 1..]);
  }

  /** A batch is the events of receiving its messages. */
  function Receipts(ms: seq<Message>): (es: seq<Event>)
    ensures |es| == |ms|
  {
    if ms == [] then [] else [Receive(ms[0])] + Receipts(ms[1..])
  }

  lemma {:induction false} BatchIsEvents(env: ServerEnv, s: ServerState, ms: seq<Message>)
    ensures HandleAll(env, s, ms) == After(env, s, Receipts(ms)) && Heard(Receipts(ms)) == ms
    decreases |ms|
  {
    if ms == [] {
    } else {
      hide Handle;
      var es := Receipts(ms);
      assert es[1..] == Receipts(ms[1..]);
      BatchIsEvents(env, Happens(env, s, es[0]), ms[1..]);
      BatchAfterError(env, s, ms[1..]);
      assert [ms[0]] + ms[1..] == ms;
    }
  }

  lemma BatchAfterError(env: ServerEnv, s: ServerState, ms: seq<Message>)
    ensures s.error ==> HandleAll(env, s, ms) == s
  {
  }
}
