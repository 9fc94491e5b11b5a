/** The server's half of the invariant, kept by each thing that happens to the server. */
module ServerSteps {
  import opened Bytes
  import opened Arguments
  import opened Specs
  import opened SpecNames
  import opened Messages
  import opened WireObject
  import opened Session
  import opened Invariant
  import S = Server
  import ServerSafety

  // The server's log.

  lemma ServerLogAppend(sent: seq<Message>, born: seq<u32>, m: Message)
    requires ServerLogOk(sent, born) && ServerMayFollow(born, Births(sent), LastDone(sent), m)
    ensures ServerLogOk(sent + [m], born)
    ensures Births(sent + [m]) == Births(sent) + (if m.NewObject? then 1 else 0)
    ensures LastDone(sent + [m]) == if m.RoundtripDone? then m.answered else LastDone(sent)
  {
    assert (sent + [m])[..|sent|] == sent;
  }

  lemma {:induction false} ServerLogGrow(sent: seq<Message>, born: seq<u32>, more: seq<u32>)
    requires ServerLogOk(sent, born)
    ensures ServerLogOk(sent, born + more)
  {
    if sent == [] {
    } else {
      ServerLogGrow(sent[..|sent| - 1], born, more);
    }
  }

  lemma {:induction false} ServerLogAt(sent: seq<Message>, born: seq<u32>, p: nat)
    requires ServerLogOk(sent, born) && p < |sent|
    ensures ServerMayFollow(born, Births(sent[..p]), LastDone(sent[..p]), sent[p])
  {
    var n := |sent| - 1;
    if p < n {
      assert sent[..n][..p] == sent[..p];
      ServerLogAt(sent[..n], born, p);
    }
  }

  lemma {:induction false} AllEventsGrow(kinds: seq<Kind>, more: seq<Kind>, born: seq<u32>, later: seq<u32>,
      sent: seq<Message>)
    requires AllEvents(kinds, born, sent)
    ensures AllEvents(kinds + more, born + later, sent)
  {
    if sent == [] {
    } else {
      AllEventsGrow(kinds, more, born, later, sent[..|sent| - 1]);
    }
  }

  lemma AllEventsAppend(kinds: seq<Kind>, born: seq<u32>, sent: seq<Message>, m: Message)
    requires AllEvents(kinds, born, sent) && EventOk(kinds, born, Births(sent), m)
    ensures AllEvents(kinds, born, sent + [m])
  {
    assert (sent + [m])[..|sent|] == sent;
  }

  lemma {:induction false} EventAt(kinds: seq<Kind>, born: seq<u32>, sent: seq<Message>, p: nat)
    requires AllEvents(kinds, born, sent) && p < |sent|
    ensures EventOk(kinds, born, Births(sent[..p]), sent[p])
  {
    var n := |sent| - 1;
    if p < n {
      assert sent[..n][..p] == sent[..p];
      EventAt(kinds, born, sent[..n], p);
    }
  }

  // The tables.

  lemma AllBornAppend(born: seq<u32>, n: nat, q: u32)
    requires AllBorn(born, n) && 1 <= q <= n
    ensures AllBorn(born + [q], n)
  {
    assert (born + [q])[..|born|] == born;
  }

  lemma {:induction false} AllBornGrow(born: seq<u32>, n: nat, more: nat)
    requires AllBorn(born, n) && n <= more
    ensures AllBorn(born, more)
  {
    if born == [] {
    } else {
      AllBornGrow(born[..|born| - 1], n, more);
    }
  }

  lemma {:induction false} KindAt(env: Env, kinds: seq<Kind>, i: nat)
    requires AllKinds(env, kinds) && i < |kinds|
    ensures KindOk(env, kinds[i])
  {
    if i < |kinds| - 1 {
      KindAt(env, kinds[..|kinds| - 1], i);
    }
  }

  lemma AllKindsAppend(env: Env, kinds: seq<Kind>, k: Kind)
    requires AllKinds(env, kinds) && KindOk(env, k)
    ensures AllKinds(env, kinds + [k])
  {
    assert (kinds + [k])[..|kinds|] == kinds;
  }

  lemma AllOwedAppend(env: Env, kinds: seq<Kind>, owed: seq<Owed>, w: Owed)
    requires AllOwed(env, kinds, owed) && OwedOk(env, kinds, w)
    ensures AllOwed(env, kinds, owed + [w])
  {
    assert (owed + [w])[..|owed|] == owed;
  }

  lemma {:induction false} OwedAt(env: Env, kinds: seq<Kind>, owed: seq<Owed>, i: nat)
    requires AllOwed(env, kinds, owed) && i < |owed|
    ensures OwedOk(env, kinds, owed[i])
  {
    if i < |owed| - 1 {
      OwedAt(env, kinds, owed[..|owed| - 1], i);
    }
  }

  lemma {:induction false} AllOwedGrow(env: Env, kinds: seq<Kind>, more: seq<Kind>, owed: seq<Owed>)
    requires AllOwed(env, kinds, owed)
    ensures AllOwed(env, kinds + more, owed)
  {
    if owed == [] {
    } else {
      AllOwedGrow(env, kinds, more, owed[..|owed| - 1]);
    }
  }

  lemma AllTwinsAppend(kinds: seq<Kind>, born: seq<u32>, objects: seq<S.ServerObject>, o: S.ServerObject)
    requires AllTwins(kinds, born, objects) && TwinOk(kinds, born, o)
    ensures AllTwins(kinds, born, objects + [o])
  {
    assert (objects + [o])[..|objects|] == objects;
  }

  lemma {:induction false} AllTwinsGrow(kinds: seq<Kind>, more: seq<Kind>, born: seq<u32>, later: seq<u32>,
      objects: seq<S.ServerObject>)
    requires AllTwins(kinds, born, objects)
    ensures AllTwins(kinds + more, born + later, objects)
  {
    if objects == [] {
    } else {
      AllTwinsGrow(kinds, more, born, later, objects[..|objects| - 1]);
    }
  }

  lemma {:induction false} TwinAt(kinds: seq<Kind>, born: seq<u32>, objects: seq<S.ServerObject>, i: nat)
    requires AllTwins(kinds, born, objects) && i < |objects|
    ensures TwinOk(kinds, born, objects[i])
  {
    if i < |objects| - 1 {
      TwinAt(kinds, born, objects[..|objects| - 1], i);
    }
  }

  lemma {:induction false} AllTwinsUpdate(kinds: seq<Kind>, born: seq<u32>, objects: seq<S.ServerObject>, i: nat,
      o: S.ServerObject)
    requires AllTwins(kinds, born, objects) && i < |objects| && TwinOk(kinds, born, o)
    ensures AllTwins(kinds, born, objects[i := o])
  {
    var n := |objects| - 1;
    if i < n {
      assert objects[i := o][..n] == objects[..n][i := o];
      AllTwinsUpdate(kinds, born, objects[..n], i, o);
    } else {
      assert objects[i := o][..n] == objects[..n];
    }
  }

  lemma {:induction false} AllTwinsWithout(kinds: seq<Kind>, born: seq<u32>, objects: seq<S.ServerObject>, id: u32)
    requires AllTwins(kinds, born, objects)
    ensures AllTwins(kinds, born, S.Without(objects, id))
  {
    if objects == [] {
    } else {
      var n := |objects| - 1;
      AllTwinsWithout(kinds, born, objects[..n], id);
      assert objects == objects[..n] + [objects[n]];
      ServerSafety.WithoutSnoc(objects[..n], objects[n], id);
      var rest := S.Without(objects[..n], id);
      if objects[n].id == id {
        assert rest + [] == rest;
      } else {
        AllTwinsAppend(kinds, born, rest, objects[n]);
      }
    }
  }

  lemma {:induction false} PresentAt(objects: seq<S.ServerObject>, n: nat, dead: set<u32>, id: u32)
    requires Present(objects, n, dead) && 1 <= id <= n
    ensures S.Find(objects, id) >= 0 <==> id !in dead
  {
    if id < n {
      PresentAt(objects, n - 1, dead, id);
    }
  }

  lemma {:induction false} PresentSame(objects: seq<S.ServerObject>, n: nat, dead: set<u32>, i: nat, o: S.ServerObject)
    requires Present(objects, n, dead) && i < |objects| && o.id == objects[i].id
    ensures Present(objects[i := o], n, dead)
    decreases n
  {
    if n > 0 {
      if n < 0x1_0000_0000 {
        ServerSafety.FindUpdate(objects, n, i, o);
      }
      PresentSame(objects, n - 1, dead, i, o);
    }
  }

  lemma {:induction false} PresentWithout(objects: seq<S.ServerObject>, n: nat, dead: set<u32>, id: u32)
    requires Present(objects, n, dead)
    ensures Present(S.Without(objects, id), n, dead + {id})
    decreases n
  {
    if n > 0 {
      if n < 0x1_0000_0000 {
        ServerSafety.FindWithout(objects, n, id);
      }
      PresentWithout(objects, n - 1, dead, id);
    }
  }

  lemma {:induction false} PresentKeep(objects: seq<S.ServerObject>, n: nat, dead: set<u32>, o: S.ServerObject)
    requires Present(objects, n, dead) && n < o.id
    ensures Present(objects + [o], n, dead)
    decreases n
  {
    if n > 0 {
      ServerSafety.FindAppend(objects, n, o);
      PresentKeep(objects, n - 1, dead, o);
    }
  }

  lemma PresentAppend(objects: seq<S.ServerObject>, n: nat, dead: set<u32>, o: S.ServerObject)
    requires Present(objects, n, dead) && o.id == n + 1 && o.id !in dead
    ensures Present(objects + [o], n + 1, dead)
  {
    PresentKeep(objects, n, dead, o);
    ServerSafety.FindAppend(objects, o.id, o);
  }

  // Creation.

  /** A request that names what its number stands for is accepted, once the protocol is
      exposed. */
  lemma CreateAccepted(env: Env, kinds: seq<Kind>, s: S.ServerState, w: Owed)
    requires AllKinds(env, kinds) && OwedOk(env, kinds, w) && w.protocol in s.exposed
    ensures S.Accepts(env.server, s.exposed, w.protocol, w.name, w.version)
    ensures S.NewEntry(env.server, s.exposed, s.maxId, w.protocol, w.name, w.version)
      == S.ServerObject(s.maxId, w.version, Spec(kinds[w.seq_ - 1].spec), w.protocol, false, {})
  {
    hide FindProtocol, FindObject;
    KindAt(env, kinds, w.seq_ - 1);
  }

  /** An accepted request adds its object and announces it. */
  lemma CreateState(env: S.ServerEnv, s: S.ServerState, w: Owed, o: S.ServerObject)
    requires S.Accepts(env, s.exposed, w.protocol, w.name, w.version)
    requires S.NewEntry(env, s.exposed, s.maxId, w.protocol, w.name, w.version) == o
    ensures S.CreateObject(env, s, w.protocol, w.name, w.version, w.seq_)
      == s.(maxId := S.Increment(s.maxId), objects := s.objects + [o], sent := s.sent + [NewObject(s.maxId, w.seq_)])
  {
    hide S.Accepts, S.NewEntry;
  }

  /** A new object for a sequence number gets the next id, and is what the number stands for. */
  lemma CreateKeeps(env: Env, kinds: seq<Kind>, born: seq<u32>, owed: seq<Owed>, dead: set<u32>, s: S.ServerState,
      w: Owed)
    requires ServerInv(env, kinds, born, owed, dead, s) && s.maxId < 0xFFFF_FFFF && s.maxId !in dead
    requires OwedOk(env, kinds, w) && w.protocol in s.exposed
    ensures var t := S.CreateObject(env.server, s, w.protocol, w.name, w.version, w.seq_);
      && ServerInv(env, kinds, born + [w.seq_], owed, dead, t)
      && t.sent == s.sent + [NewObject(s.maxId, w.seq_)] && t.exposed == s.exposed && t.firstPollDone == s.firstPollDone
      && t.version == s.version && t.scheduled == s.scheduled
  {
    hide AllTwins, Present, ServerLogOk, AllEvents, Births, LastDone, AllKinds, AllOwed, AllBorn, FindProtocol,
      FindObject, OwedOk, S.CreateObject, S.NewEntry, S.Accepts;
    OwedNumber(env, kinds, w);
    CreateAccepted(env, kinds, s, w);
    var o := S.ServerObject(s.maxId, w.version, Spec(kinds[w.seq_ - 1].spec), w.protocol, false, {});
    CreateState(env.server, s, w, o);
    CreateTables(env, kinds, born, dead, s, w, o);
    CreateLogs(kinds, born, s.sent, w.seq_, s.maxId);
  }

  /** The announcement of a new object goes behind the log. */
  lemma CreateLogs(kinds: seq<Kind>, born: seq<u32>, sent: seq<Message>, q: u32, id: u32)
    requires ServerLogOk(sent, born) && AllEvents(kinds, born, sent) && Births(sent) == |born| && id == |born| + 1
    ensures var log := sent + [NewObject(id, q)];
      ServerLogOk(log, born + [q]) && AllEvents(kinds, born + [q], log) && Births(log) == |born| + 1
  {
    hide ServerLogOk, AllEvents, Births, LastDone;
    assert kinds + [] == kinds;
    AllEventsGrow(kinds, [], born, [q], sent);
    AllEventsAppend(kinds, born + [q], sent, NewObject(id, q));
    ServerLogGrow(sent, born, [q]);
    ServerLogAppend(sent, born + [q], NewObject(id, q));
  }

  lemma OwedNumber(env: Env, kinds: seq<Kind>, w: Owed)
    requires OwedOk(env, kinds, w)
    ensures 1 <= w.seq_ <= |kinds|
  {
    hide FindProtocol, FindObject;
  }

  lemma NewTwin(env: Env, kinds: seq<Kind>, born: seq<u32>, w: Owed, o: S.ServerObject)
    requires OwedOk(env, kinds, w) && o.id == |born| + 1
    requires o.spec == Spec(kinds[w.seq_ - 1].spec) && o.protocol == w.protocol && o.version == w.version
    ensures 1 <= w.seq_ <= |kinds| && TwinOk(kinds, born + [w.seq_], o)
  {
    hide FindProtocol, FindObject;
  }

  lemma CreateTables(env: Env, kinds: seq<Kind>, born: seq<u32>, dead: set<u32>, s: S.ServerState, w: Owed,
      o: S.ServerObject)
    requires AllTwins(kinds, born, s.objects) && Present(s.objects, |born|, dead) && AllBorn(born, |kinds|)
    requires s.maxId == |born| + 1 && s.maxId !in dead && OwedOk(env, kinds, w)
    requires o == S.ServerObject(s.maxId, w.version, Spec(kinds[w.seq_ - 1].spec), w.protocol, false, {})
    ensures AllBorn(born + [w.seq_], |kinds|)
    ensures AllTwins(kinds, born + [w.seq_], s.objects + [o]) && Present(s.objects + [o], |born + [w.seq_]|, dead)
  {
    hide AllTwins, Present, AllBorn, OwedOk, TwinOk;
    NewTwin(env, kinds, born, w, o);
    AllBornAppend(born, |kinds|, w.seq_);
    AllTwinsGrow(kinds, [], born, [w.seq_], s.objects);
    assert kinds + [] == kinds;
    AllTwinsAppend(kinds, born + [w.seq_], s.objects, o);
    PresentAppend(s.objects, |born|, dead, o);
  }

  // Calls.

  /** A right call of a living object finds it, passes every check of `called`, and
      removes it exactly when the method is a destructor. */
  lemma CallAccepted(env: Env, kinds: seq<Kind>, born: seq<u32>, owed: seq<Owed>, dead: set<u32>, s: S.ServerState,
                     id: u32, origin: u32, k: u32, args: seq<Value>, dtor: bool) returns (i: nat)
    requires ServerInv(env, kinds, born, owed, dead, s)
    requires 1 <= id <= |born| && id !in dead && born[id - 1] == origin && CallOk(env, kinds, origin, k, args, dtor)
    ensures i < |s.objects| && S.Find(s.objects, id) == i && s.objects[i].id == id
    ensures s.objects[i].spec == Spec(kinds[origin - 1].spec) && TwinOk(kinds, born, s.objects[i])
    ensures var o := s.objects[i];
      && k < |o.MethodsIn()| && o.MethodsIn()[k].isDestructor == dtor
      && CalledOutcome(o.MethodsIn(), o.listeners, o.version, k, args)
        == if k in o.listeners then Delivered([ObjectPtr] + SlotsOf(args)) else Ignored
  {
    hide AllTwins, Present, ServerLogOk, AllEvents, Births, LastDone, AllKinds, AllOwed, AllBorn, FindProtocol,
      FindObject;
    PresentAt(s.objects, |born|, dead, id);
    i := S.Find(s.objects, id);
    TwinAt(kinds, born, s.objects, i);
    assert SlotsOf(args)[..|TypesOf(args)|] == SlotsOf(args);
  }

  lemma DestroyKeeps(env: Env, kinds: seq<Kind>, born: seq<u32>, owed: seq<Owed>, dead: set<u32>, s: S.ServerState,
      i: nat, m: Method)
    requires ServerInv(env, kinds, born, owed, dead, s) && i < |s.objects| && s.objects[i].id != 0
    ensures ServerInv(env, kinds, born, owed, dead + (if m.isDestructor then {s.objects[i].id} else {}),
      S.DestroyIfNeeded(s, i, m))
  {
    hide AllTwins, Present, ServerLogOk, AllEvents, Births, LastDone, AllKinds, AllOwed, AllBorn, FindProtocol,
      FindObject;
    AllTwinsWithout(kinds, born, s.objects, s.objects[i].id);
    PresentWithout(s.objects, |born|, dead, s.objects[i].id);
    assert dead + {} == dead;
  }

  lemma GenericKeeps(env: Env, kinds: seq<Kind>, born: seq<u32>, owed: seq<Owed>, dead: set<u32>, s: S.ServerState,
                     id: u32, origin: u32, k: u32, args: seq<Value>, dtor: bool)
    requires ServerInv(env, kinds, born, owed, dead, s)
    requires 1 <= id <= |born| && id !in dead && born[id - 1] == origin && CallOk(env, kinds, origin, k, args, dtor)
    ensures ServerInv(env, kinds, born, owed, dead + (if dtor then {id} else {}), S.OnGeneric(s, id, k, args))
    ensures S.OnGeneric(s, id, k, args).sent == s.sent
  {
    hide ServerInv, CallOk, TwinOk, CalledOutcome;
    var i := CallAccepted(env, kinds, born, owed, dead, s, id, origin, k, args, dtor);
    var o := s.objects[i];
    var listened := if k in o.listeners then s.(calls := s.calls + [S.Call(o.id, k, [ObjectPtr] + SlotsOf(args))])
      else s;
    SameButCalls(env, kinds, born, owed, dead, s, listened.calls);
    DestroyKeeps(env, kinds, born, owed, dead, listened, i, o.MethodsIn()[k]);
  }

  lemma SameButCalls(env: Env, kinds: seq<Kind>, born: seq<u32>, owed: seq<Owed>, dead: set<u32>, s: S.ServerState,
      calls: seq<S.Call>)
    requires ServerInv(env, kinds, born, owed, dead, s)
    ensures ServerInv(env, kinds, born, owed, dead, s.(calls := calls))
  {
    hide AllTwins, Present, ServerLogOk, AllEvents, Births, LastDone, AllKinds, AllOwed, AllBorn;
  }

  /** What a listener is asked to create is a type of the caller's protocol, by the name
      and version the number stands for. */
  lemma OwedKeeps(env: Env, kinds: seq<Kind>, born: seq<u32>, owed: seq<Owed>, dead: set<u32>, s: S.ServerState,
                  id: u32, origin: u32, k: u32, args: seq<Value>, dtor: bool)
    requires Agreed(env) && ServerInv(env, kinds, born, owed, dead, s)
    requires 1 <= id <= |born| && id !in dead && born[id - 1] == origin && CallOk(env, kinds, origin, k, args, dtor)
    ensures AllOwed(env, kinds, owed + OwedBy(s, Generic(id, k, args)))
  {
    hide AllTwins, Present, ServerLogOk, AllEvents, Births, LastDone, AllOwed, AllBorn, AllKinds, FindProtocol,
      FindObject, S.ExposedNames, CalledOutcome, Agreed;
    var i := CallAccepted(env, kinds, born, owed, dead, s, id, origin, k, args, dtor);
    var ws := OwedBy(s, Generic(id, k, args));
    if ws != [] {
      KindAt(env, kinds, origin - 1);
      ChildKindFound(env, kinds[origin - 1], k);
      AllOwedAppend(env, kinds, owed, ws[0]);
    } else {
      assert owed + ws == owed;
    }
  }

  /** Well-formed protocols define the types their methods return. */
  lemma ChildKindFound(env: Env, kind: Kind, k: nat)
    requires Agreed(env) && KindOk(env, kind) && k < |kind.spec.c2s| && kind.spec.c2s[k].Returns()
    ensures var child := ChildKind(env, kind, kind.spec.c2s[k].returnsType);
      && KindOk(env, child) && child.protocol == kind.protocol && child.version == kind.version
      && FindProtocol(env.server.impls, kind.protocol).Found?
      && FindObject(FindProtocol(env.server.impls, kind.protocol).spec.objects, kind.spec.c2s[k].returnsType)
        == Spec(child.spec)
  {
    hide FindProtocol, FindObject;
    var p := FindProtocol(env.server.impls, kind.protocol).spec;
    assert p in env.server.impls && WellFormedProtocol(p);
    assert WellFormedObject(p, kind.spec);
  }

  // Messages.

  /** The greeting: the protocols that pass the filter become visible. */
  lemma HelloKeeps(env: Env, kinds: seq<Kind>, born: seq<u32>, owed: seq<Owed>, dead: set<u32>, s: S.ServerState)
    requires ServerInv(env, kinds, born, owed, dead, s)
    ensures ServerInv(env, kinds, born, owed, dead, S.Handle(env.server, s, Hello))
  {
    hide AllTwins, Present, ServerLogOk, AllEvents, Births, LastDone, AllKinds, AllOwed, AllBorn, S.ExposedNames;
    ServerLogAppend(s.sent, born, HandshakeBegin([S.PROTOCOL_VERSION]));
    AllEventsAppend(kinds, born, s.sent, HandshakeBegin([S.PROTOCOL_VERSION]));
  }

  lemma AckKeeps(env: Env, kinds: seq<Kind>, born: seq<u32>, owed: seq<Owed>, dead: set<u32>, s: S.ServerState, v: u32)
    requires ServerInv(env, kinds, born, owed, dead, s)
    ensures ServerInv(env, kinds, born, owed, dead, S.Handle(env.server, s, HandshakeAck(v)))
  {
    hide AllTwins, Present, ServerLogOk, AllEvents, Births, LastDone, AllKinds, AllOwed, AllBorn, S.Offered, Printed;
    ServerLogAppend(s.sent, born, HandshakeProtocols(Printed(S.Offered(env.server.impls, s.exposed))));
    AllEventsAppend(kinds, born, s.sent, HandshakeProtocols(Printed(S.Offered(env.server.impls, s.exposed))));
  }

  lemma EndBatchKeeps(env: Env, kinds: seq<Kind>, born: seq<u32>, owed: seq<Owed>, dead: set<u32>, s: S.ServerState)
    requires ServerInv(env, kinds, born, owed, dead, s) && (s.scheduled > 0 ==> LastDone(s.sent) < s.scheduled)
    ensures ServerInv(env, kinds, born, owed, dead, S.EndBatch(s))
  {
    hide AllTwins, Present, ServerLogOk, AllEvents, Births, LastDone, AllKinds, AllOwed, AllBorn;
    if s.scheduled > 0 {
      ServerLogAppend(s.sent, born, RoundtripDone(s.scheduled));
      AllEventsAppend(kinds, born, s.sent, RoundtripDone(s.scheduled));
    }
  }

  lemma CallOutKeeps(env: Env, kinds: seq<Kind>, born: seq<u32>, owed: seq<Owed>, dead: set<u32>, s: S.ServerState,
                     i: nat, k: u32, args: seq<Value>)
    requires ServerInv(env, kinds, born, owed, dead, s) && HonestServerCall(s, i, k, args)
    ensures ServerInv(env, kinds, born, owed, dead, S.CallOut(s, i, k, args))
  {
    hide AllTwins, Present, ServerLogOk, AllEvents, Births, LastDone, AllKinds, AllOwed, AllBorn;
    var o := s.objects[i];
    TwinAt(kinds, born, s.objects, i);
    AllTwinsUpdate(kinds, born, s.objects, i, o.(destroyed := true));
    PresentSame(s.objects, |born|, dead, i, o.(destroyed := true));
    ServerLogAppend(s.sent, born, Generic(o.id, k, args));
    AllEventsAppend(kinds, born, s.sent, Generic(o.id, k, args));
  }

  /** An honest call sends its message, and marks the object if the method is a destructor. */
  lemma CallOutIs(s: S.ServerState, i: nat, k: u32, args: seq<Value>)
    requires HonestServerCall(s, i, k, args)
    ensures var t := S.CallOut(s, i, k, args);
      t == s.(objects := t.objects, sent := s.sent + [Generic(s.objects[i].id, k, args)])
  {
  }

  lemma ListenKeeps(env: Env, kinds: seq<Kind>, born: seq<u32>, owed: seq<Owed>, dead: set<u32>, s: S.ServerState,
      i: nat, k: u32)
    requires ServerInv(env, kinds, born, owed, dead, s) && i < |s.objects|
    ensures ServerInv(env, kinds, born, owed, dead, S.Listen(s, i, k))
  {
    hide AllTwins, Present, ServerLogOk, AllEvents, Births, LastDone, AllKinds, AllOwed, AllBorn;
    var o := s.objects[i].(listeners := s.objects[i].listeners + {k as nat});
    TwinAt(kinds, born, s.objects, i);
    AllTwinsUpdate(kinds, born, s.objects, i, o);
    PresentSame(s.objects, |born|, dead, i, o);
  }
}
