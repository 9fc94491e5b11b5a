/** How the client's log, its kept-back messages and its table of objects may change
    without breaking what the invariant says about them. */
module ClientTables {
  import opened Bytes
  import opened Arguments
  import opened SpecNames
  import opened Messages
  import opened Session
  import opened Invariant
  import C = Client

  // The log.

  lemma ClientLogAppend(sent: seq<C.Outgoing>, e: C.Outgoing)
    requires ClientLogOk(sent) && MayFollow(Dead(sent), LastRequest(sent), e.msg)
    ensures ClientLogOk(sent + [e]) && Dead(sent + [e]) == Dead(sent) + KilledBy(e)
    ensures LastRequest(sent + [e]) == if e.msg.RoundtripRequest? then e.msg.request else LastRequest(sent)
  {
    assert (sent + [e])[..|sent|] == sent;
  }

  lemma {:induction false} ClientLogAt(sent: seq<C.Outgoing>, j: nat)
    requires ClientLogOk(sent) && j < |sent|
    ensures MayFollow(Dead(sent[..j]), LastRequest(sent[..j]), sent[j].msg)
  {
    var n := |sent| - 1;
    if j < n {
      assert sent[..n][..j] == sent[..j];
      ClientLogAt(sent[..n], j);
    }
  }

  lemma AllEntriesAppend(env: Env, kinds: seq<Kind>, born: seq<u32>, known: nat, sent: seq<C.Outgoing>, e: C.Outgoing)
    requires AllEntries(env, kinds, born, known, sent) && EntryOk(env, kinds, born, known, e)
    ensures AllEntries(env, kinds, born, known, sent + [e])
  {
    assert (sent + [e])[..|sent|] == sent;
  }

  lemma {:induction false} EntryAt(env: Env, kinds: seq<Kind>, born: seq<u32>, known: nat, sent: seq<C.Outgoing>,
      j: nat)
    requires AllEntries(env, kinds, born, known, sent) && j < |sent|
    ensures EntryOk(env, kinds, born, known, sent[j])
  {
    if j < |sent| - 1 {
      EntryAt(env, kinds, born, known, sent[..|sent| - 1], j);
    }
  }

  lemma CallOkGrow(env: Env, kinds: seq<Kind>, more: seq<Kind>, origin: u32, k: u32, args: seq<Value>, dtor: bool)
    requires CallOk(env, kinds, origin, k, args, dtor)
    ensures CallOk(env, kinds + more, origin, k, args, dtor)
  {
  }

  lemma EntryOkGrow(env: Env, kinds: seq<Kind>, more: seq<Kind>, born: seq<u32>, later: seq<u32>, known: nat,
      known': nat, e: C.Outgoing)
    requires EntryOk(env, kinds, born, known, e) && known <= known' <= |born + later|
    ensures EntryOk(env, kinds + more, born + later, known', e)
  {
    hide CallOk, FindProtocol;
    if e.msg.Generic? {
      CallOkGrow(env, kinds, more, e.origin, e.msg.method_, e.msg.args, e.dtor);
    }
  }

  /** Entries stay right as more numbers, births and announcements come. */
  lemma {:induction false} AllEntriesGrow(env: Env, kinds: seq<Kind>, more: seq<Kind>, born: seq<u32>, later: seq<u32>,
                                          known: nat, known': nat, sent: seq<C.Outgoing>)
    requires AllEntries(env, kinds, born, known, sent) && known <= known' <= |born + later|
    ensures AllEntries(env, kinds + more, born + later, known', sent)
  {
    if sent == [] {
    } else {
      hide EntryOk;
      EntryOkGrow(env, kinds, more, born, later, known, known', sent[|sent| - 1]);
      AllEntriesGrow(env, kinds, more, born, later, known, known', sent[..|sent| - 1]);
    }
  }

  /** The client has been told of every object whose destructor it sent. */
  lemma {:induction false} DeadKnown(env: Env, kinds: seq<Kind>, born: seq<u32>, known: nat, sent: seq<C.Outgoing>,
      id: u32)
    requires AllEntries(env, kinds, born, known, sent) && id in Dead(sent)
    ensures 1 <= id <= known
  {
    if sent != [] && id in Dead(sent[..|sent| - 1]) {
      DeadKnown(env, kinds, born, known, sent[..|sent| - 1], id);
    }
  }

  // Messages kept back.

  lemma {:induction false} HasAppend(a: seq<C.Outgoing>, b: seq<C.Outgoing>, q: u32)
    ensures HasPending(a + b, q) <==> HasPending(a, q) || HasPending(b, q)
    ensures DtorPending(a + b, q) <==> DtorPending(a, q) || DtorPending(b, q)
  {
    if b == [] {
      assert a + b == a;
    } else {
      var n := |b| - 1;
      assert (a + b)[..|a + b| - 1] == a + b[..n] && (a + b)[|a + b| - 1] == b[n];
      HasAppend(a, b[..n], q);
    }
  }

  lemma HasOne(e: C.Outgoing, q: u32)
    ensures HasPending([e], q) <==> e.origin == q
    ensures DtorPending([e], q) <==> e.origin == q && e.dtor
  {
    assert [e][..0] == [];
  }

  lemma AllKeptAppend(env: Env, kinds: seq<Kind>, ps: seq<C.Outgoing>, e: C.Outgoing)
    requires AllKept(env, kinds, ps) && KeptOk(env, kinds, e) && !DtorPending(ps, e.origin)
    ensures AllKept(env, kinds, ps + [e])
  {
    assert (ps + [e])[..|ps|] == ps;
  }

  lemma {:induction false} AllKeptGrow(env: Env, kinds: seq<Kind>, more: seq<Kind>, ps: seq<C.Outgoing>)
    requires AllKept(env, kinds, ps)
    ensures AllKept(env, kinds + more, ps)
  {
    if ps == [] {
    } else {
      hide CallOk;
      var e := ps[|ps| - 1];
      CallOkGrow(env, kinds, more, e.origin, e.msg.method_, e.msg.args, e.dtor);
      AllKeptGrow(env, kinds, more, ps[..|ps| - 1]);
    }
  }

  lemma LastKept(env: Env, kinds: seq<Kind>, ps: seq<C.Outgoing>, e: C.Outgoing)
    ensures AllKept(env, kinds, ps + [e]) <==>
      KeptOk(env, kinds, e) && !DtorPending(ps, e.origin) && AllKept(env, kinds, ps)
  {
    hide KeptOk, DtorPending;
    assert (ps + [e])[..|ps|] == ps;
  }

  /** Taking one message out of the queue leaves the rest in order. */
  lemma {:induction false} AllKeptRemove(env: Env, kinds: seq<Kind>, a: seq<C.Outgoing>, e: C.Outgoing,
      b: seq<C.Outgoing>)
    requires AllKept(env, kinds, a + [e] + b)
    ensures AllKept(env, kinds, a + b) && KeptOk(env, kinds, e)
    decreases |b|
  {
    hide KeptOk, DtorPending, AllKept;
    if b == [] {
      assert a + [e] + b == a + [e] && a + b == a;
      LastKept(env, kinds, a, e);
    } else {
      var n := |b| - 1;
      assert a + [e] + b == a + [e] + b[..n] + [b[n]] && a + b == a + b[..n] + [b[n]];
      LastKept(env, kinds, a + [e] + b[..n], b[n]);
      AllKeptRemove(env, kinds, a, e, b[..n]);
      DtorBehind(a, e, b[..n], b[n].origin);
      LastKept(env, kinds, a + b[..n], b[n]);
    }
  }

  /** Nothing waits behind a destructor of the same object. */
  lemma {:induction false} DtorIsLast(env: Env, kinds: seq<Kind>, a: seq<C.Outgoing>, e: C.Outgoing, b: seq<C.Outgoing>)
    requires AllKept(env, kinds, a + [e] + b) && e.dtor
    ensures !HasPending(b, e.origin)
    decreases |b|
  {
    if b == [] {
    } else {
      hide KeptOk, DtorPending, AllKept;
      var n := |b| - 1;
      assert b == b[..n] + [b[n]];
      Assoc(a + [e], b[..n], [b[n]]);
      LastKept(env, kinds, a + [e] + b[..n], b[n]);
      DtorIsLast(env, kinds, a, e, b[..n]);
      DtorBehind(a, e, b[..n], b[n].origin);
    }
  }

  lemma DtorBehind(a: seq<C.Outgoing>, e: C.Outgoing, b: seq<C.Outgoing>, q: u32)
    requires !DtorPending(a + [e] + b, q)
    ensures !DtorPending(a + b, q) && (e.dtor ==> e.origin != q)
  {
    hide HasPending, DtorPending;
    HasAppend(a + [e], b, q);
    HasAppend(a, [e], q);
    HasAppend(a, b, q);
    HasOne(e, q);
  }

  // Objects.

  lemma AllObjectsAppend(kinds: seq<Kind>, born: seq<u32>, known: nat, ps: seq<C.Outgoing>, dead: set<u32>,
                         objects: seq<C.ClientObject>, o: C.ClientObject)
    requires AllObjects(kinds, born, known, ps, dead, objects) && ObjectOk(kinds, born, known, ps, dead, o)
    ensures AllObjects(kinds, born, known, ps, dead, objects + [o])
  {
    assert (objects + [o])[..|objects|] == objects;
  }

  lemma {:induction false} ObjectAt(kinds: seq<Kind>, born: seq<u32>, known: nat, ps: seq<C.Outgoing>, dead: set<u32>,
                                    objects: seq<C.ClientObject>, i: nat)
    requires AllObjects(kinds, born, known, ps, dead, objects) && i < |objects|
    ensures ObjectOk(kinds, born, known, ps, dead, objects[i])
  {
    if i < |objects| - 1 {
      ObjectAt(kinds, born, known, ps, dead, objects[..|objects| - 1], i);
    }
  }

  lemma {:induction false} AllObjectsUpdate(kinds: seq<Kind>, born: seq<u32>, known: nat, ps: seq<C.Outgoing>,
      dead: set<u32>,
                                            objects: seq<C.ClientObject>, i: nat, o: C.ClientObject)
    requires AllObjects(kinds, born, known, ps, dead, objects) && i < |objects| &&
      ObjectOk(kinds, born, known, ps, dead, o)
    ensures AllObjects(kinds, born, known, ps, dead, objects[i := o])
  {
    var n := |objects| - 1;
    if i < n {
      assert objects[i := o][..n] == objects[..n][i := o];
      AllObjectsUpdate(kinds, born, known, ps, dead, objects[..n], i, o);
    } else {
      assert objects[i := o][..n] == objects[..n];
    }
  }

  lemma {:induction false} AllObjectsGrow(kinds: seq<Kind>, more: seq<Kind>, born: seq<u32>, later: seq<u32>,
      known: nat, known': nat,
                                          ps: seq<C.Outgoing>, dead: set<u32>, objects: seq<C.ClientObject>)
    requires AllObjects(kinds, born, known, ps, dead, objects) && known <= known' <= |born + later|
    ensures AllObjects(kinds + more, born + later, known', ps, dead, objects)
  {
    if objects == [] {
    } else {
      AllObjectsGrow(kinds, more, born, later, known, known', ps, dead, objects[..|objects| - 1]);
    }
  }

  lemma {:induction false} AllObjectsTail(kinds: seq<Kind>, born: seq<u32>, known: nat, ps: seq<C.Outgoing>,
      dead: set<u32>,
                                          objects: seq<C.ClientObject>)
    requires AllObjects(kinds, born, known, ps, dead, objects) && objects != []
    ensures AllObjects(kinds, born, known, ps, dead, objects[1..]) && ObjectOk(kinds, born, known, ps, dead, objects[0])
  {
    var n := |objects| - 1;
    if n > 0 {
      AllObjectsTail(kinds, born, known, ps, dead, objects[..n]);
      assert objects[1..][..n - 1] == objects[..n][1..];
    }
  }

  lemma {:induction false} AllObjectsCons(kinds: seq<Kind>, born: seq<u32>, known: nat, ps: seq<C.Outgoing>,
      dead: set<u32>,
                                          o: C.ClientObject, objects: seq<C.ClientObject>)
    requires AllObjects(kinds, born, known, ps, dead, objects) && ObjectOk(kinds, born, known, ps, dead, o)
    ensures AllObjects(kinds, born, known, ps, dead, [o] + objects)
  {
    var all, n := [o] + objects, |objects|;
    if n > 0 {
      assert all[..n] == [o] + objects[..n - 1];
      AllObjectsCons(kinds, born, known, ps, dead, o, objects[..n - 1]);
    } else {
      assert all[..0] == [];
    }
  }

  lemma {:induction false} AllObjectsWithout(kinds: seq<Kind>, born: seq<u32>, known: nat, ps: seq<C.Outgoing>,
      dead: set<u32>,
                                             objects: seq<C.ClientObject>, id: u32)
    requires AllObjects(kinds, born, known, ps, dead, objects)
    ensures AllObjects(kinds, born, known, ps, dead, C.WithoutId(objects, id))
    decreases |objects|
  {
    if objects == [] {
    } else {
      AllObjectsTail(kinds, born, known, ps, dead, objects);
      AllObjectsWithout(kinds, born, known, ps, dead, objects[1..], id);
      var rest := C.WithoutId(objects[1..], id);
      AllObjectsCons(kinds, born, known, ps, dead, objects[0], rest);
      assert [] + rest == rest;
    }
  }

  lemma {:induction false} AllObjectsSurvivors(kinds: seq<Kind>, born: seq<u32>, known: nat, ps: seq<C.Outgoing>,
      dead: set<u32>,
                                               objects: seq<C.ClientObject>)
    requires AllObjects(kinds, born, known, ps, dead, objects)
    ensures AllObjects(kinds, born, known, ps, dead, C.Survivors(objects))
    decreases |objects|
  {
    if objects == [] {
    } else {
      AllObjectsTail(kinds, born, known, ps, dead, objects);
      AllObjectsSurvivors(kinds, born, known, ps, dead, objects[1..]);
      var rest := C.Survivors(objects[1..]);
      AllObjectsCons(kinds, born, known, ps, dead, objects[0], rest);
      assert [] + rest == rest;
    }
  }

  /** Fewer messages waiting, none of a new object, is no harm. */
  predicate Fewer(ps: seq<C.Outgoing>, fewer: seq<C.Outgoing>, objects: seq<C.ClientObject>) {
    objects == [] ||
    (var q := objects[|objects| - 1].seq_;
     (HasPending(fewer, q) ==> HasPending(ps, q)) && (DtorPending(fewer, q) ==> DtorPending(ps, q)) &&
     Fewer(ps, fewer, objects[..|objects| - 1]))
  }

  lemma {:induction false} RemovedIsFewer(a: seq<C.Outgoing>, e: C.Outgoing, b: seq<C.Outgoing>,
      objects: seq<C.ClientObject>)
    ensures Fewer(a + [e] + b, a + b, objects)
  {
    if objects == [] {
    } else {
      var q := objects[|objects| - 1].seq_;
      HasAppend(a + [e], b, q);
      HasAppend(a, [e], q);
      HasAppend(a, b, q);
      RemovedIsFewer(a, e, b, objects[..|objects| - 1]);
    }
  }

  lemma {:induction false} AllObjectsFewer(kinds: seq<Kind>, born: seq<u32>, known: nat, ps: seq<C.Outgoing>,
      fewer: seq<C.Outgoing>,
                                           dead: set<u32>, objects: seq<C.ClientObject>)
    requires AllObjects(kinds, born, known, ps, dead, objects) && Fewer(ps, fewer, objects)
    ensures AllObjects(kinds, born, known, fewer, dead, objects)
  {
    if objects == [] {
    } else {
      AllObjectsFewer(kinds, born, known, ps, fewer, dead, objects[..|objects| - 1]);
    }
  }

  /** Whatever object has the number has no id yet, and is destroyed if the message is a destructor. */
  predicate Silent(objects: seq<C.ClientObject>, q: u32, dtor: bool) {
    objects == [] ||
    (var o := objects[|objects| - 1];
     (o.seq_ == q ==> o.id == 0 && (dtor ==> o.destroyed)) && Silent(objects[..|objects| - 1], q, dtor))
  }

  lemma {:induction false} AllObjectsDefer(kinds: seq<Kind>, born: seq<u32>, known: nat, ps: seq<C.Outgoing>,
      dead: set<u32>,
                                           objects: seq<C.ClientObject>, e: C.Outgoing)
    requires AllObjects(kinds, born, known, ps, dead, objects) && Silent(objects, e.origin, e.dtor)
    ensures AllObjects(kinds, born, known, ps + [e], dead, objects)
  {
    if objects == [] {
    } else {
      var q := objects[|objects| - 1].seq_;
      HasAppend(ps, [e], q);
      HasOne(e, q);
      AllObjectsDefer(kinds, born, known, ps, dead, objects[..|objects| - 1], e);
    }
  }

  /** Whatever object has the id is destroyed and has no message waiting. */
  predicate Spent(objects: seq<C.ClientObject>, ps: seq<C.Outgoing>, id: u32) {
    objects == [] ||
    (var o := objects[|objects| - 1];
     (o.id == id ==> o.destroyed && !HasPending(ps, o.seq_)) && Spent(objects[..|objects| - 1], ps, id))
  }

  lemma {:induction false} AllObjectsKill(kinds: seq<Kind>, born: seq<u32>, known: nat, ps: seq<C.Outgoing>,
      dead: set<u32>,
                                          objects: seq<C.ClientObject>, id: u32)
    requires AllObjects(kinds, born, known, ps, dead, objects) && Spent(objects, ps, id)
    ensures AllObjects(kinds, born, known, ps, dead + {id}, objects)
  {
    if objects == [] {
    } else {
      AllObjectsKill(kinds, born, known, ps, dead, objects[..|objects| - 1], id);
    }
  }

  // Sequence numbers are distinct.

  lemma {:induction false} SeqsRiseWeaken(objects: seq<C.ClientObject>, bound: int, more: int)
    requires SeqsRise(objects, bound) && bound <= more
    ensures SeqsRise(objects, more)
  {
  }

  lemma SeqsRiseAppend(objects: seq<C.ClientObject>, bound: int, o: C.ClientObject)
    requires SeqsRise(objects, bound) && o.seq_ == bound + 1
    ensures SeqsRise(objects + [o], bound + 1)
  {
    assert (objects + [o])[..|objects|] == objects;
  }

  lemma {:induction false} SeqBelow(objects: seq<C.ClientObject>, bound: int, i: nat)
    requires SeqsRise(objects, bound) && i < |objects|
    ensures objects[i].seq_ <= bound
  {
    if i < |objects| - 1 {
      SeqBelow(objects[..|objects| - 1], objects[|objects| - 1].seq_ - 1, i);
    }
  }

  lemma {:induction false} SeqsRiseUpdate(objects: seq<C.ClientObject>, bound: int, i: nat, o: C.ClientObject)
    requires SeqsRise(objects, bound) && i < |objects| && o.seq_ == objects[i].seq_
    ensures SeqsRise(objects[i := o], bound)
    decreases |objects|
  {
    var n := |objects| - 1;
    if i < n {
      assert objects[i := o][..n] == objects[..n][i := o];
      SeqsRiseUpdate(objects[..n], objects[n].seq_ - 1, i, o);
    } else {
      assert objects[i := o][..n] == objects[..n];
    }
  }

  /** No object of the list has the number. */
  predicate Free(objects: seq<C.ClientObject>, q: u32) {
    objects == [] || (objects[0].seq_ != q && Free(objects[1..], q))
  }

  lemma {:induction false} FreeAt(objects: seq<C.ClientObject>, q: u32, i: nat)
    requires Free(objects, q) && i < |objects|
    ensures objects[i].seq_ != q
  {
    if i > 0 {
      FreeAt(objects[1..], q, i - 1);
    }
  }

  lemma {:induction false} FreeSnoc(objects: seq<C.ClientObject>, o: C.ClientObject, q: u32)
    requires Free(objects, q) && o.seq_ != q
    ensures Free(objects + [o], q)
  {
    if objects != [] {
      assert (objects + [o])[1..] == objects[1..] + [o];
      FreeSnoc(objects[1..], o, q);
    } else {
      assert ([] + [o])[1..] == [];
    }
  }

  /** The first object's number does not come again, and the rest still rise. */
  lemma {:induction false} RiseTail(objects: seq<C.ClientObject>, bound: int)
    requires SeqsRise(objects, bound) && objects != []
    ensures Free(objects[1..], objects[0].seq_) && SeqsRise(objects[1..], bound)
  {
    var n := |objects| - 1;
    if n > 0 {
      RiseTail(objects[..n], objects[n].seq_ - 1);
      SeqBelow(objects[..n], objects[n].seq_ - 1, 0);
      assert objects[1..] == objects[..n][1..] + [objects[n]];
      FreeSnoc(objects[..n][1..], objects[n], objects[0].seq_);
      assert objects[1..][..n - 1] == objects[..n][1..];
    }
  }

  lemma {:induction false} SeqsRiseCons(o: C.ClientObject, objects: seq<C.ClientObject>, bound: int)
    requires SeqsRise(objects, bound) && o.seq_ <= bound && Above(objects, o.seq_)
    ensures SeqsRise([o] + objects, bound)
  {
    var n := |objects|;
    var all := [o] + objects;
    if n > 0 {
      assert all[..n] == [o] + objects[..n - 1];
      AboveInit(objects, o.seq_);
      SeqsRiseCons(o, objects[..n - 1], objects[n - 1].seq_ - 1);
    } else {
      assert all[..0] == [];
    }
  }

  predicate Above(objects: seq<C.ClientObject>, q: u32) {
    objects == [] || (q < objects[0].seq_ && Above(objects[1..], q))
  }

  lemma {:induction false} AboveInit(objects: seq<C.ClientObject>, q: u32)
    requires Above(objects, q) && objects != []
    ensures Above(objects[..|objects| - 1], q) && q < objects[|objects| - 1].seq_
  {
    if |objects| > 1 {
      AboveInit(objects[1..], q);
      assert objects[..|objects| - 1][1..] == objects[1..][..|objects| - 2];
    }
  }

  lemma {:induction false} RiseAbove(objects: seq<C.ClientObject>, bound: int)
    requires SeqsRise(objects, bound) && objects != []
    ensures Above(objects[1..], objects[0].seq_)
    decreases |objects|
  {
    var n := |objects| - 1;
    if n > 0 {
      RiseAbove(objects[..n], objects[n].seq_ - 1);
      SeqBelow(objects[..n], objects[n].seq_ - 1, 0);
      assert objects[1..] == objects[..n][1..] + [objects[n]];
      AboveSnoc(objects[..n][1..], objects[n], objects[0].seq_);
    }
  }

  lemma {:induction false} AboveSnoc(objects: seq<C.ClientObject>, o: C.ClientObject, q: u32)
    requires Above(objects, q) && q < o.seq_
    ensures Above(objects + [o], q)
  {
    if objects != [] {
      assert (objects + [o])[1..] == objects[1..] + [o];
      AboveSnoc(objects[1..], o, q);
    } else {
      assert ([] + [o])[1..] == [];
    }
  }

  lemma {:induction false} AboveWithout(objects: seq<C.ClientObject>, q: u32, id: u32)
    requires Above(objects, q)
    ensures Above(C.WithoutId(objects, id), q) && Above(C.Survivors(objects), q)
  {
    if objects == [] {
    } else {
      AboveWithout(objects[1..], q, id);
      var a, b := C.WithoutId(objects[1..], id), C.Survivors(objects[1..]);
      assert [] + a == a && ([objects[0]] + a)[1..] == a;
      assert [] + b == b && ([objects[0]] + b)[1..] == b;
    }
  }

  lemma {:induction false} SeqsRiseWithout(objects: seq<C.ClientObject>, bound: int, id: u32)
    requires SeqsRise(objects, bound)
    ensures SeqsRise(C.WithoutId(objects, id), bound) && SeqsRise(C.Survivors(objects), bound)
    decreases |objects|
  {
    if objects == [] {
    } else {
      SeqBelow(objects, bound, 0);
      RiseTail(objects, bound);
      RiseAbove(objects, bound);
      SeqsRiseWithout(objects[1..], bound, id);
      AboveWithout(objects[1..], objects[0].seq_, id);
      RiseOptional(objects[0], objects[0].id == id, C.WithoutId(objects[1..], id), bound);
      RiseOptional(objects[0], C.Orphaned(objects[0]), C.Survivors(objects[1..]), bound);
    }
  }

  lemma RiseOptional(o: C.ClientObject, drop: bool, objects: seq<C.ClientObject>, bound: int)
    requires SeqsRise(objects, bound) && o.seq_ <= bound && Above(objects, o.seq_)
    ensures SeqsRise((if drop then [] else [o]) + objects, bound)
  {
    hide SeqsRise, Above;
    assert [] + objects == objects;
    SeqsRiseCons(o, objects, bound);
  }

  lemma {:induction false} SilentAbove(objects: seq<C.ClientObject>, bound: int, q: u32, dtor: bool)
    requires SeqsRise(objects, bound) && bound < q
    ensures Silent(objects, q, dtor)
  {
    if objects == [] {
    } else {
      SilentAbove(objects[..|objects| - 1], objects[|objects| - 1].seq_ - 1, q, dtor);
    }
  }

  lemma {:induction false} SilentAt(objects: seq<C.ClientObject>, bound: int, i: nat, dtor: bool)
    requires SeqsRise(objects, bound) && i < |objects| && objects[i].id == 0 && (dtor ==> objects[i].destroyed)
    ensures Silent(objects, objects[i].seq_, dtor)
    decreases |objects|
  {
    var n := |objects| - 1;
    if i < n {
      SeqBelow(objects[..n], objects[n].seq_ - 1, i);
      SilentAt(objects[..n], objects[n].seq_ - 1, i, dtor);
    } else {
      SilentAbove(objects[..n], objects[n].seq_ - 1, objects[n].seq_, dtor);
    }
  }

  /** An id belongs to the one object whose number it was given for. */
  lemma {:induction false} SpentFree(kinds: seq<Kind>, born: seq<u32>, known: nat, ps: seq<C.Outgoing>, dead: set<u32>,
                                     objects: seq<C.ClientObject>, all: seq<C.Outgoing>, id: u32)
    requires AllObjects(kinds, born, known, all, dead, objects) && 1 <= id <= |born| && Free(objects, born[id - 1])
    ensures Spent(objects, ps, id)
  {
    if objects == [] {
    } else {
      var n := |objects| - 1;
      FreeAt(objects, born[id - 1], n);
      FreeInit(objects, born[id - 1]);
      SpentFree(kinds, born, known, ps, dead, objects[..n], all, id);
    }
  }

  lemma {:induction false} FreeInit(objects: seq<C.ClientObject>, q: u32)
    requires Free(objects, q) && objects != []
    ensures Free(objects[..|objects| - 1], q)
  {
    if |objects| > 1 {
      FreeInit(objects[1..], q);
      assert objects[..|objects| - 1][1..] == objects[1..][..|objects| - 2];
    }
  }

  lemma {:induction false} FreeAbove(objects: seq<C.ClientObject>, bound: int, q: u32)
    requires SeqsRise(objects, bound) && bound < q
    ensures Free(objects, q)
    decreases |objects|
  {
    if objects == [] {
    } else {
      RiseTail(objects, bound);
      SeqBelow(objects, bound, 0);
      FreeAbove(objects[1..], bound, q);
    }
  }

  lemma {:induction false} SpentAt(kinds: seq<Kind>, born: seq<u32>, known: nat, ps: seq<C.Outgoing>, dead: set<u32>,
                                   objects: seq<C.ClientObject>, bound: int, all: seq<C.Outgoing>, i: nat)
    requires AllObjects(kinds, born, known, all, dead, objects) && SeqsRise(objects, bound) && i < |objects|
    requires objects[i].id != 0 && objects[i].destroyed && !HasPending(ps, objects[i].seq_)
    ensures Spent(objects, ps, objects[i].id)
    decreases |objects|
  {
    var n := |objects| - 1;
    ObjectAt(kinds, born, known, all, dead, objects, i);
    if i < n {
      SeqBelow(objects[..n], objects[n].seq_ - 1, i);
      SpentAt(kinds, born, known, ps, dead, objects[..n], objects[n].seq_ - 1, all, i);
    } else {
      FreeAbove(objects[..n], objects[n].seq_ - 1, objects[n].seq_);
      SpentFree(kinds, born, known, ps, dead, objects[..n], all, objects[n].id);
    }
  }
}
