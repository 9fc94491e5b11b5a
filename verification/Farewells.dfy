/** What a client says for the objects it lets go of, by positions in their method lists. */
module Farewells {
  import opened Arguments
  import opened Specs
  import opened SpecNames
  import opened Messages
  import opened CallRoundTrip
  import opened Session
  import opened Invariant
  import opened SessionTheorems
  import C = Client
  import S = Server
  import CT = ClientTables
  import SS = ServerSteps
  import Logs

  /** Method j is the first destructor that the version has. */
  ghost predicate FirstDestructor(methods: seq<Method>, version: nat, j: nat) {
    && j < |methods| && methods[j].isDestructor && methods[j].since <= version
    && forall i :: 0 <= i < j ==> !methods[i].isDestructor || methods[i].since > version
  }

  /** The object is let go of, was not destroyed, and method j is what it calls last: it neither
      takes arguments nor returns an object. */
  ghost predicate Leaves(o: C.ClientObject, j: nat) {
    && o.id != 0 && !o.held && !o.destroyed && FirstDestructor(o.spec.c2s, o.version, j)
    && o.spec.c2s[j].params == [] && o.spec.c2s[j].returnsType == []
  }

  /** Methods are numbered by position. */
  predicate Numbered(methods: seq<Method>) {
    forall i :: 0 <= i < |methods| ==> methods[i].idx == i
  }

  predicate AllNumbered(objects: seq<C.ClientObject>) {
    objects == [] || (Numbered(objects[0].spec.c2s) && AllNumbered(objects[1..]))
  }

  /** In table order, one destructor call for each object that leaves with one. */
  ghost predicate Goodbyes(objects: seq<C.ClientObject>, out: seq<C.Outgoing>)
    decreases |objects|
  {
    if objects == [] then out == []
    else if exists j: nat :: Leaves(objects[0], j) then
      out != [] && Goodbyes(objects[1..], out[1..]) && out[0].origin == objects[0].seq_ && out[0].dtor
      && out[0].msg.Generic? && out[0].msg.objectId == objects[0].id && out[0].msg.args == []
      && Leaves(objects[0], out[0].msg.method_)
    else Goodbyes(objects[1..], out)
  }

  lemma {:induction false} AutoIs(methods: seq<Method>, version: nat, n: nat)
    requires forall i :: 0 <= i < |methods| ==> methods[i].idx == n + i
    ensures var a := C.AutoDestructor(methods, version);
      if a.Auto? then
        var j := a.idx - n;
        j >= 0 && FirstDestructor(methods, version, j) && methods[j].params == [] && methods[j].returnsType == []
      else forall j: nat :: FirstDestructor(methods, version, j) ==>
             methods[j].params != [] || methods[j].returnsType != []
    decreases |methods|
  {
    if methods == [] {
    } else if !methods[0].isDestructor || methods[0].since > version {
      var rest := methods[1..];
      AutoIs(rest, version, n + 1);
      forall j: nat ensures FirstDestructor(methods, version, j) <==> j > 0 && FirstDestructor(rest, version, j - 1) {
        Behind(methods, version, j);
      }
    } else {
      assert FirstDestructor(methods, version, 0);
      forall j: nat | FirstDestructor(methods, version, j) ensures j == 0 {
      }
    }
  }

  lemma Behind(methods: seq<Method>, version: nat, j: nat)
    requires methods != [] && (!methods[0].isDestructor || methods[0].since > version)
    ensures FirstDestructor(methods, version, j) <==> j > 0 && FirstDestructor(methods[1..], version, j - 1)
  {
    if j > 0 && FirstDestructor(methods[1..], version, j - 1) {
      forall i | 0 <= i < j ensures !methods[i].isDestructor || methods[i].since > version {
        if i > 0 {
          assert methods[i] == methods[1..][i - 1];
        }
      }
    }
    if j > 0 && FirstDestructor(methods, version, j) {
      forall i | 0 <= i < j - 1 ensures !methods[1..][i].isDestructor || methods[1..][i].since > version {
        assert methods[1..][i] == methods[i + 1];
      }
    }
  }

  /** One object's farewell. */
  lemma FarewellIs(impls: seq<ProtocolSpec>, c: C.ClientState, o: C.ClientObject) returns (out: seq<C.Outgoing>)
    requires c.connected && Numbered(o.spec.c2s) && C.Orphaned(o)
    ensures C.Farewell(impls, c, o) == c.(sent := c.sent + out)
    ensures if exists j: nat :: Leaves(o, j) then
        |out| == 1 && out[0].origin == o.seq_ && out[0].dtor && out[0].msg.Generic? && out[0].msg.objectId == o.id
        && out[0].msg.args == [] && Leaves(o, out[0].msg.method_)
      else out == []
  {
    hide C.AutoDestructor, C.MakeObject, FirstDestructor;
    out := [];
    assert c.sent + [] == c.sent;
    AutoIs(o.spec.c2s, o.version, 0);
    var a := C.AutoDestructor(o.spec.c2s, o.version);
    if !o.destroyed && a.Auto? {
      assert Leaves(o, a.idx);
      AtVersion(o.spec.c2s, o.version, a.idx);
      out := [C.Outgoing(Generic(o.id, a.idx, []), o.seq_, true)];
      assert [] + CallArgs(o.spec.c2s[a.idx], c.seq_, []) == [];
    }
  }

  lemma AtVersion(methods: seq<Method>, version: nat, j: nat)
    requires FirstDestructor(methods, version, j)
    ensures j < |methods| && methods[j].isDestructor && methods[j].since <= version
  {
  }

  lemma {:induction false} FarewellsAre(impls: seq<ProtocolSpec>, c: C.ClientState, objects: seq<C.ClientObject>)
      returns (out: seq<C.Outgoing>)
    requires c.connected && AllNumbered(objects)
    ensures C.Farewells(impls, c, objects) == c.(sent := c.sent + out) && Goodbyes(objects, out)
    decreases |objects|
  {
    hide C.Farewell, Leaves, Numbered;
    out := [];
    assert c.sent + [] == c.sent;
    if objects == [] {
    } else if !C.Orphaned(objects[0]) {
      NoneLeaves(objects[0]);
      out := FarewellsAre(impls, c, objects[1..]);
    } else {
      var own := FarewellIs(impls, c, objects[0]);
      var d := c.(sent := c.sent + own);
      var rest := FarewellsAre(impls, d, objects[1..]);
      out := own + rest;
      assert c.sent + own + rest == c.sent + (own + rest);
      if own == [] {
        assert out == rest;
      } else {
        assert out[1..] == rest;
      }
    }
  }

  lemma NoneLeaves(o: C.ClientObject)
    requires !C.Orphaned(o)
    ensures forall j: nat :: !Leaves(o, j)
  {
  }

  lemma {:induction false} SilentFarewells(impls: seq<ProtocolSpec>, c: C.ClientState, objects: seq<C.ClientObject>)
    requires !c.connected
    ensures C.Farewells(impls, c, objects) == c
    decreases |objects|
  {
    if objects == [] {
    } else {
      SilentFarewells(impls, c, objects[1..]);
    }
  }

  /** What collectOrphanedObjects does. Exactly the objects with an id that nobody holds leave the
      table; and of these exactly those that were not destroyed and whose first destructor at
      their version neither takes arguments nor returns an object call it, in table order, if
      the connection is open. Nothing else changes. */
  lemma CollectSays(impls: seq<ProtocolSpec>, c: C.ClientState) returns (out: seq<C.Outgoing>)
    requires AllNumbered(c.objects)
    ensures var t := C.Collect(impls, c);
      && t == c.(objects := t.objects, sent := t.sent)
      && (forall o :: o in t.objects <==> o in c.objects && (o.id == 0 || o.held))
      && if c.connected then t.sent == c.sent + out && Goodbyes(c.objects, out) else t.sent == c.sent
  {
    hide C.Farewells, AllNumbered;
    out := [];
    SurvivorsExactly(c.objects);
    var d := c.(objects := C.Survivors(c.objects));
    if c.connected {
      out := FarewellsAre(impls, d, c.objects);
    } else {
      SilentFarewells(impls, d, c.objects);
    }
  }

  lemma {:induction false} SurvivorsExactly(objects: seq<C.ClientObject>)
    ensures forall o :: o in C.Survivors(objects) <==> o in objects && (o.id == 0 || o.held)
  {
    if objects == [] {
    } else {
      SurvivorsExactly(objects[1..]);
      assert objects == [objects[0]] + objects[1..];
    }
  }

  lemma SurvivorsFirst(objects: seq<C.ClientObject>) returns (own: seq<C.ClientObject>)
    requires objects != []
    ensures own == (if C.Orphaned(objects[0]) then [] else [objects[0]])
    ensures C.Survivors(objects) == own + C.Survivors(objects[1..])
  {
    own := if C.Orphaned(objects[0]) then [] else [objects[0]];
  }

  /** The survivors keep their order. */
  lemma {:induction false} SurvivorsOrder(a: seq<C.ClientObject>, b: seq<C.ClientObject>)
    ensures C.Survivors(a + b) == C.Survivors(a) + C.Survivors(b)
  {
    if a == [] {
      assert a + b == b;
    } else {
      hide C.Orphaned, C.Survivors;
      SurvivorsOrder(a[1..], b);
      assert (a + b)[1..] == a[1..] + b;
      var own := SurvivorsFirst(a);
      var same := SurvivorsFirst(a + b);
      Assoc(own, C.Survivors(a[1..]), C.Survivors(b));
    }
  }

  /** An object somebody takes a reference to stays in the table; one with an id that is given up
      leaves it. */
  lemma HeldStays(impls: seq<ProtocolSpec>, c: C.ClientState, i: nat, held: bool)
    requires i < |c.objects| && AllNumbered(C.Hold(c, i, held).objects)
    ensures var o := c.objects[i].(held := held);
      o in C.Collect(impls, C.Hold(c, i, held)).objects <==> o.id == 0 || held
  {
    hide C.Collect, AllNumbered;
    var out := CollectSays(impls, C.Hold(c, i, held));
    assert C.Hold(c, i, held).objects[i] == c.objects[i].(held := held);
  }

  // Over runs.

  /** The goodbye of the i-th object is among those that are sent. */
  lemma {:induction false} GoodbyeAt(objects: seq<C.ClientObject>, out: seq<C.Outgoing>, i: nat, j: nat)
      returns (p: nat)
    requires Goodbyes(objects, out) && i < |objects| && Leaves(objects[i], j)
    ensures p < |out| && out[p].msg.Generic? && out[p].msg.objectId == objects[i].id && out[p].dtor
    ensures out[p].msg.method_ == j && out[p].msg.args == []
    decreases |objects|
  {
    hide Leaves;
    if i == 0 {
      p := 0;
      OneLeaves(objects[0], j, out[0].msg.method_);
    } else if exists k: nat :: Leaves(objects[0], k) {
      p := GoodbyeAt(objects[1..], out[1..], i - 1, j);
      p := p + 1;
    } else {
      p := GoodbyeAt(objects[1..], out, i - 1, j);
    }
  }

  lemma OneLeaves(o: C.ClientObject, j: nat, k: nat)
    requires Leaves(o, j) && Leaves(o, k)
    ensures j == k
  {
  }

  lemma {:induction false} NumberedObjects(env: Env, y: System, n: nat)
    requires Reachable(env, y) && n <= |y.c.objects|
    ensures AllNumbered(y.c.objects[n..])
    decreases |y.c.objects| - n
  {
    if n == |y.c.objects| {
    } else {
      hide Reachable, Numbered;
      NumberedObjects(env, y, n + 1);
      assert y.c.objects[n..][1..] == y.c.objects[n + 1..];
      NumberedObject(env, y, n);
    }
  }

  lemma NumberedObject(env: Env, y: System, i: nat)
    requires Reachable(env, y) && i < |y.c.objects|
    ensures Numbered(y.c.objects[i].spec.c2s)
  {
    hide Reachable, Inv, Agreed, AllKinds, FindProtocol, FindObject, S.ExposedNames;
    ReachableInv(env, y);
    KindOfObject(env, y, i);
    var kind := y.h.kinds[y.c.objects[i].seq_ - 1];
    SS.KindAt(env, y.h.kinds, y.c.objects[i].seq_ - 1);
    NumberedKind(env, kind);
  }

  lemma KindOfObject(env: Env, y: System, i: nat)
    requires Inv(env, y) && i < |y.c.objects|
    ensures AllKinds(env, y.h.kinds) && 1 <= y.c.objects[i].seq_ <= |y.h.kinds|
    ensures y.c.objects[i].spec == y.h.kinds[y.c.objects[i].seq_ - 1].spec
  {
    hide ClientHandshake, ServerHandshake, Roundtrips, StageOk, AllWaiting, Births, Dead, AllObjects, AllKept,
      AllEntries, ClientLogOk, SeqsRise, AllTwins, Present, AllKinds, AllOwed, AllBorn, ServerLogOk, AllEvents,
      HasPending, DtorPending;
    CT.ObjectAt(y.h.kinds, y.h.born, Known(y), y.c.pending, Dead(y.c.sent), y.c.objects, i);
  }

  lemma NumberedKind(env: Env, k: Kind)
    requires Agreed(env) && KindOk(env, k)
    ensures Numbered(k.spec.c2s)
  {
    hide FindProtocol, FindObject, S.ExposedNames;
    var p := FindProtocol(env.server.impls, k.protocol).spec;
    assert p in env.server.impls && WellFormedProtocol(p) && WellFormedObject(p, k.spec);
  }

  /** The client collects its orphans, in whatever reachable state. An object that leaves with a
      destructor has its call in the log then; and however the run goes on, once the server has
      taken that call its half of the object is gone. */
  lemma OrphanIsGone(env: Env, y: System, i: nat, j: nat, steps: seq<Step>) returns (p: nat)
    requires Reachable(env, y) && !y.inBatch && y.c.connected && i < |y.c.objects| && Leaves(y.c.objects[i], j)
    requires Honest(env, Next(env, y, ClientCollect), steps)
    ensures var z := Next(env, y, ClientCollect); var id := y.c.objects[i].id;
      && |y.c.sent| <= p < |z.c.sent| && z.c.sent[p].msg.Generic? && z.c.sent[p].msg.objectId == id
      && z.c.sent[p].msg.method_ == j && z.c.sent[p].msg.args == []
      && (p < Run(env, z, steps).sRead ==> S.Find(Run(env, z, steps).s.objects, id) < 0)
  {
    hide Reachable, Inv, Honest, Run, C.Collect, Leaves, Goodbyes, AllNumbered, S.Find;
    NumberedObjects(env, y, 0);
    assert y.c.objects[0..] == y.c.objects;
    var out := CollectSays(env.clientImpls, y.c);
    var r := GoodbyeAt(y.c.objects, out, i, j);
    p := |y.c.sent| + r;
    ReachableStep(env, y, ClientCollect);
    var z := Next(env, y, ClientCollect);
    assert z.c.sent[p] == out[r];
    Logs.ReachableRun(env, z, steps);
    Logs.RunGrows(env, z, steps);
    if p < Run(env, z, steps).sRead {
      TakenIsGone(env, Run(env, z, steps), p);
    }
  }

  lemma TakenIsGone(env: Env, y: System, p: nat)
    requires Reachable(env, y) && p < |y.c.sent| && y.c.sent[p].msg.Generic? && y.c.sent[p].dtor && p < y.sRead
    ensures S.Find(y.s.objects, y.c.sent[p].msg.objectId) < 0
  {
    hide Reachable, Inv;
    ReachableInv(env, y);
    ReadWithin(env, y);
    DestructorIsGone(env, y, p);
  }

  lemma ReadWithin(env: Env, y: System)
    requires Inv(env, y)
    ensures y.sRead <= |y.c.sent|
  {
    hide ClientInv, ServerInv, ClientHandshake, ServerHandshake, Roundtrips, StageOk, AllWaiting, Births, Dead;
  }
}
