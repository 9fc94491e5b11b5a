/** CClientSocket, CClientObject and the client's half of CMessageParser: the loops and
    updates in place, proved against the specification of the client's state. */
module ClientSockets {
  import opened Bytes
  import opened Arguments
  import opened Specs
  import opened SpecNames
  import opened GenericMessage
  import opened Messages
  import opened MessageCodecs
  import opened CallRoundTrip
  import opened Framing
  import opened Dispatch
  import opened Waits
  import opened ServerClients
  import W = WireObject
  import C = Client
  import CS = ClientSteps
  import S = Server

  /** Methods are numbered by position and can be walked by `called`. */
  predicate Usable(os: ObjectSpec) {
    Servable(os) && forall i :: 0 <= i < |os.c2s| ==> os.c2s[i].idx == i
  }

  predicate AllUsable(impls: seq<ProtocolSpec>) {
    forall p :: p in impls ==> forall os :: os in p.objects ==> Usable(os)
  }

  predicate TableUsable(objects: seq<C.ClientObject>) {
    objects == [] || (Usable(objects[|objects| - 1].spec) && TableUsable(objects[..|objects| - 1]))
  }

  lemma {:induction false} UsableAt(objects: seq<C.ClientObject>, i: nat)
    requires TableUsable(objects) && i < |objects|
    ensures Usable(objects[i].spec)
  {
    if i < |objects| - 1 {
      UsableAt(objects[..|objects| - 1], i);
    }
  }

  lemma UsableAppend(objects: seq<C.ClientObject>, o: C.ClientObject)
    requires TableUsable(objects) && Usable(o.spec)
    ensures TableUsable(objects + [o])
  {
    assert (objects + [o])[..|objects|] == objects;
  }

  lemma {:induction false} UsableUpdate(objects: seq<C.ClientObject>, i: nat, o: C.ClientObject)
    requires TableUsable(objects) && i < |objects| && o.spec == objects[i].spec
    ensures TableUsable(objects[i := o])
  {
    var n := |objects| - 1;
    if i < n {
      assert objects[i := o][..n] == objects[..n][i := o];
      UsableUpdate(objects[..n], i, o);
    } else {
      assert objects[i := o][..n] == objects[..n];
    }
  }

  /** A message kept back: its bytes, its descriptors, and the number of the object it
      waits for. */
  datatype Kept = Kept(data: seq<byte>, fds: seq<int>, dependsOn: u32)

  /** The bytes are those of the call, marshalled with object id 0. */
  ghost predicate KeptIs(k: Kept, e: C.Outgoing) {
    && e.msg.Generic? && e.msg.objectId == 0 && k.dependsOn == e.origin
    && k.data == EncodeMessage(e.msg) && k.fds == MessageFds(e.msg)
  }

  ghost predicate AllKeptAre(ks: seq<Kept>, es: seq<C.Outgoing>) {
    |ks| == |es| && (ks == [] || (KeptIs(ks[0], es[0]) && AllKeptAre(ks[1..], es[1..])))
  }

  lemma {:induction false} KeptAppend(ks: seq<Kept>, es: seq<C.Outgoing>, k: Kept, e: C.Outgoing)
    requires AllKeptAre(ks, es) && KeptIs(k, e)
    ensures AllKeptAre(ks + [k], es + [e])
  {
    if ks != [] {
      assert (ks + [k])[1..] == ks[1..] + [k] && (es + [e])[1..] == es[1..] + [e];
      KeptAppend(ks[1..], es[1..], k, e);
    } else {
      assert ks + [k] == [k] && es + [e] == [e];
    }
  }

  /** Late binding makes the kept bytes those of the call on the object's real id. */
  lemma KeptResolves(k: Kept, e: C.Outgoing, id: u32)
    requires KeptIs(k, e)
    ensures Resolved(k.data, id) == EncodeMessage(C.ResolvedTo(e, id).msg) &&
      k.fds == MessageFds(C.ResolvedTo(e, id).msg)
  {
    LateBinding(e.msg.method_, e.msg.args, id);
  }

  /** The strings split and their numbers parsed, up to the first that fails. */
  method SplitSpecs(ps: seq<Text>) returns (read: seq<ServerSpec>, ok: bool)
    ensures C.SpecsRead(read, ok) == C.ReadSpecs(ps)
  {
    hide ParseSpec;
    read, ok := [], true;
    var i := 0;
    assert ps[0..] == ps;
    while i < |ps|
      invariant i <= |ps|
      invariant C.ReadSpecs(ps) == Behind(read, C.ReadSpecs(ps[i..]))
    {
      BehindStep(read, ps, i);
      var spec := ParseSpec(ps[i]);
      if spec == BadSpec {
        return read, false;
      }
      read := read + [spec.s];
      i := i + 1;
    }
    assert read + [] == read;
  }

  function Behind(read: seq<ServerSpec>, rest: C.SpecsRead): C.SpecsRead {
    C.SpecsRead(read + rest.read, rest.ok)
  }

  lemma BehindStep(read: seq<ServerSpec>, ps: seq<Text>, i: nat)
    requires i < |ps|
    ensures Behind(read, C.ReadSpecs(ps[i..])) ==
      if ParseSpec(ps[i]) == BadSpec then C.SpecsRead(read, false)
      else Behind(read + [ParseSpec(ps[i]).s], C.ReadSpecs(ps[i + 1..]))
  {
    hide ParseSpec;
    assert ps[i..][1..] == ps[i + 1..];
    assert read + [] == read;
    if ParseSpec(ps[i]) != BadSpec {
      var s, rest := ParseSpec(ps[i]).s, C.ReadSpecs(ps[i + 1..]).read;
      assert read + ([s] + rest) == read + [s] + rest;
    }
  }

  // erase_if over the table.

  lemma OrphanStep(kept: seq<C.ClientObject>, objects: seq<C.ClientObject>, i: nat)
    requires i < |objects|
    ensures kept + C.Survivors(objects[i..])
      == (if C.Orphaned(objects[i]) then kept else kept + [objects[i]]) + C.Survivors(objects[i + 1..])
  {
    assert objects[i..][1..] == objects[i + 1..];
    var rest := C.Survivors(objects[i + 1..]);
    assert [] + rest == rest;
    Assoc(kept, [objects[i]], rest);
  }

  method DropOrphans(objects: seq<C.ClientObject>) returns (kept: seq<C.ClientObject>)
    requires TableUsable(objects)
    ensures kept == C.Survivors(objects) && TableUsable(kept)
  {
    kept := [];
    assert objects[0..] == objects;
    assert C.Survivors([]) == [];
    hide C.Survivors, Usable;
    assert [] + C.Survivors(objects) == C.Survivors(objects);
    for i := 0 to |objects|
      invariant TableUsable(kept) && kept + C.Survivors(objects[i..]) == C.Survivors(objects)
    {
      OrphanStep(kept, objects, i);
      if !C.Orphaned(objects[i]) {
        UsableAt(objects, i);
        UsableAppend(kept, objects[i]);
        kept := kept + [objects[i]];
      }
    }
    assert objects[|objects|..] == [] && kept + [] == kept;
  }

  lemma IdStep(kept: seq<C.ClientObject>, objects: seq<C.ClientObject>, i: nat, id: u32)
    requires i < |objects|
    ensures kept + C.WithoutId(objects[i..], id)
      == (if objects[i].id == id then kept else kept + [objects[i]]) + C.WithoutId(objects[i + 1..], id)
  {
    assert objects[i..][1..] == objects[i + 1..];
    var rest := C.WithoutId(objects[i + 1..], id);
    assert [] + rest == rest;
    Assoc(kept, [objects[i]], rest);
  }

  method DropObjects(objects: seq<C.ClientObject>, id: u32) returns (kept: seq<C.ClientObject>)
    requires TableUsable(objects)
    ensures kept == C.WithoutId(objects, id) && TableUsable(kept)
  {
    kept := [];
    assert objects[0..] == objects;
    assert C.WithoutId([], id) == [];
    hide C.WithoutId, Usable;
    assert [] + C.WithoutId(objects, id) == C.WithoutId(objects, id);
    for i := 0 to |objects|
      invariant TableUsable(kept) && kept + C.WithoutId(objects[i..], id) == C.WithoutId(objects, id)
    {
      IdStep(kept, objects, i, id);
      if objects[i].id != id {
        UsableAt(objects, i);
        UsableAppend(kept, objects[i]);
        kept := kept + [objects[i]];
      }
    }
    assert objects[|objects|..] == [] && kept + [] == kept;
  }

  class ClientSocket {
    const impls: seq<ProtocolSpec>
    var connected: bool
    var error: bool
    var handshakeDone: bool
    var serverSpecs: seq<ServerSpec>
    var seq_: u32
    var acked: u32
    var lastSent: u32
    var objects: seq<C.ClientObject>
    var pendingOutgoing: seq<Kept>
    var calls: seq<S.Call>
    // What the socket was given: bytes, and the descriptors beside them.
    var wire: seq<byte>
    var wireFds: seq<int>
    ghost var sent: seq<C.Outgoing>
    ghost var pending: seq<C.Outgoing>

    /** The bytes given to the socket and those kept back are those of the messages. */
    ghost predicate Valid()
      reads this
    {
      && AllUsable(impls) && TableUsable(objects)
      && wire == EncodeBatch(C.MessagesOf(sent)) && wireFds == BatchFds(C.MessagesOf(sent))
      && AllKeptAre(pendingOutgoing, pending)
    }

    ghost function State(): C.ClientState
      reads this
    {
      C.ClientState(connected, error, handshakeDone, serverSpecs, seq_, acked, lastSent, objects, pending, sent, calls)
    }

    /** The greeting goes out as soon as the socket is open. */
    constructor (impls: seq<ProtocolSpec>)
      requires AllUsable(impls)
      ensures Valid() && State() == C.Opened() && this.impls == impls
    {
      this.impls := impls;
      connected, error, handshakeDone, serverSpecs, seq_, acked, lastSent := true, false, false, [], 0, 0, 0;
      objects, pendingOutgoing, calls, wire, wireFds := [], [], [], [], [];
      sent, pending := [], [];
      new;
      SendMessage(EncodeMessage(Hello), [], C.Outgoing(Hello, 0, false));
    }

    method SendMessage(data: seq<byte>, fds: seq<int>, ghost e: C.Outgoing)
      requires Valid() && data == EncodeMessage(e.msg) && fds == MessageFds(e.msg)
      modifies this`wire, this`wireFds, this`sent
      ensures Valid() && State() == C.Send(old(State()), e)
    {
      hide EncodeMessage, MessageFds, EncodeBatch, BatchFds, AllUsable, TableUsable, AllKeptAre;
      if connected {
        SentBytes(sent, e);
        wire, wireFds, sent := wire + data, wireFds + fds, sent + [e];
      }
    }

    method DisconnectOnError()
      requires Valid()
      modifies this`connected, this`error
      ensures Valid() && State() == C.Disconnect(old(State()))
    {
      error, connected := true, false;
    }

    // Look-up.

    method ObjectForSeq(q: u32) returns (i: int)
      ensures i == C.FindSeq(objects, q)
    {
      i := 0;
      assert objects[0..] == objects;
      while i < |objects|
        invariant 0 <= i <= |objects|
        invariant C.FindSeq(objects, q) == if C.FindSeq(objects[i..], q) < 0 then -1 else C.FindSeq(objects[i..], q) + i
      {
        if objects[i].seq_ == q {
          return;
        }
        assert objects[i..][1..] == objects[i + 1..];
        i := i + 1;
      }
      i := -1;
    }

    method ObjectForId(id: u32) returns (i: int)
      ensures i == C.FindId(objects, id)
    {
      i := 0;
      assert objects[0..] == objects;
      while i < |objects|
        invariant 0 <= i <= |objects|
        invariant C.FindId(objects, id) == if C.FindId(objects[i..], id) < 0 then -1 else C.FindId(objects[i..], id) + i
      {
        if objects[i].id == id {
          return;
        }
        assert objects[i..][1..] == objects[i + 1..];
        i := i + 1;
      }
      i := -1;
    }

    method Update(i: nat, o: C.ClientObject)
      requires Valid() && i < |objects| && o.spec == objects[i].spec
      modifies this`objects
      ensures Valid() && State() == old(State()).(objects := old(objects)[i := o])
    {
      UsableUpdate(objects, i, o);
      objects := objects[i := o];
    }

    method OnSeq(q: u32, id: u32)
      requires Valid()
      modifies this`objects
      ensures Valid() && State() == C.OnSeq(old(State()), q, id)
    {
      hide Valid, C.FindSeq;
      var i := ObjectForSeq(q);
      if i >= 0 {
        Update(i, objects[i].(id := id));
      }
    }

    method AddObject(o: C.ClientObject)
      requires Valid() && Usable(o.spec)
      modifies this`objects
      ensures Valid() && State() == old(State()).(objects := old(objects) + [o])
    {
      hide Usable, AllUsable, AllKeptAre, EncodeBatch, BatchFds;
      UsableAppend(objects, o);
      objects := objects + [o];
    }

    lemma KnownType(i: nat, os: ObjectSpec)
      requires Valid() && i < |impls| && os in impls[i].objects
      ensures Usable(os)
    {
      hide Usable;
      assert impls[i] in impls;
    }

    method MakeObject(protocol: Text, name: Text, q: u32)
      requires Valid() && name != []
      modifies this`objects
      ensures Valid() && State() == C.MakeObject(impls, old(State()), protocol, name, q)
    {
      hide Valid, FindObject, FindProtocol, Usable;
      var i := SeekProtocol(impls, protocol);
      if i < |impls| {
        var spec := SeekObject(impls[i].objects, name);
        if spec.Spec? {
          KnownType(i, spec.os);
          AddObject(C.ClientObject(0, q, 0, spec.os, protocol, false, {}, false));
        }
      }
    }

    /** bindProtocol, up to the wait. */
    method SendBind(spec: ProtocolSpec, version: u32)
      requires Valid() && spec.objects != [] && Usable(spec.objects[0]) && version <= spec.version
      modifies this
      ensures Valid() && State() == C.Bind(old(State()), spec, version)
    {
      hide Valid, EncodeMessage, MessageFds, Usable;
      Count();
      AddObject(C.ClientObject(0, seq_, version, spec.objects[0], spec.name, false, {}, true));
      var bytes := EncodeBindProtocol(spec.name, seq_, version);
      NoFds(Message.BindProtocol(seq_, spec.name, version));
      SendMessage(bytes, [], C.Outgoing(Message.BindProtocol(seq_, spec.name, version), 0, false));
    }

    /** bindProtocol, with what poll reports in turn during its wait. It comes back with an
        object that has its id, unless there was an error (or the reports end before). */
    method BindProtocol(spec: ProtocolSpec, version: u32, reports: seq<Report>) returns (rest: seq<Report>)
      requires Valid() && spec.objects != [] && Usable(spec.objects[0])
      modifies this
      ensures Valid()
      ensures Waited(State(), rest)
        == WaitForObject(impls, C.Bind(old(State()), spec, version), S.Increment(old(seq_)), reports)
      ensures rest == [] || error || Identified(State(), S.Increment(old(seq_)))
      ensures WaitsForObject(impls, C.Bind(old(State()), spec, version), S.Increment(old(seq_)), reports, State(), rest)
    {
      hide Valid;
      ObjectWaited(impls, C.Bind(State(), spec, version), S.Increment(seq_), reports);
      if version > spec.version {
        DisconnectOnError();
        return reports;
      }
      var q := S.Increment(seq_);
      SendBind(spec, version);
      rest := AwaitObject(q, reports);
    }

    /** The loop of waitForObject. */
    method AwaitObject(q: u32, reports: seq<Report>) returns (rest: seq<Report>)
      requires Valid()
      modifies this
      ensures Valid() && Waited(State(), rest) == WaitForObject(impls, old(State()), q, reports)
      ensures rest == [] || error || Identified(State(), q)
    {
      hide Valid, Dispatch.DispatchEvents;
      rest := reports;
      var settled := HasId(q);
      while !settled && !error && rest != []
        invariant Valid() && settled == Identified(State(), q)
        invariant WaitForObject(impls, old(State()), q, reports) == WaitForObject(impls, State(), q, rest)
        decreases |rest|
      {
        var again := DispatchEvents(rest[0]);
        rest := rest[1..];
        settled := HasId(q);
      }
    }

    method HasId(q: u32) returns (r: bool)
      ensures r == Identified(State(), q)
    {
      var i := ObjectForSeq(q);
      r := i < 0 || objects[i].id != 0;
    }

    // Calls.

    /** The message of a call: kept back if the object has no id yet, else sent. */
    method Emit(o: C.ClientObject, data: seq<byte>, fds: seq<int>, ghost e: C.Outgoing)
      requires Valid() && e.msg.Generic? && e.msg.objectId == o.id && e.origin == o.seq_
      requires data == EncodeMessage(e.msg) && fds == MessageFds(e.msg)
      modifies this`pendingOutgoing, this`pending, this`wire, this`wireFds, this`sent
      ensures Valid() && State() ==
        if o.id == 0 then old(State()).(pending := old(pending) + [e]) else C.Send(old(State()), e)
    {
      hide EncodeMessage, MessageFds, EncodeBatch, BatchFds, AllUsable, AllKeptAre;
      if o.id == 0 {
        KeptAppend(pendingOutgoing, pending, Kept(data, fds, o.seq_), e);
        pendingOutgoing, pending := pendingOutgoing + [Kept(data, fds, o.seq_)], pending + [e];
      } else {
        SendMessage(data, fds, e);
      }
    }

    method CallOn(o: C.ClientObject, k: u32, args: seq<Value>)
      requires Valid() && C.Callable(o, k) && W.Fits(o.spec.c2s[k].params, 0, args)
      modifies this
      ensures Valid() && State() == C.CallOn(impls, old(State()), o, k, args)
    {
      hide Valid, EncodeMessage, MessageFds, W.Fits, W.Marshallable, C.MakeObject, C.Send;
      var m := o.spec.c2s[k];
      CountNumber(m);
      var ok, data, fds := MarshalCall(o.id, k, m, seq_, args);
      if !ok {
        SetError();
        return;
      }
      Emit(o, data, fds, C.Outgoing(Generic(o.id, k, CallArgs(m, seq_, args)), o.seq_, m.isDestructor));
      if m.Returns() {
        MakeObject(o.protocol, m.returnsType, seq_);
      }
    }

    method CountNumber(m: Method)
      requires Valid()
      modifies this`seq_
      ensures Valid() && State() == old(State()).(seq_ := C.SeqAfter(old(State()), m))
    {
      if m.Returns() {
        Count();
      }
    }

    method Count()
      requires Valid()
      modifies this`seq_
      ensures Valid() && State() == old(State()).(seq_ := S.Increment(old(seq_)))
    {
      seq_ := S.Increment(seq_);
    }

    method SetError()
      requires Valid()
      modifies this`error
      ensures Valid() && State() == old(State()).(error := true)
    {
      error := true;
    }

    /** IWireObject::call on the i-th object. */
    method Call(i: nat, k: u32, args: seq<Value>)
      requires Valid() && i < |objects|
      requires C.Callable(objects[i], k) ==> W.Fits(objects[i].spec.c2s[k].params, 0, args)
      modifies this
      ensures Valid() && State() == C.CallObject(impls, old(State()), i, k, args)
    {
      hide Valid, C.CallOn, W.Fits;
      var o := objects[i];
      if |o.spec.c2s| <= k {
        return;
      }
      if o.spec.c2s[k].since > o.version {
        return;
      }
      if o.spec.c2s[k].isDestructor {
        Update(i, o.(destroyed := true));
      }
      CallOn(o, k, args);
    }

    /** roundtrip, up to the wait. */
    method SendRequest()
      requires Valid() && !error
      modifies this`lastSent, this`wire, this`wireFds, this`sent
      ensures Valid() && State() == C.Roundtrip(old(State()))
    {
      hide EncodeMessage, MessageFds, EncodeBatch, BatchFds, AllUsable, AllKeptAre;
      lastSent := S.Increment(lastSent);
      NoFds(RoundtripRequest(lastSent));
      SendMessage(EncodeMessage(RoundtripRequest(lastSent)), [], C.Outgoing(RoundtripRequest(lastSent), 0, false));
    }

    /** roundtrip, with what poll reports in turn during its wait. */
    method Roundtrip(reports: seq<Report>) returns (rest: seq<Report>)
      requires Valid()
      modifies this
      ensures Valid()
      ensures Waited(State(), rest) ==
        if old(error) then Waited(old(State()), reports)
        else WaitForAnswer(impls, C.Roundtrip(old(State())), S.Increment(old(lastSent)), reports)
      ensures if old(error) then rest == reports
        else WaitsForAnswer(impls, C.Roundtrip(old(State())), S.Increment(old(lastSent)), reports, State(), rest)
    {
      hide Valid, WaitForAnswer;
      AnswerWaited(impls, C.Roundtrip(State()), S.Increment(lastSent), reports);
      if error {
        return reports;
      }
      SendRequest();
      rest := AwaitAnswer(lastSent, reports);
    }

    /** The loop of roundtrip: it goes on while dispatches succeed. */
    method AwaitAnswer(n: u32, reports: seq<Report>) returns (rest: seq<Report>)
      requires Valid()
      modifies this
      ensures Valid() && Waited(State(), rest) == WaitForAnswer(impls, old(State()), n, reports)
    {
      hide Valid, Dispatch.DispatchEvents;
      rest := reports;
      while acked < n && rest != []
        invariant Valid()
        invariant WaitForAnswer(impls, old(State()), n, reports) == WaitForAnswer(impls, State(), n, rest)
        decreases |rest|
      {
        var again := DispatchEvents(rest[0]);
        rest := rest[1..];
        if !again {
          return;
        }
      }
    }

    /** waitForHandshake, with what poll reports in turn. */
    method WaitForHandshake(reports: seq<Report>) returns (ok: bool, rest: seq<Report>)
      requires Valid()
      modifies this
      ensures Valid() && Waited(State(), rest) == Dispatch.WaitForHandshake(impls, old(State()), reports)
      ensures WaitsForHandshake(impls, old(State()), reports, State(), rest)
      ensures ok <==> !error && !LastFails(impls, old(State()), reports, |reports| - |rest|)
    {
      hide Valid, Dispatch.DispatchEvents, AfterReports;
      NothingUsed(impls, State(), reports);
      HandshakeWaited(impls, State(), reports);
      rest := reports;
      while !error && !handshakeDone && rest != []
        invariant Valid() && UsedUp(impls, old(State()), reports, State(), rest)
        invariant !LastFails(impls, old(State()), reports, |reports| - |rest|)
        invariant Dispatch.WaitForHandshake(impls, old(State()), reports)
          == Dispatch.WaitForHandshake(impls, State(), rest)
        decreases |rest|
      {
        UsedNext(impls, old(State()), reports, State(), rest);
        var again := DispatchEvents(rest[0]);
        rest := rest[1..];
        if !again {
          return false, rest;
        }
      }
      ok := !error;
    }

    // Orphans.

    /** ~CClientObject: an object that was not destroyed calls its destructor, if it has one
        it can call. */
    method Farewell(o: C.ClientObject)
      requires Valid() && Usable(o.spec)
      modifies this
      ensures Valid() && State() == C.Farewell(impls, old(State()), o)
    {
      hide Valid, C.CallOn, W.Fits;
      if o.destroyed || o.id == 0 || !connected {
        return;
      }
      var methods := o.spec.c2s;
      var j := 0;
      assert methods[0..] == methods;
      while j < |methods|
        invariant j <= |methods| && Valid() && State() == old(State())
        invariant C.AutoDestructor(methods, o.version) == C.AutoDestructor(methods[j..], o.version)
      {
        assert methods[j..][1..] == methods[j + 1..];
        var m := methods[j];
        if m.isDestructor && m.since <= o.version {
          if m.Returns() || m.params != [] {
            return;
          }
          NoArguments();
          CallOn(o, m.idx, []);
          return;
        }
        j := j + 1;
      }
    }

    /** erase_if over the table, and the destructors of what it drops. */
    method CollectOrphanedObjects()
      requires Valid()
      modifies this
      ensures Valid() && State() == C.Collect(impls, old(State()))
    {
      hide Valid, C.Farewell, C.Orphaned;
      var all := objects;
      Tables();
      KeepSurvivors();
      var i := 0;
      assert all[0..] == all;
      while i < |all|
        invariant i <= |all| && Valid()
        invariant C.Collect(impls, old(State())) == C.Farewells(impls, State(), all[i..])
      {
        assert all[i..][1..] == all[i + 1..];
        if C.Orphaned(all[i]) {
          UsableAt(all, i);
          Farewell(all[i]);
        }
        i := i + 1;
      }
    }

    lemma Tables()
      requires Valid()
      ensures TableUsable(objects)
    {
    }

    method KeepSurvivors()
      requires Valid()
      modifies this`objects
      ensures Valid() && State() == old(State()).(objects := C.Survivors(old(objects)))
    {
      var kept := DropOrphans(objects);
      objects := kept;
    }

    // Incoming calls.

    method DestroyObject(id: u32)
      requires Valid()
      modifies this`objects
      ensures Valid() && State() == old(State()).(objects := C.WithoutId(old(objects), id))
    {
      var kept := DropObjects(objects, id);
      objects := kept;
    }

    method DestroyIfNeeded(i: nat, m: Method)
      requires Valid() && i < |objects|
      modifies this`objects
      ensures Valid() && State() == C.DestroyIfNeeded(old(State()), i, m)
    {
      hide Valid, C.WithoutId;
      if !m.isDestructor {
        return;
      }
      var o := objects[i].(destroyed := true);
      WithoutMarkedId(objects, i, o, o.id);
      Update(i, o);
      if o.id != 0 {
        DestroyObject(o.id);
      }
    }

    method OnGeneric(msg: GenericProtocolMessage)
      requires Valid() && ParseArgs(msg.span, 0, msg.fds).Parsed?
      modifies this
      ensures Valid()
      ensures State() == C.OnGeneric(old(State()), old(msg.objectId), old(msg.method_),
        ParseArgs(old(msg.span), 0, old(msg.fds)).values)
    {
      hide W.CalledOutcome, ParseArgs, AllUsable, AllKeptAre, EncodeBatch, BatchFds, C.DestroyIfNeeded, C.FindId;
      var i := ObjectForId(msg.objectId);
      if i < 0 {
        DisconnectOnError();
        return;
      }
      var o := objects[i];
      var k := msg.method_;
      UsableAt(objects, i);
      var outcome := W.Called(o.spec.s2c, o.listeners, o.version, k, msg.span, msg.fds);
      OutcomeInRange(o.spec.s2c, o.listeners, o.version, k, ParseArgs(msg.span, 0, msg.fds).values);
      match outcome
      case Ignored => DestroyIfNeeded(i, o.spec.s2c[k]);
      case Delivered(frame) =>
        calls := calls + [S.Call(o.id, k, frame)];
        DestroyIfNeeded(i, o.spec.s2c[k]);
      case _ =>
    }

    // Messages.

    /** The specs of the handshake, read one by one until one does not parse. */
    method ServerSpecs(ps: seq<Text>)
      requires Valid()
      modifies this`serverSpecs, this`handshakeDone, this`error, this`connected
      ensures Valid() && State() == C.LearnSpecs(old(State()), ps)
    {
      hide C.ReadSpecs;
      var read, ok := SplitSpecs(ps);
      serverSpecs := serverSpecs + read;
      if !ok {
        DisconnectOnError();
      }
      handshakeDone := true;
    }

    /** A generic message, from its bytes to its effect. */
    method ParseGeneric(raw: RawMessage, off: nat) returns (len: nat)
      requires Valid() && off < |raw.data|
      modifies this, raw`fds
      ensures Valid()
      ensures match ReadGenericMessage(raw.data, off, old(raw.fds))
        case NoMessage => len == 0 && State() == old(State())
        case MessageRead(m, next, rest) =>
          off + len == next && len > 0 && raw.fds == rest && m.Generic?
          && State() == C.OnGeneric(old(State()), m.objectId, m.method_, m.args)
    {
      hide ReadGeneric, ParseArgs, C.OnGeneric, EncodeBatch, BatchFds, AllUsable, TableUsable, AllKeptAre;
      var msg := new GenericProtocolMessage.Parse(raw, off);
      if msg.len == 0 {
        return 0;
      }
      ghost var moved := SpanParses(raw.data, off, old(raw.fds));
      OnGeneric(msg);
      return msg.len;
    }

    /** HANDSHAKE_BEGIN: version 1 is acknowledged if the server offers it. */
    method ParseBegin(data: seq<byte>, off: nat, ghost fds: seq<int>) returns (len: nat)
      requires Valid() && off < |data|
      modifies this`wire, this`wireFds, this`sent
      ensures Valid()
      ensures match ReadHandshakeBegin(data, off, fds)
        case NoMessage => len == 0 && State() == old(State())
        case MessageRead(m, next, _) =>
          var h := C.Handle(old(State()), m);
          State() == h.c && if h.ok then off + len == next && len > 0 else len == 0
    {
      hide Valid, EncodeMessage, MessageFds;
      var len', versions := ParseHandshakeBegin(data, off, fds);
      if len' == 0 || S.PROTOCOL_VERSION !in versions {
        return 0;
      }
      NoFds(HandshakeAck(S.PROTOCOL_VERSION));
      SendMessage(EncodeMessage(HandshakeAck(S.PROTOCOL_VERSION)), [],
        C.Outgoing(HandshakeAck(S.PROTOCOL_VERSION), 0, false));
      return len';
    }

    /** One message: the length it took, or 0. */
    method ParseSingleMessage(raw: RawMessage, off: nat) returns (len: nat)
      requires Valid() && off < |raw.data|
      modifies this, raw`fds
      ensures Valid()
      ensures !ClientTakes(raw.data[off]) ==>
        len == 0 && State() == if ServerTakes(raw.data[off]) then old(State()).(error := true) else old(State())
      ensures ClientTakes(raw.data[off]) ==>
        match ReadMessage(raw.data, off, old(raw.fds))
        case NoMessage =>
          len == 0 && State() == if raw.data[off] == FATAL_PROTOCOL_ERROR then old(State()).(error := true)
            else old(State())
        case MessageRead(m, next, rest) =>
          var h := C.Handle(old(State()), m);
          State() == h.c && if h.ok then off + len == next && len > 0 && raw.fds == rest else len == 0
    {
      hide Valid, EncodeMessage, MessageFds, ReadHandshakeBegin, ReadHandshakeProtocols, ReadGenericMessage,
        ReadFatalError, C.OnGeneric, C.LearnSpecs, C.OnSeq, C.Send;
      var data := raw.data;
      var code := data[off];
      if code == HANDSHAKE_BEGIN {
        len := ParseBegin(data, off, raw.fds);
        if ReadHandshakeBegin(data, off, raw.fds).MessageRead? {
          KindsRead(data, off, raw.fds);
        }
      } else if code == HANDSHAKE_PROTOCOLS {
        var len', protocols := ParseHandshakeProtocols(data, off, raw.fds);
        if len' > 0 {
          ServerSpecs(protocols);
        }
        return len';
      } else if code == NEW_OBJECT {
        var m := ReadNewObject(data, off, raw.fds);
        if m.NoMessage? {
          return 0;
        }
        OnSeq(m.msg.forSeq, m.msg.id);
        return m.next - off;
      } else if code == GENERIC {
        len := ParseGeneric(raw, off);
      } else if code == FATAL_PROTOCOL_ERROR {
        var len', _, _, _ := ParseFatalError(data, off, raw.fds);
        SetError();
        return len';
      } else if code == ROUNDTRIP_DONE {
        var m := ReadWordMessage(data, off, raw.fds);
        if m.NoMessage? {
          return 0;
        }
        Acknowledge(m.msg.answered);
        return m.next - off;
      } else {
        if ServerTakes(code) {
          SetError();
        }
        return 0;
      }
    }

    method Acknowledge(q: u32)
      requires Valid()
      modifies this`acked
      ensures Valid() && State() == old(State()).(acked := q)
    {
      acked := q;
    }

    /** The loop over a batch. */
    method HandleMessage(raw: RawMessage) returns (verdict: Verdict)
      requires Valid()
      modifies this, raw`fds
      ensures Valid() && ClientRun(State(), verdict) == ClientBatch(old(State()), raw.data, 0, old(raw.fds))
    {
      hide C.Handle, ReadMessage, ClientTakes, Valid;
      var needle := 0;
      while needle < |raw.data|
        invariant Valid() && raw.data == old(raw.data)
        invariant ClientBatch(old(State()), raw.data, 0, old(raw.fds))
          == ClientBatch(State(), raw.data, needle, raw.fds)
        decreases |raw.data| - needle
      {
        var ret := ParseSingleMessage(raw, needle);
        if ret == 0 {
          return ParsedError;
        }
        needle := needle + ret;
      }
      return if raw.fds != [] then StrayFds else ParsedOk;
    }

    // The end of a dispatch.

    /** One kept-back message: dropped with its object, kept while there is no id, else
        given the id and sent. */
    method FlushOne(k: Kept, ghost e: C.Outgoing)
      requires Valid() && KeptIs(k, e)
      modifies this`pendingOutgoing, this`pending, this`wire, this`wireFds, this`sent
      ensures Valid() && State() == C.FlushOne(old(State()), e)
    {
      hide EncodeMessage, MessageFds, EncodeBatch, BatchFds, AllUsable, AllKeptAre, Resolved, C.FindSeq;
      var i := ObjectForSeq(k.dependsOn);
      if i < 0 {
        return;
      }
      if objects[i].id == 0 {
        KeptAppend(pendingOutgoing, pending, k, e);
        pendingOutgoing, pending := pendingOutgoing + [k], pending + [e];
        return;
      }
      var msg := new GenericProtocolMessage.Build(k.data, k.fds);
      msg.ResolveSeq(objects[i].id);
      KeptResolves(k, e, objects[i].id);
      SendMessage(msg.data, msg.fds, C.ResolvedTo(e, objects[i].id));
    }

    /** erase_if over the kept-back messages. */
    method Flush()
      requires Valid()
      modifies this
      ensures Valid() && State() == C.Flush(old(State()))
    {
      hide EncodeMessage, MessageFds, EncodeBatch, BatchFds, AllUsable, C.FlushOne;
      var waiting := pendingOutgoing;
      ghost var es := pending;
      pendingOutgoing, pending := [], [];
      var n := 0;
      assert waiting[0..] == waiting && es[0..] == es;
      while n < |waiting|
        invariant n <= |waiting| == |es| && Valid() && AllKeptAre(waiting[n..], es[n..])
        invariant C.Flush(old(State())) == C.FlushAll(State(), es[n..])
      {
        assert waiting[n..][1..] == waiting[n + 1..] && es[n..][1..] == es[n + 1..];
        FlushOne(waiting[n], es[n]);
        n := n + 1;
      }
    }

    /** dispatchEvents, from what was read from the socket on. */
    method DispatchInput(received: Received) returns (again: bool)
      requires Valid()
      modifies this
      ensures Valid() && State() == DispatchClient(impls, old(State()), received)
      ensures again == (received.Received? && received.data != [] && !error)
    {
      hide Valid, ClientBatch, C.Flush, C.Collect;
      match received
      case Bad =>
        DisconnectOnError();
        return false;
      case Received(data, fds) =>
        if data == [] {
          return false;
        }
        var raw := new RawMessage(data, fds);
        var verdict := HandleMessage(raw);
        if !verdict.ParsedOk? {
          DisconnectOnError();
          return false;
        }
        Flush();
        CollectOrphanedObjects();
        return !error;
    }

    /** dispatchEvents, with what poll reports. */
    method DispatchEvents(p: Report) returns (again: bool)
      requires Valid()
      modifies this
      ensures Valid() && Dispatched(State(), again) == Dispatch.DispatchEvents(impls, old(State()), p)
    {
      hide Valid, DispatchClient, C.Collect;
      if error {
        return false;
      }
      CollectOrphanedObjects();
      match p
      case Quiet(hangup) =>
        CollectOrphanedObjects();
        return !hangup;
      case Readable(received) =>
        again := DispatchInput(received);
    }
  }

  /** A farewell neither looks at the table nor changes it, so it does not matter when, while
      erase_if moves the others up, a dropped object's destructor runs. */
  lemma FarewellBlind(impls: seq<ProtocolSpec>, c: C.ClientState, o: C.ClientObject, objects: seq<C.ClientObject>)
    requires Usable(o.spec)
    ensures C.Farewell(impls, c.(objects := objects), o) == C.Farewell(impls, c, o).(objects := objects)
    ensures C.Farewell(impls, c, o).objects == c.objects
  {
    hide Servable;
    var auto := C.AutoDestructor(o.spec.c2s, o.version);
    if auto.Auto? {
      assert o.spec.c2s[0..] == o.spec.c2s;
      var n := CS.AutoAt(o.spec.c2s, o.version, 0);
    }
  }

  lemma KindsRead(data: seq<byte>, off: nat, fds: seq<int>)
    requires ReadHandshakeBegin(data, off, fds).MessageRead?
    ensures ReadHandshakeBegin(data, off, fds).msg.HandshakeBegin? && ReadHandshakeBegin(data, off, fds).rest == fds
  {
  }

  lemma NoArguments()
    ensures W.Fits([], 0, [])
  {
  }

  lemma WithoutMarkedId(objects: seq<C.ClientObject>, i: nat, o: C.ClientObject, id: u32)
    requires i < |objects| && objects[i].id == id && o.id == id
    ensures C.WithoutId(objects[i := o], id) == C.WithoutId(objects, id)
  {
    if i > 0 {
      assert objects[i := o][1..] == objects[1..][i - 1 := o];
      WithoutMarkedId(objects[1..], i - 1, o, id);
    } else {
      assert objects[i := o][1..] == objects[1..];
    }
  }

  lemma SentBytes(sent: seq<C.Outgoing>, e: C.Outgoing)
    ensures EncodeBatch(C.MessagesOf(sent + [e])) == EncodeBatch(C.MessagesOf(sent)) + EncodeMessage(e.msg)
    ensures BatchFds(C.MessagesOf(sent + [e])) == BatchFds(C.MessagesOf(sent)) + MessageFds(e.msg)
  {
    hide EncodeMessage, MessageFds;
    assert (sent + [e])[..|sent|] == sent;
    BatchAppend(C.MessagesOf(sent), [e.msg]);
    assert [e.msg][1..] == [];
    assert EncodeMessage(e.msg) + EncodeBatch([]) == EncodeMessage(e.msg);
    assert MessageFds(e.msg) + BatchFds([]) == MessageFds(e.msg);
  }
}
