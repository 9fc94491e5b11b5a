/** What a server does with one client's input, said without its own functions: which bytes are an
    error, which requests and calls are refused, and what is answered. */
module ServerLaws {
  import opened Bytes
  import opened Arguments
  import opened Specs
  import opened SpecNames
  import opened Messages
  import opened WireObject
  import opened CallRoundTrip
  import opened Dispatch
  import S = Server
  import ServerSafety

  // Bytes.

  /** The messages stand one behind the other from needle to end, and leave these descriptors. */
  ghost predicate ReadsTo(data: seq<byte>, needle: nat, fds: seq<int>, ms: seq<Message>, end: nat, left: seq<int>)
    decreases |ms|
  {
    if ms == [] then needle == end && fds == left
    else
      needle < |data| &&
      match ReadMessage(data, needle, fds)
      case NoMessage => false
      case MessageRead(m, next, rest) => m == ms[0] && ReadsTo(data, next, rest, ms[1..], end, left)
  }

  /** No message for a server stands at the position. */
  ghost predicate NoneForServer(data: seq<byte>, at: nat, fds: seq<int>) {
    at < |data| && (ReadMessage(data, at, fds).MessageRead? ==> !S.FromClient(ReadMessage(data, at, fds).msg))
  }

  lemma CodeRead(data: seq<byte>, at: nat, fds: seq<int>)
    requires at < |data| && ReadMessage(data, at, fds).MessageRead?
    ensures S.FromClient(ReadMessage(data, at, fds).msg) <==> ServerTakes(data[at])
  {
    hide ReadTexts, ReadText, WordsAt, At;
  }

  /** The messages a server handles of any bytes: all that stand at their front, up to the first
      that sets the error, or to where no message for a server stands. */
  lemma {:induction false} ServerReads(env: S.ServerEnv, s: S.ServerState, data: seq<byte>, needle: nat, fds: seq<int>)
      returns (ms: seq<Message>, end: nat, left: seq<int>)
    requires needle <= |data|
    ensures ReadsTo(data, needle, fds, ms, end, left) && OnlyLastFails(env, s, ms) && end <= |data|
    ensures AllFromClient(ms)
    ensures S.HandleAll(env, s, ms).error || end == |data| || NoneForServer(data, end, left)
    ensures var r := ServerBatch(env, s, data, needle, fds); var u := S.HandleAll(env, s, ms);
      if u.error || end == |data| then r == ServerRun(u, if left == [] then ParsedOk else StrayFds)
      else r.verdict == ParsedError && (r.s == u || r.s == u.(error := true))
    decreases |data| - needle
  {
    hide S.Handle, ReadMessage, ServerTakes, S.FromClient;
    ms, end, left := [], needle, fds;
    if needle < |data| && !s.error {
      var r := ReadMessage(data, needle, fds);
      if r.MessageRead? {
        CodeRead(data, needle, fds);
        ReadMessageProgress(data, needle, fds);
        if ServerTakes(data[needle]) {
          var rest;
          rest, end, left := ServerReads(env, S.Handle(env, s, r.msg), data, r.next, r.rest);
          ms := [r.msg] + rest;
          assert ms[1..] == rest;
        }
      }
    }
  }

  /** What a read from a client's socket does. Of any bytes the messages at their front are
      handled; and the client has its error set then exactly if one of them set it, or the bytes
      do not end where the last of them ends, or they came with descriptors none of them took.
      In the last two cases one fatal error goes out; else the last roundtrip request, if any, is
      answered. */
  lemma DispatchVerdict(env: S.ServerEnv, s: S.ServerState, data: seq<byte>, fds: seq<int>)
      returns (ms: seq<Message>, end: nat, left: seq<int>)
    requires data != []
    ensures ReadsTo(data, 0, fds, ms, end, left) && OnlyLastFails(env, s, ms) && end <= |data|
    ensures AllFromClient(ms)
    ensures S.HandleAll(env, s, ms).error || end == |data| || NoneForServer(data, end, left)
    ensures var t := DispatchServer(env, s, Received(data, fds)); var u := S.HandleAll(env, s, ms);
      && (t.error <==> u.error || end != |data| || left != [])
      && t.objects == u.objects && t.calls == u.calls && t.maxId == u.maxId && t.exposed == u.exposed
      && if left != [] || (end != |data| && !u.error)
         then t.sent == u.sent + [FatalError(0, 0xFFFF_FFFF, [])]
         else t.sent == u.sent + (if u.scheduled > 0 then [RoundtripDone(u.scheduled)] else []) && t.scheduled == 0
  {
    hide S.HandleAll, ServerBatch, ReadsTo, OnlyLastFails, NoneForServer;
    ms, end, left := ServerReads(env, s, data, 0, fds);
    var u := S.HandleAll(env, s, ms);
    assert u.sent + [] == u.sent;
  }

  /** A read that fails, and one that yields nothing. */
  lemma NoInput(env: S.ServerEnv, s: S.ServerState, fds: seq<int>)
    ensures DispatchServer(env, s, Received([], fds)) == s
    ensures DispatchServer(env, s, Bad) == s.(error := true, sent := s.sent + [FatalError(0, 0xFFFF_FFFF, [])])
  {
  }

  // The handshake.

  /** What a client is told of: name and version of exactly the registered protocols whose names
      are exposed to it. */
  lemma {:induction false} OfferedExactly(impls: seq<ProtocolSpec>, exposed: seq<Text>, s: ServerSpec)
    ensures s in S.Offered(impls, exposed) <==>
      exists p :: p in impls && p.name in exposed && s.name == p.name && s.version == p.version
  {
    if impls == [] {
    } else {
      OfferedExactly(impls[1..], exposed, s);
      assert impls == [impls[0]] + impls[1..];
    }
  }

  // Requests for objects.

  /** The request names the protocol and, if the name is not empty, the type that are there first
      by these names. */
  ghost predicate Names(impls: seq<ProtocolSpec>, protocol: Text, name: Text, i: nat, j: nat) {
    && i < |impls| && impls[i].name == protocol && (forall k :: 0 <= k < i ==> impls[k].name != protocol)
    && j < |impls[i].objects| && (name == [] ==> j == 0)
    && (name != [] ==>
        impls[i].objects[j].name == name && forall k :: 0 <= k < j ==> impls[i].objects[k].name != name)
  }

  lemma {:induction false} ProtocolAt(impls: seq<ProtocolSpec>, name: Text) returns (i: nat)
    ensures if FindProtocol(impls, name).Found? then
        i < |impls| && FindProtocol(impls, name).spec == impls[i] && impls[i].name == name &&
        (forall k :: 0 <= k < i ==> impls[k].name != name)
      else forall k :: 0 <= k < |impls| ==> impls[k].name != name
  {
    i := 0;
    if impls == [] {
    } else if impls[0].name != name {
      i := ProtocolAt(impls[1..], name);
      i := i + 1;
      forall k | 0 <= k < |impls| && (FindProtocol(impls, name).Found? ==> k < i) ensures impls[k].name != name {
        if k > 0 {
          assert impls[k] == impls[1..][k - 1];
        }
      }
    }
  }

  lemma {:induction false} ObjectAt(objects: seq<ObjectSpec>, name: Text) returns (j: nat)
    ensures if FindObject(objects, name).Spec? then
        j < |objects| && FindObject(objects, name).os == objects[j] && (name == [] ==> j == 0) &&
        (name != [] ==> objects[j].name == name && forall k :: 0 <= k < j ==> objects[k].name != name)
      else if name == [] then objects == [] else forall k :: 0 <= k < |objects| ==> objects[k].name != name
  {
    j := 0;
    if objects == [] {
    } else if name != [] && objects[0].name != name {
      j := ObjectAt(objects[1..], name);
      j := j + 1;
      forall k | 0 <= k < |objects| && (FindObject(objects, name).Spec? ==> k < j) ensures objects[k].name != name {
        if k > 0 {
          assert objects[k] == objects[1..][k - 1];
        }
      }
    }
  }

  /** A request is accepted exactly if the protocol is exposed to the client, the type exists in
      it, and the version is not newer than the protocol's. An accepted one is announced under
      the next id; a refused one is a fatal error with that id, and the client's last. */
  lemma CreateVerdict(env: S.ServerEnv, s: S.ServerState, protocol: Text, name: Text, version: u32, q: u32)
    ensures var t := S.CreateObject(env, s, protocol, name, version, q);
      var granted := protocol in s.exposed &&
        exists i: nat, j: nat :: Names(env.impls, protocol, name, i, j) && version <= env.impls[i].version;
      && (t.error <==> s.error || !granted)
      && t.sent == s.sent + [if granted then NewObject(s.maxId, q) else FatalError(s.maxId, 0xFFFF_FFFF, [])]
      && t.calls == s.calls && t.exposed == s.exposed && t.scheduled == s.scheduled
      && t.maxId == (s.maxId + 1) % 0x1_0000_0000 && |t.objects| == |s.objects| + 1
      && s.objects <= t.objects && t.objects[|s.objects|].id == s.maxId && t.objects[|s.objects|].version == version
  {
    var i := ProtocolAt(env.impls, protocol);
    if FindProtocol(env.impls, protocol).Found? {
      var j := ObjectAt(env.impls[i].objects, name);
      hide FindProtocol, FindObject;
      if FindObject(env.impls[i].objects, name).Spec? {
        assert Names(env.impls, protocol, name, i, j);
      }
      if i': nat, j': nat :| Names(env.impls, protocol, name, i', j') && version <= env.impls[i'].version {
        assert i' == i;
      }
    }
  }

  /** The entry an accepted request leaves at the end of the table. */
  lemma CreatedEntry(env: S.ServerEnv, s: S.ServerState, protocol: Text, name: Text, version: u32, q: u32,
      i: nat, j: nat)
    requires protocol in s.exposed && Names(env.impls, protocol, name, i, j) && version <= env.impls[i].version
    ensures S.CreateObject(env, s, protocol, name, version, q).objects ==
      s.objects + [S.ServerObject(s.maxId, version, Spec(env.impls[i].objects[j]), protocol, false, {})]
  {
    var i' := ProtocolAt(env.impls, protocol);
    assert i' == i;
    var j' := ObjectAt(env.impls[i].objects, name);
    assert j' == j;
  }

  // Calls of a client.

  /** What is wrong with a call: no such method; or it has a listener, and the method is newer
      than the object, or the arguments do not begin with those of the method. */
  ghost predicate Wrong(o: S.ServerObject, k: nat, args: seq<Value>) {
    o.spec.NoSpec? || k >= |o.spec.os.c2s| ||
    (k in o.listeners &&
     (o.spec.os.c2s[k].since > o.version || !((if o.spec.os.c2s[k].returnsType != [] then [SEQ] else [])
        + o.spec.os.c2s[k].params <= TypesOf(args))))
  }

  /** A call for an object of the table: wrong, it is a fatal error in the object's name and
      nothing else happens; right, its listener, if there is one, is called with a frame as long
      as the method's parameters that reads back to the arguments in front, nothing is sent, and
      the object leaves exactly if the method is a destructor. */
  lemma CallVerdict(s: S.ServerState, id: u32, k: u32, args: seq<Value>)
    requires S.Find(s.objects, id) >= 0 && id != 0 && AllSendable(args)
    ensures var o := s.objects[S.Find(s.objects, id)]; var t := S.OnGeneric(s, id, k, args);
      if Wrong(o, k, args) then t == s.(error := true, sent := s.sent + [FatalError(id, id, [])])
      else
        && t.error == s.error && t.sent == s.sent && t.maxId == s.maxId
        && (forall x :: x in t.objects <==> x in s.objects && (o.spec.os.c2s[k].isDestructor ==> x.id != id))
        && (if k in o.listeners then
              |t.calls| == |s.calls| + 1 && s.calls <= t.calls &&
              (Proper(o.spec.os.c2s[k].params) ==> RightCall(t.calls[|s.calls|], id, k, o.spec.os.c2s[k], args))
            else t.calls == s.calls)
  {
    hide S.Find, TypesOf, SlotsOf, ReadFrame, AllSendable, RightCall;
    var o := s.objects[S.Find(s.objects, id)];
    if !Wrong(o, k, args) {
      WithoutExactly(s.objects, id);
      if k in o.listeners && Proper(o.spec.os.c2s[k].params) {
        FrameOfCall(id, k, o.spec.os.c2s[k], args);
      }
    }
  }

  lemma FrameOfCall(id: u32, k: u32, m: Method, args: seq<Value>)
    requires m.Expected() <= TypesOf(args) && Proper(m.params) && AllSendable(args)
    ensures RightCall(S.Call(id, k, [ObjectPtr] + SlotsOf(args)[..|m.Expected()|]), id, k, m, args)
  {
    hide TypesOf, SlotsOf, ReadFrame, Proper;
    var codes := m.Expected();
    ProperExpected(m);
    var front := FrontOf(codes, args);
    FrameOf(args, front);
    FrameReadsBack(front);
    var frame := [ObjectPtr] + SlotsOf(args)[..|codes|];
    assert frame[1..] == SlotsOf(front);
  }

  lemma {:induction false} ProperBehind(codes: seq<byte>, j: nat, i: nat)
    requires ProperFrom(codes, j + i) && j <= |codes|
    ensures ProperFrom(codes[j..], i)
    decreases |codes| - i
  {
    if j + i >= |codes| {
    } else {
      ProperBehind(codes, j, if codes[j + i] == ARRAY then i + 2 else i + 1);
    }
  }

  /** Codes that the arguments begin with are those of arguments in front. */
  lemma {:induction false} FrontOf(codes: seq<byte>, args: seq<Value>) returns (front: seq<Value>)
    requires Proper(codes) && codes <= TypesOf(args) && AllSendable(args)
    ensures front <= args && TypesOf(front) == codes && AllSendable(front)
    decreases |args|
  {
    front := [];
    if codes == [] {
    } else {
      var own := TypeCodes(args[0]);
      var n := |own|;
      assert Sendable(args[0]) && codes[0] == own[0];
      assert n == 2 <==> codes[0] == ARRAY;
      assert codes[..n] == own;
      assert codes[n..] <= TypesOf(args[1..]) by { assert TypesOf(args)[n..] == TypesOf(args[1..]); }
      ProperBehind(codes, n, 0);
      var rest := FrontOf(codes[n..], args[1..]);
      front := [args[0]] + rest;
      assert front[1..] == rest && codes == own + codes[n..];
      assert args == [args[0]] + args[1..];
    }
  }

  /** What a listener is called with: the object, and as many of the arguments as make up the
      method's parameters. */
  ghost predicate RightCall(call: S.Call, id: u32, k: nat, m: Method, args: seq<Value>) {
    var codes := (if m.returnsType != [] then [SEQ] else []) + m.params;
    && call.target == id && call.method_ == k && |call.frame| == 1 + |codes| && call.frame[0] == ObjectPtr
    && exists front :: front <= args && TypesOf(front) == codes && ReadFrame(codes, call.frame[1..]) == front
  }

  /** A listener that was registered is called by a right call. */
  lemma ListenerHears(s: S.ServerState, i: nat, k: u32, args: seq<Value>)
    requires i < |s.objects| && s.objects[i].id != 0 && S.Find(s.objects, s.objects[i].id) == i && AllSendable(args)
    requires !Wrong(s.objects[i].(listeners := {k}), k, args)
    ensures var t := S.OnGeneric(S.Listen(s, i, k), s.objects[i].id, k, args);
      t.error == s.error && |t.calls| == |s.calls| + 1 && t.calls[|s.calls|].method_ == k
  {
    hide S.Find, TypesOf, SlotsOf, AllSendable, S.Without;
    var o := s.objects[i];
    ServerSafety.FindUpdate(s.objects, o.id, i, o.(listeners := o.listeners + {k}));
  }

  /** A call for an id that is not in the table. */
  lemma UnknownVerdict(s: S.ServerState, id: u32, k: u32, args: seq<Value>)
    requires forall j :: 0 <= j < |s.objects| ==> s.objects[j].id != id
    ensures S.OnGeneric(s, id, k, args) == s.(error := true, sent := s.sent + [FatalError(id, 0xFFFF_FFFF, [])])
  {
  }

  /** Kinds of messages only servers send. */
  lemma StrangeVerdict(env: S.ServerEnv, s: S.ServerState, m: Message)
    requires m.HandshakeBegin? || m.HandshakeProtocols? || m.NewObject? || m.FatalError? || m.RoundtripDone?
    ensures S.Handle(env, s, m) == s.(error := true)
  {
  }

  // What a client is told.

  /** A message of a client that costs it its connection is answered with a fatal error. */
  lemma FailsAloud(env: S.ServerEnv, s: S.ServerState, m: Message)
    requires S.FromClient(m) && !s.error
    ensures var t := S.Handle(env, s, m);
      s.sent <= t.sent && (t.error ==> |t.sent| == |s.sent| + 1 && t.sent[|s.sent|].FatalError?)
  {
    hide S.ExposedNames, S.NewEntry, S.Accepts, S.Find, S.Without, CalledOutcome, Printed, S.Offered;
  }

  lemma {:induction false} ToldInBatch(env: S.ServerEnv, s: S.ServerState, ms: seq<Message>) returns (p: nat)
    requires AllFromClient(ms) && !s.error
    ensures s.sent <= S.HandleAll(env, s, ms).sent
    ensures var u := S.HandleAll(env, s, ms); u.error ==> |s.sent| <= p < |u.sent| && u.sent[p].FatalError?
    decreases |ms|
  {
    hide S.Handle, S.FromClient;
    p := |s.sent|;
    if ms == [] {
    } else {
      var t := S.Handle(env, s, ms[0]);
      FailsAloud(env, s, ms[0]);
      if !t.error {
        p := ToldInBatch(env, t, ms[1..]);
      }
    }
  }

  /** Whatever is read from a client, if it costs the client its connection then a fatal error is
      among what is sent to it. */
  lemma ErrorIsTold(env: S.ServerEnv, s: S.ServerState, r: Received) returns (p: nat)
    requires !s.error && DispatchServer(env, s, r).error
    ensures var t := DispatchServer(env, s, r); s.sent <= t.sent && |s.sent| <= p < |t.sent| && t.sent[p].FatalError?
  {
    hide S.HandleAll, ServerBatch, ReadsTo, OnlyLastFails, NoneForServer;
    p := |s.sent|;
    if r.Received? && r.data != [] {
      var ms, end, left := DispatchVerdict(env, s, r.data, r.fds);
      p := ToldInBatch(env, s, ms);
      var u := S.HandleAll(env, s, ms);
      if left != [] || (end != |r.data| && !u.error) {
        p := |u.sent|;
      }
    }
  }

  // Calls of the application.

  /** Why the application cannot make a call. */
  ghost predicate Refused(o: S.ServerObject, k: nat) {
    o.spec.NoSpec? || k >= |o.spec.os.s2c| || o.spec.os.s2c[k].since > o.version || o.spec.os.s2c[k].returnsType != []
  }

  /** A call of the application: refused, it is a fatal error in the object's name, and the
      client's last; with an array that cannot be marshalled it is an error without a message;
      else exactly its message goes out. A destructor that is not refused marks its object. */
  lemma EventVerdict(s: S.ServerState, i: nat, k: u32, args: seq<Value>)
    requires i < |s.objects|
    ensures var o := s.objects[i]; var t := S.CallOut(s, i, k, args);
      if Refused(o, k) then t == s.(error := true, sent := s.sent + [FatalError(o.id, o.id, [])])
      else
        var m := o.spec.os.s2c[k];
        && t == s.(objects := t.objects, sent := t.sent, error := t.error)
        && t.objects == s.objects[i := o.(destroyed := o.destroyed || m.isDestructor)]
        && if Marshallable(m.params, 0) then t.sent == s.sent + [Generic(o.id, k, args)] && t.error == s.error
           else t.sent == s.sent && t.error
  {
    var o := s.objects[i];
    assert s.objects[i := o] == s.objects;
  }

  /** Arguments that can be sent can be marshalled, unless an array of sequence numbers is among
      them. */
  lemma {:induction false} MarshallableExactly(params: seq<byte>, i: nat, args: seq<Value>)
    requires i <= |params| && params[i..] == TypesOf(args) && AllSendable(args)
    ensures Marshallable(params, i) <==> forall v :: v in args ==> !(v.Words? && v.elem == SEQ)
    decreases |args|
  {
    if args == [] {
    } else {
      var own := TypeCodes(args[0]);
      assert Sendable(args[0]) && params[i..][..|own|] == own && params[i] == own[0];
      assert |own| == 2 ==> params[i + 1] == own[1];
      assert params[i + |own|..] == params[i..][|own|..] == TypesOf(args[1..]);
      MarshallableExactly(params, i + |own|, args[1..]);
      assert args == [args[0]] + args[1..];
    }
  }

  // The answer to roundtrip requests.

  /** At the end of a batch the last request is answered, once. */
  lemma AnsweredOnce(s: S.ServerState)
    ensures var t := S.EndBatch(s);
      && t == s.(scheduled := 0, sent := t.sent) && S.EndBatch(t) == t
      && t.sent == s.sent + if s.scheduled != 0 then [RoundtripDone(s.scheduled)] else []
  {
    assert s.sent + [] == s.sent;
  }

  lemma {:induction false} WithoutExactly(objects: seq<S.ServerObject>, id: u32)
    ensures forall x :: x in S.Without(objects, id) <==> x in objects && x.id != id
  {
    if objects == [] {
    } else {
      WithoutExactly(objects[1..], id);
      assert objects == [objects[0]] + objects[1..];
    }
  }
}
