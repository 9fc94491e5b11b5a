/** The argument layer end to end: what `call` marshals reaches the listener unchanged. */
module CallRoundTrip {
  import opened Bytes
  import opened Arguments
  import opened GenericMessage
  import opened Specs
  import opened WireObject

  lemma SpanParsesAt(data: seq<byte>, start: nat, fds: seq<int>, p: Parsed) returns (moved: seq<int>)
    requires ParseArgs(data, start, fds) == p && p.Parsed? && start <= p.end < |data|
    ensures ParseArgs(data[start..p.end + 1], 0, DescriptorsOf(p.values)) == Parsed(p.values, moved, p.end - start, [])
    ensures Shifted(p.cuts, start, moved)
  {
    hide ParseArgs, DescriptorsOf, Shifted, Agree;
    var n := p.end + 1 - start;
    var span := data[start..p.end + 1];
    assert data[start..start + n] == span;
    SliceAgrees(data, start, n, n);
    moved := ParseArgsAgree(data, start, span, n, 0, fds, p.values, p.cuts, p.end, p.rest, []);
    assert DescriptorsOf(p.values) + [] == DescriptorsOf(p.values);
  }

  /** The payload span of an accepted message, read on its own with the message's own
      descriptors, holds the same arguments at the same places: the three loops, which all
      follow this reading, agree on every argument boundary. */
  lemma SpanParses(data: seq<byte>, offset: nat, fds: seq<int>) returns (moved: seq<int>)
    requires ReadGeneric(data, offset, fds).GenericRead?
    ensures var p := ReadGeneric(data, offset, fds).args;
      && ParseArgs(data[offset + 11..p.end + 1], 0, DescriptorsOf(p.values))
        == Parsed(p.values, moved, p.end - (offset + 11), [])
      && Shifted(p.cuts, offset + 11, moved)
  {
    hide ParseArgs, DescriptorsOf, Shifted;
    moved := SpanParsesAt(data, offset + 11, fds, ReadGeneric(data, offset, fds).args);
  }

  /** What a listener makes of its frame, knowing the method's parameters. */
  function ReadFrame(codes: seq<byte>, slots: seq<Slot>): seq<Value>
    requires |slots| == |codes|
  {
    if codes == [] then []
    else if codes[0] == ARRAY && |codes| >= 2 then
      [match slots[0]
       case WordsPtr(ws) => Words(codes[1], ws)
       case StrsPtr(ss) => Strs(ss)
       case FdsPtr(l) => Fds(l)
       case _ => Fds([])] + ReadFrame(codes[2..], slots[2..])
    else
      [match slots[0]
       case U32Slot(w) => Word(codes[0], w)
       case S32Slot(w) => Word(codes[0], w)
       case FloatSlot(w) => Word(codes[0], w)
       case FdSlot(fd) => Fd(fd)
       case StrPtr(s) => Str(s)
       case _ => Fd(0)] + ReadFrame(codes[1..], slots[1..])
  }

  lemma FrameHead(v: Value, codes: seq<byte>, slots: seq<Slot>)
    requires Sendable(v) && |codes| == |slots|
    ensures ReadFrame(TypeCodes(v) + codes, Slots(v) + slots) == [v] + ReadFrame(codes, slots)
  {
    var c, s, n := TypeCodes(v) + codes, Slots(v) + slots, |TypeCodes(v)|;
    assert c[n..] == codes && s[n..] == slots;
    assert c[0] == TypeCodes(v)[0] && s[0] == Slots(v)[0];
    assert n == 2 ==> c[1] == TypeCodes(v)[1];
  }

  lemma {:induction false} FrameReadsBack(vs: seq<Value>)
    requires AllSendable(vs)
    ensures ReadFrame(TypesOf(vs), SlotsOf(vs)) == vs
  {
    if vs == [] {
    } else {
      FrameHead(vs[0], TypesOf(vs[1..]), SlotsOf(vs[1..]));
      FrameReadsBack(vs[1..]);
      assert [vs[0]] + vs[1..] == vs;
    }
  }

  /** The message of a call: method index, arguments with the new object's sequence number
      first when the method returns one. */
  function CallArgs(m: Method, seq_: u32, args: seq<Value>): seq<Value> {
    (if m.Returns() then [Word(SEQ, seq_)] else []) + args
  }

  lemma CallArgsTypes(m: Method, seq_: u32, args: seq<Value>)
    ensures TypesOf(CallArgs(m, seq_, args)) == (if m.Returns() then [SEQ] else []) + TypesOf(args)
  {
    if m.Returns() {
      assert CallArgs(m, seq_, args)[1..] == args;
    } else {
      assert [] + args == args;
    }
  }

  /** Round trip. A call with arguments of the method's types, marshalled anywhere in a
      batch with any descriptors queued behind its own, is accepted by the parser, and
      `called` hands a listener a frame that reads back to exactly the arguments sent. */
  lemma CallDelivers(m: Method, methods: seq<Method>, id: u32, listeners: set<nat>, version: nat,
                     objectId: u32, seq_: u32, args: seq<Value>, data: seq<byte>, offset: nat, more: seq<int>)
    requires id < |methods| && methods[id] == m && id in listeners && m.since <= version
    requires TypesOf(args) == m.params && AllSendable(args)
    requires At(data, offset, Marshalled(objectId, id, CallArgs(m, seq_, args)))
    ensures var all := CallArgs(m, seq_, args);
      var g := ReadGeneric(data, offset, DescriptorsOf(all) + more);
      && g.GenericRead? && g.objectId == objectId && g.method_ == id
      && g.args.rest == more && g.args.end + 1 == offset + |Marshalled(objectId, id, all)|
      && CalledOutcome(methods, listeners, version, g.method_, g.args.values) == Delivered([ObjectPtr] + SlotsOf(all))
      && TypesOf(all) == m.Expected() && ReadFrame(TypesOf(all), SlotsOf(all)) == all
  {
    var all := CallArgs(m, seq_, args);
    CallArgsTypes(m, seq_, args);
    assert AllSendable(all);
    ReadMarshalled(data, offset, objectId, id, all, more);
    FrameReadsBack(all);
    assert SlotsOf(all)[..|TypesOf(all)|] == SlotsOf(all);
  }

  /** Every frame a listener is called with is as long as the type list the check walk
      built, and its k-th type describes its k-th value. */
  lemma DeliveredFrameAligned(methods: seq<Method>, listeners: set<nat>, version: nat, id: nat,
                              data: seq<byte>, fds: seq<int>, done: seq<Value>, k: nat)
    requires ParseArgs(data, 0, fds).Parsed? && done <= ParseArgs(data, 0, fds).values
    requires var vs := ParseArgs(data, 0, fds).values;
      CalledOutcome(methods, listeners, version, id, vs).Delivered? && TypesOf(done) == methods[id].Expected()
    ensures var frame := CalledOutcome(methods, listeners, version, id, ParseArgs(data, 0, fds).values).frame;
      |frame| == |[Pointer] + FfiTypesOf(done)| &&
      (k < |frame| ==> Describes(([Pointer] + FfiTypesOf(done))[k], frame[k]))
  {
    hide ParseArgs, Proper;
    ParseArgsSendable(data, 0, fds);
    FrameOf(ParseArgs(data, 0, fds).values, done);
    if 1 <= k < 1 + |TypesOf(done)| {
      assert AllSendable(done);
      FrameAligned(done, k - 1);
    }
  }
}
