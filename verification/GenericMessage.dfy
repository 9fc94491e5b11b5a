/** CGenericProtocolMessage: the scan of an incoming generic message, whose descriptors
    come from a queue shared by the whole batch, and the late binding of its object id. */
module GenericMessage {
  import opened Bytes
  import opened VarInt
  import opened Arguments

  const GENERIC: byte := 100

  datatype GenericRead = NotGeneric | GenericRead(objectId: u32, method_: u32, args: Parsed)

  /** Type, object id and method index stand at offset. */
  predicate HasHeader(data: seq<byte>, offset: nat): (h: bool)
    ensures h ==> offset + 11 <= |data|
  {
    offset + 11 <= |data| && data[offset] == GENERIC && data[offset + 1] == OBJECT && data[offset + 6] == UINT
  }

  /** Reference reading of a whole message at offset. */
  function ReadGeneric(data: seq<byte>, offset: nat, fds: seq<int>): (r: GenericRead)
    ensures r.GenericRead? ==> r.args.Parsed? && offset + 11 <= r.args.end < |data|
  {
    if !HasHeader(data, offset) then NotGeneric
    else
      var args := ParseArgs(data, offset + 11, fds);
      if args == Malformed then NotGeneric
      else GenericRead(WordAt(data, offset + 2), WordAt(data, offset + 7), args)
  }

  /** The bytes `call` marshals: header, object id, method index, arguments, END. */
  function Marshalled(objectId: u32, method_: u32, args: seq<Value>): seq<byte> {
    [GENERIC, OBJECT] + WordBytes(objectId) + ([UINT] + WordBytes(method_)) + (EncodeAll(args) + [END])
  }

  // The scanning loops.

  /** The strings of an array: the loop only adds up lengths. */
  method ScanTexts(data: seq<byte>, start: nat, count: nat) returns (ok: bool, next: nat)
    requires start <= |data|
    ensures (ok && next <= |data|) <==> ReadTexts(data, start, count).TextsRead?
    ensures ok ==> next >= start
    ensures ok && next <= |data| ==> next == ReadTexts(data, start, count).next
  {
    hide ReadVarInt, ReadText;
    next := start;
    var j := 0;
    while j < count
      invariant 0 <= j <= count && start <= next
      invariant next <= |data| ==>
        TextsAgree(ReadTexts(data, start, count), ReadTexts(data, next, count - j))
      invariant next > |data| ==> ReadTexts(data, start, count) == NoTexts
    {
      NextText(data, next, count - j);
      var r := ParseVarInt(data, next);
      if r == NoNumber {
        return false, next;
      }
      next := next + r.len + r.value;
      j := j + 1;
    }
    ok := true;
  }

  lemma NextText(data: seq<byte>, i: nat, count: nat)
    requires count > 0
    ensures ReadVarInt(data, i) == NoNumber || i > |data| ==> i > |data| || ReadTexts(data, i, count) == NoTexts
    ensures var r := ReadVarInt(data, i);
      i <= |data| && r.Number? ==>
        if i + r.len + r.value <= |data|
        then TextsAgree(ReadTexts(data, i, count), ReadTexts(data, i + r.len + r.value, count - 1))
        else ReadTexts(data, i, count) == NoTexts
  {}

  /** Both fail, or both stop at the same place. */
  predicate TextsAgree(whole: TextsRead, tail: TextsRead) {
    whole.TextsRead? == tail.TextsRead? && (whole.TextsRead? ==> whole.next == tail.next)
  }

  /** Taking descriptors one by one from the front of the queue. */
  method TakeFds(fds: seq<int>, count: nat) returns (ok: bool, taken: seq<int>, rest: seq<int>)
    ensures taken + rest == fds
    ensures ok <==> count <= |fds|
    ensures ok ==> taken == fds[..count] && rest == fds[count..]
  {
    taken, rest := [], fds;
    var j := 0;
    while j < count
      invariant 0 <= j <= count && j <= |fds|
      invariant taken == fds[..j] && rest == fds[j..]
    {
      if rest == [] {
        return false, taken, rest;
      }
      taken, rest := taken + [rest[0]], rest[1..];
      j := j + 1;
    }
    ok := true;
  }

  /** The ARRAY case. `ok` means the scan goes on; a cursor past the end is found out by
      the next bounds-checked access. */
  method ScanArray(data: seq<byte>, i: nat, fds: seq<int>) returns (ok: bool, next: nat, taken: seq<int>,
      rest: seq<int>)
    requires i < |data|
    ensures taken + rest == fds
    ensures ok ==> next > i
    ensures (ok && next <= |data|) <==> ReadArray(data, i, fds).ValueRead?
    ensures ok && next <= |data| ==>
      var r := ReadArray(data, i, fds); next == r.next && rest == r.rest && taken == Descriptors(r.value)
  {
    taken, rest, next := [], fds, i;
    if i + 1 >= |data| {
      return false, next, taken, rest;
    }
    var elem := data[i + 1];
    var count := ParseVarInt(data, i + 2);
    if count == NoNumber || count.value >= MAX_ELEMENTS {
      return false, next, taken, rest;
    }
    next := i + 2 + count.len;
    if IsWord(elem) {
      next := next + 4 * count.value;
      ok := true;
    } else if elem == VARCHAR {
      ok, next := ScanTexts(data, next, count.value);
    } else if elem == FD {
      ok, taken, rest := TakeFds(fds, count.value);
    } else {
      ok := false;
    }
  }

  /** One round of the scanning switch. */
  method ScanValue(data: seq<byte>, i: nat, fds: seq<int>) returns (ok: bool, next: nat, taken: seq<int>,
      rest: seq<int>)
    requires i < |data| && data[i] != END
    ensures taken + rest == fds
    ensures ok ==> next > i
    ensures (ok && next <= |data|) <==> ReadValue(data, i, fds).ValueRead?
    ensures ok && next <= |data| ==>
      var r := ReadValue(data, i, fds); next == r.next && rest == r.rest && taken == Descriptors(r.value)
  {
    taken, rest, next := [], fds, i;
    var magic := data[i];
    if IsWord(magic) {
      next := i + 5;
      ok := true;
    } else if magic == VARCHAR {
      var r := ParseVarInt(data, i + 1);
      if r == NoNumber {
        return false, next, taken, rest;
      }
      next := i + 1 + r.len + r.value;
      ok := true;
    } else if magic == ARRAY {
      ok, next, taken, rest := ScanArray(data, i, fds);
    } else if magic == FD {
      ok, taken, rest := TakeFds(fds, 1);
      next := i + 1;
    } else {
      ok := false;
    }
  }

  lemma ScanStep(data: seq<byte>, i: nat, fds: seq<int>, vs: seq<Value>, cuts: seq<int>)
    requires i < |data| && data[i] != END
    ensures var whole := Prepend(vs, cuts, ParseArgs(data, i, fds));
      match ReadValue(data, i, fds)
      case NoValue => whole == Malformed
      case ValueRead(v, next, rest) => whole == Prepend(vs + [v], cuts + [i], ParseArgs(data, next, rest))
  {
    var r := ReadValue(data, i, fds);
    if r.ValueRead? {
      PrependPrepend(vs, cuts, r.value, i, ParseArgs(data, r.next, r.rest));
    }
  }

  lemma {:induction false} DescriptorsSnoc(vs: seq<Value>, v: Value)
    ensures DescriptorsOf(vs + [v]) == DescriptorsOf(vs) + Descriptors(v)
  {
    if vs == [] {
      assert [v][1..] == [] && DescriptorsOf([]) == [];
    } else {
      assert (vs + [v])[1..] == vs[1..] + [v];
      DescriptorsSnoc(vs[1..], v);
    }
  }

  lemma PrependNothing(p: Parsed)
    ensures Prepend([], [], p) == p
  {}

  /** The while loop of the parsing constructor: from `start` to END. Whether it accepts or
      not, the queue is only split; when it accepts, it took each argument's descriptors.
      `cuts` lists where the cursor stood at the head of each round that went through. */
  method ScanArguments(data: seq<byte>, start: nat, fds: seq<int>)
    returns (ok: bool, end: nat, taken: seq<int>, rest: seq<int>, cuts: seq<int>)
    ensures taken + rest == fds
    ensures ok <==> ParseArgs(data, start, fds).Parsed?
    ensures ok ==>
      var p := ParseArgs(data, start, fds);
      end == p.end && rest == p.rest && taken == DescriptorsOf(p.values) && cuts == p.cuts
  {
    taken, rest, end, cuts := [], fds, start, [];
    ghost var vs: seq<Value> := [];
    PrependNothing(ParseArgs(data, start, fds));
    while end < |data| && data[end] != END
      invariant taken + rest == fds && taken == DescriptorsOf(vs)
      invariant ParseArgs(data, start, fds) == Prepend(vs, cuts, ParseArgs(data, end, rest))
      decreases |data| - end
    {
      var go, next, took, left := ScanValue(data, end, rest);
      ScanStep(data, end, rest, vs, cuts);
      Assoc(taken, took, left);
      if !go {
        return false, end, taken + took, left, cuts;
      }
      if next <= |data| {
        DescriptorsSnoc(vs, ReadValue(data, end, rest).value);
        vs := vs + [ReadValue(data, end, rest).value];
        cuts := cuts + [end];
      } else {
        // the next bounds-checked access throws
        return false, end, taken + took, left, cuts;
      }
      end, taken, rest := next, taken + took, left;
    }
    ok := end < |data|;
    assert vs + [] == vs && cuts + [] == cuts;
  }

  /** SSocketRawParsedMessage: one batch of bytes and the descriptors received with it. */
  class RawMessage {
    var data: seq<byte>
    var fds: seq<int>

    constructor (data: seq<byte>, fds: seq<int>)
      ensures this.data == data && this.fds == fds
    {
      this.data, this.fds := data, fds;
    }
  }

  class GenericProtocolMessage {
    var objectId: u32
    var method_: u32
    var dependsOnSeq: u32
    var span: seq<byte>
    var fds: seq<int>
    var data: seq<byte>
    var len: nat

    /** The parsing constructor. Length 0 is a rejection; either way no descriptor is lost
        or reordered. */
    constructor Parse(raw: RawMessage, offset: nat)
      modifies raw`fds
      ensures fds + raw.fds == old(raw.fds)
      ensures len == 0 <==> ReadGeneric(raw.data, offset, old(raw.fds)) == NotGeneric
      ensures len > 0 ==>
        var g := ReadGeneric(raw.data, offset, old(raw.fds));
        && objectId == g.objectId && method_ == g.method_
        && offset + len == g.args.end + 1
        && span == raw.data[offset + 11..offset + len]
        && fds == DescriptorsOf(g.args.values) && raw.fds == g.args.rest
    {
      objectId, method_, dependsOnSeq := 0, 0, 0;
      span, fds, data := [], [], [];
      len := 0;
      new;
      hide ParseArgs, DescriptorsOf, HasHeader, WordAt;
      var bytes := raw.data;
      if !HasHeader(bytes, offset) {
        return;
      }
      objectId := WordAt(bytes, offset + 2);
      method_ := WordAt(bytes, offset + 7);
      var ok, end, taken, rest, _ := ScanArguments(bytes, offset + 11, raw.fds);
      fds := taken;
      raw.fds := rest;
      if ok {
        len := end + 1 - offset;
        span := bytes[offset + 11..offset + len];
      }
    }

    /** The constructor for an outgoing message. */
    constructor Build(bytes: seq<byte>, descriptors: seq<int>)
      ensures data == bytes && fds == descriptors && dependsOnSeq == 0
    {
      objectId, method_, dependsOnSeq := 0, 0, 0;
      span, len := [], 0;
      data, fds := bytes, descriptors;
    }

    /** Overwrites the object id in the marshalled bytes. */
    method ResolveSeq(id: u32)
      modifies this`objectId, this`data
      ensures objectId == id
      ensures data == Resolved(old(data), id)
    {
      objectId := id;
      if |data| >= 6 {
        var b := WordBytes(id);
        data := data[2 := b[0]][3 := b[1]][4 := b[2]][5 := b[3]];
      }
    }
  }

  /** A message with its object id, bytes 2 to 5, replaced. */
  function Resolved(data: seq<byte>, id: u32): seq<byte> {
    if |data| >= 6 then data[..2] + WordBytes(id) + data[6..] else data
  }

  /** A call marshalled before its object had an id becomes, byte for byte, the call
      marshalled with the real id. */
  lemma LateBinding(method_: u32, args: seq<Value>, id: u32)
    ensures Resolved(Marshalled(0, method_, args), id) == Marshalled(id, method_, args)
  {
    var tail := ([UINT] + WordBytes(method_)) + (EncodeAll(args) + [END]);
    var early := [GENERIC, OBJECT] + WordBytes(0) + tail;
    assert Marshalled(0, method_, args) == early;
    assert early[..2] == [GENERIC, OBJECT] && early[6..] == tail;
    assert Marshalled(id, method_, args) == [GENERIC, OBJECT] + WordBytes(id) + tail;
  }

  /** What `call` marshals, the parser accepts at any place in a batch: same object, method
      and arguments, exactly its own descriptors, and exactly its own bytes. */
  lemma ReadMarshalled(data: seq<byte>, offset: nat, objectId: u32, method_: u32, args: seq<Value>, more: seq<int>)
    requires AllSendable(args) && At(data, offset, Marshalled(objectId, method_, args))
    ensures var g := ReadGeneric(data, offset, DescriptorsOf(args) + more);
      && g.GenericRead? && g.objectId == objectId && g.method_ == method_
      && g.args.values == args && g.args.rest == more
      && g.args.end + 1 == offset + |Marshalled(objectId, method_, args)|
  {
    var head, mid, tail := [GENERIC, OBJECT] + WordBytes(objectId), [UINT] + WordBytes(method_),
      EncodeAll(args) + [END];
    HeaderAt(data, offset, objectId, method_, tail);
    var cuts := ParseArgsEncoded(data, offset + 11, args, more);
  }

  lemma HeaderAt(data: seq<byte>, offset: nat, objectId: u32, method_: u32, tail: seq<byte>)
    requires At(data, offset, [GENERIC, OBJECT] + WordBytes(objectId) + ([UINT] + WordBytes(method_)) + tail)
    ensures offset + 11 <= |data| && At(data, offset + 11, tail)
    ensures data[offset] == GENERIC && data[offset + 1] == OBJECT && data[offset + 6] == UINT
    ensures WordAt(data, offset + 2) == objectId && WordAt(data, offset + 7) == method_
  {
    var head, mid := [GENERIC, OBJECT] + WordBytes(objectId), [UINT] + WordBytes(method_);
    AtAppend(data, offset, head + mid, tail);
    AtAppend(data, offset, head, mid);
    AtAppend(data, offset, [GENERIC, OBJECT], WordBytes(objectId));
    AtIndex(data, offset, [GENERIC, OBJECT], 0);
    AtIndex(data, offset, [GENERIC, OBJECT], 1);
    WordAtEncoded(data, offset + 2, objectId);
    AtAppend(data, offset + 6, [UINT], WordBytes(method_));
    AtIndex(data, offset + 6, [UINT], 0);
    WordAtEncoded(data, offset + 7, method_);
  }

  /** An accepted message parses the same wherever its bytes stand, with any bytes and any
      descriptors behind its own. */
  lemma ReadGenericAgree(a: seq<byte>, d: nat, b: seq<byte>, n: nat, j: nat, fds: seq<int>, rest: seq<int>)
    requires Agree(a, d, b, n) && ReadGeneric(a, d + j, fds).GenericRead?
    requires ReadGeneric(a, d + j, fds).args.end < d + n
    ensures var g, h := ReadGeneric(a, d + j, fds),
      ReadGeneric(b, j, DescriptorsOf(ReadGeneric(a, d + j, fds).args.values) + rest);
      && h.GenericRead? && h.objectId == g.objectId && h.method_ == g.method_
      && h.args.values == g.args.values && h.args.end + d == g.args.end && h.args.rest == rest
  {
    var g := ReadGeneric(a, d + j, fds);
    AgreeAt(a, d, b, n, j);
    AgreeAt(a, d, b, n, j + 1);
    AgreeAt(a, d, b, n, j + 6);
    WordAtAgree(a, d, b, n, j + 2);
    WordAtAgree(a, d, b, n, j + 7);
    assert d + j + 11 == d + (j + 11);
    var moved := ParseArgsAgree(a, d, b, n, j + 11, fds, g.args.values, g.args.cuts, g.args.end, g.args.rest, rest);
  }

  /** Bytes appended to the batch, and descriptors queued behind the message's own, change
      nothing about an accepted message. */
  lemma AppendedBytesIgnored(data: seq<byte>, more: seq<byte>, offset: nat, fds: seq<int>, rest: seq<int>)
    requires ReadGeneric(data, offset, fds).GenericRead?
    ensures var g := ReadGeneric(data, offset, fds);
      var h := ReadGeneric(data + more, offset, DescriptorsOf(g.args.values) + rest);
      && h.GenericRead? && h.objectId == g.objectId && h.method_ == g.method_
      && h.args.values == g.args.values && h.args.end == g.args.end && h.args.rest == rest
  {
    hide ReadGeneric, Agree, DescriptorsOf;
    ExtensionAgrees(data, more, |data|);
    ReadGenericAgree(data, 0, data + more, |data|, offset, fds, rest);
  }
}
