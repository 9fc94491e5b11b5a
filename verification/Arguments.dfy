/** The argument grammar of a generic message: what `call` writes after the header, and
    the reference reading of it against which the three cursor loops are proved. */
module Arguments {
  import opened Bytes
  import opened VarInt

  /** GenericProtocolMessage.cpp rejects arrays of this many elements or more. */
  const MAX_ELEMENTS: nat := 10000

  /** One argument. A float is its raw 32-bit word; file descriptors travel outside the bytes. */
  datatype Value =
    | Word(magic: byte, w: u32)
    | Str(s: Text)
    | Fd(fd: int)
    | Words(elem: byte, ws: seq<u32>)
    | Strs(ss: seq<Text>)
    | Fds(fds: seq<int>)

  /** What `call` can send and every reader accepts. */
  predicate Sendable(v: Value) {
    match v
    case Word(m, _) => IsWord(m)
    case Str(s) => |s| < LIMIT
    case Fd(_) => true
    case Words(m, ws) => IsWord(m) && |ws| < MAX_ELEMENTS
    case Strs(ss) => |ss| < MAX_ELEMENTS && ShortTexts(ss)
    case Fds(fds) => |fds| < MAX_ELEMENTS
  }

  predicate ShortTexts(ss: seq<Text>) {
    forall k :: 0 <= k < |ss| ==> |ss[k]| < LIMIT
  }

  predicate AllSendable(vs: seq<Value>) {
    forall v :: v in vs ==> Sendable(v)
  }

  /** The parameter codes of SMethod::params that an argument answers to. */
  function TypeCodes(v: Value): (t: seq<byte>)
    ensures 1 <= |t| <= 2
  {
    match v
    case Word(m, _) => [m]
    case Str(_) => [VARCHAR]
    case Fd(_) => [FD]
    case Words(m, _) => [ARRAY, m]
    case Strs(_) => [ARRAY, VARCHAR]
    case Fds(_) => [ARRAY, FD]
  }

  function EncodeText(s: Text): seq<byte> { Written(|s|) + s }

  function EncodeTexts(ss: seq<Text>): seq<byte> {
    if ss == [] then [] else EncodeText(ss[0]) + EncodeTexts(ss[1..])
  }

  function EncodeWords(ws: seq<u32>): seq<byte> {
    if ws == [] then [] else WordBytes(ws[0]) + EncodeWords(ws[1..])
  }

  function Encode(v: Value): seq<byte> {
    match v
    case Word(m, w) => [m] + WordBytes(w)
    case Str(s) => [VARCHAR] + EncodeText(s)
    case Fd(_) => [FD]
    case Words(m, ws) => [ARRAY, m] + (Written(|ws|) + EncodeWords(ws))
    case Strs(ss) => [ARRAY, VARCHAR] + (Written(|ss|) + EncodeTexts(ss))
    case Fds(fds) => [ARRAY, FD] + Written(|fds|)
  }

  /** The descriptors an argument puts on the control channel. */
  function Descriptors(v: Value): seq<int> {
    match v
    case Fd(fd) => [fd]
    case Fds(fds) => fds
    case _ => []
  }

  function EncodeAll(vs: seq<Value>): seq<byte> {
    if vs == [] then [] else Encode(vs[0]) + EncodeAll(vs[1..])
  }

  function DescriptorsOf(vs: seq<Value>): seq<int> {
    if vs == [] then [] else Descriptors(vs[0]) + DescriptorsOf(vs[1..])
  }

  function TypesOf(vs: seq<Value>): seq<byte> {
    if vs == [] then [] else TypeCodes(vs[0]) + TypesOf(vs[1..])
  }

  // The reference reading.

  datatype TextRead = NoText | TextRead(s: Text, next: nat)
  datatype TextsRead = NoTexts | TextsRead(ss: seq<Text>, next: nat)
  datatype ValueRead = NoValue | ValueRead(value: Value, next: nat, rest: seq<int>)

  /** Arguments up to END: where each begins, where END stands, and what is left of the
      descriptor queue. */
  datatype Parsed = Malformed | Parsed(values: seq<Value>, cuts: seq<int>, end: nat, rest: seq<int>)

  function ReadText(data: seq<byte>, i: nat): (r: TextRead)
    ensures r.TextRead? ==> i < r.next <= |data|
  {
    match ReadVarInt(data, i)
    case NoNumber => NoText
    case Number(length, len) =>
      var start := i + len;
      if start + length <= |data| then TextRead(data[start..start + length], start + length) else NoText
  }

  function ReadTexts(data: seq<byte>, i: nat, count: nat): (r: TextsRead)
    requires i <= |data|
    ensures r.TextsRead? ==> i <= r.next <= |data| && |r.ss| == count
    decreases count
  {
    if count == 0 then TextsRead([], i) else
      match ReadText(data, i)
      case NoText => NoTexts
      case TextRead(s, next) => ConsText(s, ReadTexts(data, next, count - 1))
  }

  function ConsText(s: Text, tail: TextsRead): TextsRead {
    match tail
    case NoTexts => NoTexts
    case TextsRead(ss, next) => TextsRead([s] + ss, next)
  }

  function WordsAt(data: seq<byte>, i: nat, count: nat): (ws: seq<u32>)
    requires i + 4 * count <= |data|
    ensures |ws| == count
    decreases count
  {
    if count == 0 then [] else [WordAt(data, i)] + WordsAt(data, i + 4, count - 1)
  }

  function ReadArray(data: seq<byte>, i: nat, fds: seq<int>): (r: ValueRead)
    requires i < |data|
    ensures r.ValueRead? ==> i + 3 <= r.next <= |data|
  {
    if i + 1 >= |data| then NoValue else
      match ReadVarInt(data, i + 2)
      case NoNumber => NoValue
      case Number(count, len) =>
        if count >= MAX_ELEMENTS then NoValue
        else ReadElements(data, i + 2 + len, data[i + 1], count, fds)
  }

  function ReadElements(data: seq<byte>, start: nat, elem: byte, count: nat, fds: seq<int>): (r: ValueRead)
    requires start <= |data|
    ensures r.ValueRead? ==> start <= r.next <= |data|
  {
    if IsWord(elem) then
      if start + 4 * count <= |data|
      then ValueRead(Words(elem, WordsAt(data, start, count)), start + 4 * count, fds)
      else NoValue
    else if elem == VARCHAR then
      match ReadTexts(data, start, count)
      case NoTexts => NoValue
      case TextsRead(ss, next) => ValueRead(Strs(ss), next, fds)
    else if elem == FD && count <= |fds| then ValueRead(Fds(fds[..count]), start, fds[count..])
    else NoValue
  }

  function ReadValue(data: seq<byte>, i: nat, fds: seq<int>): (r: ValueRead)
    requires i < |data|
    ensures r.ValueRead? ==> i < r.next <= |data|
  {
    var magic := data[i];
    if IsWord(magic) then
      if i + 5 <= |data| then ValueRead(Word(magic, WordAt(data, i + 1)), i + 5, fds) else NoValue
    else if magic == VARCHAR then
      match ReadText(data, i + 1)
      case NoText => NoValue
      case TextRead(s, next) => ValueRead(Str(s), next, fds)
    else if magic == FD then
      if fds == [] then NoValue else ValueRead(Fd(fds[0]), i + 1, fds[1..])
    else if magic == ARRAY then ReadArray(data, i, fds)
    else NoValue
  }

  function ParseArgs(data: seq<byte>, i: nat, fds: seq<int>): (r: Parsed)
    ensures r.Parsed? ==> |r.cuts| == |r.values| && i <= r.end < |data|
    decreases |data| - i
  {
    if i >= |data| then Malformed
    else if data[i] == END then Parsed([], [], i, fds)
    else
      match ReadValue(data, i, fds)
      case NoValue => Malformed
      case ValueRead(v, next, rest) => Prepend([v], [i], ParseArgs(data, next, rest))
  }

  function Prepend(vs: seq<Value>, cuts: seq<int>, tail: Parsed): Parsed {
    match tail
    case Malformed => Malformed
    case Parsed(values, tailCuts, end, rest) => Parsed(vs + values, cuts + tailCuts, end, rest)
  }

  lemma PrependPrepend(vs: seq<Value>, cuts: seq<int>, v: Value, cut: int, tail: Parsed)
    ensures Prepend(vs, cuts, Prepend([v], [cut], tail)) == Prepend(vs + [v], cuts + [cut], tail)
  {
    if tail.Parsed? {
      Assoc(vs, [v], tail.values);
      Assoc(cuts, [cut], tail.cuts);
    }
  }

  // Reading what was written.

  lemma ReadTextEncoded(data: seq<byte>, i: nat, s: Text)
    requires |s| < LIMIT && At(data, i, EncodeText(s))
    ensures ReadText(data, i) == TextRead(s, i + |EncodeText(s)|)
  {
    AtAppend(data, i, Written(|s|), s);
    ReadEncoded(data, i, |s|);
    AtSlice(data, i + |Written(|s|)|, s);
  }

  lemma {:induction false} ReadTextsEncoded(data: seq<byte>, i: nat, ss: seq<Text>)
    requires ShortTexts(ss) && At(data, i, EncodeTexts(ss))
    ensures ReadTexts(data, i, |ss|) == TextsRead(ss, i + |EncodeTexts(ss)|)
    decreases |ss|
  {
    hide At, ReadText, EncodeText;
    if ss == [] {
    } else {
      var s, tail := ss[0], ss[1..];
      var next := ReadFirstText(data, i, ss);
      ReadTextsEncoded(data, next, tail);
      JoinTexts(data, i, |tail|, s, next);
      assert [s] + tail == ss;
    }
  }

  lemma JoinTexts(data: seq<byte>, i: nat, count: nat, s: Text, next: nat)
    requires i <= |data| && ReadText(data, i) == TextRead(s, next)
    ensures ReadTexts(data, i, count + 1) == ConsText(s, ReadTexts(data, next, count))
  {}

  // Loops over strings: those read so far, and the reading of the others.

  function ConsTexts(done: seq<Text>, tail: TextsRead): TextsRead {
    match tail
    case NoTexts => NoTexts
    case TextsRead(ss, next) => TextsRead(done + ss, next)
  }

  lemma JoinNothing(t: TextsRead)
    ensures ConsTexts([], t) == t
  {}

  lemma ConsTextsStep(done: seq<Text>, data: seq<byte>, i: nat, count: nat)
    requires i <= |data| && count > 0
    ensures ConsTexts(done, ReadTexts(data, i, count)) ==
      match ReadText(data, i)
      case NoText => NoTexts
      case TextRead(s, next) => ConsTexts(done + [s], ReadTexts(data, next, count - 1))
  {
    hide ReadText;
    var t := ReadText(data, i);
    if t.TextRead? {
      var tail := ReadTexts(data, t.next, count - 1);
      if tail.TextsRead? {
        Assoc(done, [t.s], tail.ss);
      }
    }
  }

  lemma NothingLeft(done: seq<Text>, data: seq<byte>, i: nat)
    requires i <= |data|
    ensures ConsTexts(done, ReadTexts(data, i, 0)) == TextsRead(done, i)
  {
    assert done + [] == done;
  }

  lemma ReadFirstText(data: seq<byte>, i: nat, ss: seq<Text>) returns (next: nat)
    requires ss != [] && ShortTexts(ss) && At(data, i, EncodeTexts(ss))
    ensures ReadText(data, i) == TextRead(ss[0], next)
    ensures At(data, next, EncodeTexts(ss[1..]))
    ensures next + |EncodeTexts(ss[1..])| == i + |EncodeTexts(ss)|
  {
    hide At, Written, ReadText;
    AtAppend(data, i, EncodeText(ss[0]), EncodeTexts(ss[1..]));
    ReadTextEncoded(data, i, ss[0]);
    next := i + |EncodeText(ss[0])|;
  }

  lemma {:induction false} WordsAtEncoded(data: seq<byte>, i: nat, ws: seq<u32>)
    requires At(data, i, EncodeWords(ws))
    ensures |EncodeWords(ws)| == 4 * |ws| && WordsAt(data, i, |ws|) == ws
    decreases |ws|
  {
    WordsLength(ws);
    if ws == [] {
    } else {
      AtAppend(data, i, WordBytes(ws[0]), EncodeWords(ws[1..]));
      WordAtEncoded(data, i, ws[0]);
      WordsAtEncoded(data, i + 4, ws[1..]);
    }
  }

  lemma {:induction false} WordsLength(ws: seq<u32>)
    ensures |EncodeWords(ws)| == 4 * |ws|
  {
    if ws == [] {
    } else {
      WordsLength(ws[1..]);
    }
  }

  lemma ReadArrayHead(data: seq<byte>, i: nat, elem: byte, count: nat, body: seq<byte>,
      fds: seq<int>) returns (start: nat)
    requires count < MAX_ELEMENTS && At(data, i, [ARRAY, elem] + (Written(count) + body))
    ensures start <= |data| && At(data, start, body)
    ensures i < |data| && ReadValue(data, i, fds) == ReadElements(data, start, elem, count, fds)
    ensures start + |body| == i + |[ARRAY, elem] + (Written(count) + body)|
  {
    hide At, Written, ReadElements, ReadVarInt;
    AtAppend(data, i, [ARRAY, elem], Written(count) + body);
    AtAppend(data, i + 2, Written(count), body);
    AtIndex(data, i, [ARRAY, elem], 0);
    AtIndex(data, i, [ARRAY, elem], 1);
    ReadEncoded(data, i + 2, count);
    start := i + 2 + |Written(count)|;
  }

  lemma ReadWordEncoded(data: seq<byte>, i: nat, m: byte, w: u32, fds: seq<int>)
    requires IsWord(m) && At(data, i, [m] + WordBytes(w))
    ensures i < |data| && ReadValue(data, i, fds) == ValueRead(Word(m, w), i + 5, fds)
  {
    AtAppend(data, i, [m], WordBytes(w));
    AtIndex(data, i, [m], 0);
    WordAtEncoded(data, i + 1, w);
  }

  lemma ReadStrEncoded(data: seq<byte>, i: nat, s: Text, fds: seq<int>)
    requires |s| < LIMIT && At(data, i, [VARCHAR] + EncodeText(s))
    ensures i < |data| && ReadValue(data, i, fds) == ValueRead(Str(s), i + 1 + |EncodeText(s)|, fds)
  {
    AtAppend(data, i, [VARCHAR], EncodeText(s));
    AtIndex(data, i, [VARCHAR], 0);
    ReadTextEncoded(data, i + 1, s);
  }

  lemma ReadWordsEncoded(data: seq<byte>, i: nat, m: byte, ws: seq<u32>, fds: seq<int>)
    requires Sendable(Words(m, ws)) && At(data, i, Encode(Words(m, ws))) && i < |data|
    ensures ReadValue(data, i, fds) == ValueRead(Words(m, ws), i + |Encode(Words(m, ws))|, fds)
  {
    var start := ReadArrayHead(data, i, m, |ws|, EncodeWords(ws), fds);
    WordsAtEncoded(data, start, ws);
  }

  lemma ReadStrsEncoded(data: seq<byte>, i: nat, ss: seq<Text>, fds: seq<int>)
    requires Sendable(Strs(ss)) && At(data, i, Encode(Strs(ss))) && i < |data|
    ensures ReadValue(data, i, fds) == ValueRead(Strs(ss), i + |Encode(Strs(ss))|, fds)
  {
    var start := ReadArrayHead(data, i, VARCHAR, |ss|, EncodeTexts(ss), fds);
    ReadTextsEncoded(data, start, ss);
  }

  lemma ReadFdsEncoded(data: seq<byte>, i: nat, l: seq<int>, more: seq<int>)
    requires Sendable(Fds(l)) && At(data, i, Encode(Fds(l))) && i < |data|
    ensures ReadValue(data, i, l + more) == ValueRead(Fds(l), i + |Encode(Fds(l))|, more)
  {
    assert Encode(Fds(l)) == [ARRAY, FD] + (Written(|l|) + []);
    var start := ReadArrayHead(data, i, FD, |l|, [], l + more);
    assert (l + more)[..|l|] == l && (l + more)[|l|..] == more;
  }

  /** One argument is read back exactly, with exactly its own descriptors. */
  lemma ReadValueEncoded(data: seq<byte>, i: nat, v: Value, more: seq<int>)
    requires Sendable(v) && At(data, i, Encode(v)) && i < |data|
    ensures ReadValue(data, i, Descriptors(v) + more) == ValueRead(v, i + |Encode(v)|, more)
  {
    if !v.Fd? && !v.Fds? {
      assert Descriptors(v) + more == more;
    }
    match v
    case Word(m, w) => ReadWordEncoded(data, i, m, w, more);
    case Str(s) => ReadStrEncoded(data, i, s, more);
    case Fd(fd) => AtIndex(data, i, [FD], 0);
    case Words(m, ws) => ReadWordsEncoded(data, i, m, ws, more);
    case Strs(ss) => ReadStrsEncoded(data, i, ss, more);
    case Fds(l) => ReadFdsEncoded(data, i, l, more);
  }

  /** The arguments are read back exactly, and the queue left is what stood behind them. */
  lemma {:induction false} ParseArgsEncoded(data: seq<byte>, i: nat, vs: seq<Value>, more: seq<int>)
    returns (cuts: seq<int>)
    requires AllSendable(vs) && At(data, i, EncodeAll(vs) + [END])
    ensures ParseArgs(data, i, DescriptorsOf(vs) + more) == Parsed(vs, cuts, i + |EncodeAll(vs)|, more)
    decreases |vs|
  {
    if vs == [] {
      AtIndex(data, i, EncodeAll(vs) + [END], 0);
      assert DescriptorsOf(vs) + more == more;
      cuts := [];
    } else {
      var tail := vs[1..];
      var next := ParseFirst(data, i, vs, more);
      cuts := ParseArgsEncoded(data, next, tail, more);
      assert [vs[0]] + tail == vs;
      cuts := [i] + cuts;
    }
  }

  lemma ParseFirst(data: seq<byte>, i: nat, vs: seq<Value>, more: seq<int>) returns (next: nat)
    requires vs != [] && AllSendable(vs) && At(data, i, EncodeAll(vs) + [END])
    ensures At(data, next, EncodeAll(vs[1..]) + [END])
    ensures next + |EncodeAll(vs[1..])| == i + |EncodeAll(vs)|
    ensures ParseArgs(data, i, DescriptorsOf(vs) + more)
      == Prepend([vs[0]], [i], ParseArgs(data, next, DescriptorsOf(vs[1..]) + more))
  {
    var left := DescriptorsOf(vs[1..]) + more;
    next := EncodedHead(data, i, vs[0], EncodeAll(vs[1..]));
    assert DescriptorsOf(vs) + more == Descriptors(vs[0]) + left by {
      Assoc(Descriptors(vs[0]), DescriptorsOf(vs[1..]), more);
    }
    FirstByte(data, i, vs[0]);
    ReadValueEncoded(data, i, vs[0], left);
    JoinArgs(data, i, Descriptors(vs[0]) + left, vs[0], next, left);
  }

  lemma EncodedHead(data: seq<byte>, i: nat, v: Value, tail: seq<byte>) returns (next: nat)
    requires At(data, i, Encode(v) + tail + [END])
    ensures next == i + |Encode(v)| && At(data, i, Encode(v)) && At(data, next, tail + [END])
  {
    Assoc(Encode(v), tail, [END]);
    AtAppend(data, i, Encode(v), tail + [END]);
    next := i + |Encode(v)|;
  }

  /** An encoded argument starts with its first type code, never with END. */
  lemma FirstByte(data: seq<byte>, i: nat, v: Value)
    requires Sendable(v) && At(data, i, Encode(v))
    ensures i < |data| && data[i] == TypeCodes(v)[0] != END
  {
    assert Encode(v)[0] == TypeCodes(v)[0];
    AtIndex(data, i, Encode(v), 0);
  }

  // What any accepted bytes satisfy.

  /** The queue is split, never reordered, and the type codes stand on the wire. */
  lemma ReadValueSound(data: seq<byte>, i: nat, fds: seq<int>)
    requires i < |data| && ReadValue(data, i, fds).ValueRead?
    ensures var r := ReadValue(data, i, fds);
      && fds == Descriptors(r.value) + r.rest
      && data[i] == TypeCodes(r.value)[0] != END
      && (data[i] == ARRAY <==> |TypeCodes(r.value)| == 2)
      && (data[i] == ARRAY ==> i + 1 < |data| && data[i + 1] == TypeCodes(r.value)[1])
  {
    var r := ReadValue(data, i, fds);
    if data[i] == ARRAY {
      ReadArraySound(data, i, fds);
    } else if data[i] == FD {
      assert fds == [fds[0]] + fds[1..];
    } else {
      assert [] + fds == fds;
    }
  }

  lemma ReadArraySound(data: seq<byte>, i: nat, fds: seq<int>)
    requires i < |data| && ReadArray(data, i, fds).ValueRead?
    ensures var r := ReadArray(data, i, fds);
      && fds == Descriptors(r.value) + r.rest
      && i + 1 < |data| && TypeCodes(r.value) == [ARRAY, data[i + 1]]
  {
    var n := ReadVarInt(data, i + 2);
    var r := ReadArray(data, i, fds);
    if IsWord(data[i + 1]) || data[i + 1] == VARCHAR {
      assert [] + fds == fds;
    } else {
      assert fds == fds[..n.value] + fds[n.value..];
    }
  }

  /** Every descriptor taken from the queue belongs to one of the arguments, in order. */
  lemma {:induction false} ParseArgsFds(data: seq<byte>, i: nat, fds: seq<int>)
    requires ParseArgs(data, i, fds).Parsed?
    ensures var p := ParseArgs(data, i, fds); fds == DescriptorsOf(p.values) + p.rest
    decreases |data| - i
  {
    var p := ParseArgs(data, i, fds);
    if data[i] == END {
      assert DescriptorsOf([]) + fds == fds;
    } else {
      var v, next, left, tail, tailCuts := SplitArgs(data, i, fds, p.values, p.cuts, p.end, p.rest);
      ReadValueSound(data, i, fds);
      ParseArgsFds(data, next, left);
      DescriptorsCons(v, tail, p.rest);
    }
  }

  lemma {:induction false} ReadTextsShort(data: seq<byte>, i: nat, count: nat, ss: seq<Text>, next: nat)
    requires i <= |data| && ReadTexts(data, i, count) == TextsRead(ss, next)
    ensures ShortTexts(ss)
    decreases count
  {
    if count > 0 {
      var s, mid, tail := SplitTexts(data, i, count, ss, next);
      ReadVarIntBound(data, i);
      ReadTextsShort(data, mid, count - 1, tail, next);
    }
  }

  /** Whatever the parser accepts is an argument that could have been sent. */
  lemma ReadValueSendable(data: seq<byte>, i: nat, fds: seq<int>)
    requires i < |data| && ReadValue(data, i, fds).ValueRead?
    ensures Sendable(ReadValue(data, i, fds).value)
  {
    if data[i] == VARCHAR {
      ReadVarIntBound(data, i + 1);
    } else if data[i] == ARRAY {
      var count := ReadVarInt(data, i + 2);
      var start := i + 2 + count.len;
      if data[i + 1] == VARCHAR {
        var ts := ReadTexts(data, start, count.value);
        ReadTextsShort(data, start, count.value, ts.ss, ts.next);
      }
    }
  }

  lemma {:induction false} ParseArgsSendable(data: seq<byte>, i: nat, fds: seq<int>)
    requires ParseArgs(data, i, fds).Parsed?
    ensures AllSendable(ParseArgs(data, i, fds).values)
    decreases |data| - i
  {
    var p := ParseArgs(data, i, fds);
    if data[i] != END {
      var v, next, left, tail, tailCuts := SplitArgs(data, i, fds, p.values, p.cuts, p.end, p.rest);
      ReadValueSendable(data, i, fds);
      ParseArgsSendable(data, next, left);
    }
  }

  lemma Assoc<T>(a: seq<T>, b: seq<T>, c: seq<T>)
    ensures a + (b + c) == a + b + c
  {}

  // A reading depends only on the bytes and the descriptors it consumed: a and b agree on
  // n bytes, from a's position d on.

  lemma ReadTextAgree(a: seq<byte>, d: nat, b: seq<byte>, n: nat, j: nat, s: Text, next: nat)
    requires Agree(a, d, b, n) && ReadText(a, d + j) == TextRead(s, next) && next <= d + n
    ensures ReadText(b, j) == TextRead(s, next - d)
  {
    hide Agree, ReadGroups;
    ReadGroupsAgree(a, d, b, n, j, 4);
    var r := ReadVarInt(a, d + j);
    var start := j + r.len;
    AgreeSlice(a, d, b, n, start, start + r.value);
  }

  lemma {:induction false} ReadTextsAgree(a: seq<byte>, d: nat, b: seq<byte>, n: nat, j: nat, count: nat,
      ss: seq<Text>, next: nat)
    requires Agree(a, d, b, n) && j <= n && d + n <= |a| && n <= |b|
    requires ReadTexts(a, d + j, count) == TextsRead(ss, next) && next <= d + n
    ensures d + j <= next && ReadTexts(b, j, count) == TextsRead(ss, next - d)
    decreases count
  {
    hide Agree, ReadText;
    if count > 0 {
      var s, mid, tail := SplitTexts(a, d + j, count, ss, next);
      ReadTextAgree(a, d, b, n, j, s, mid);
      ReadTextsAgree(a, d, b, n, mid - d, count - 1, tail, next);
      JoinTexts(b, j, count - 1, s, mid - d);
    }
  }

  lemma SplitTexts(data: seq<byte>, i: nat, count: nat, ss: seq<Text>, next: nat) returns (s: Text, mid: nat,
      tail: seq<Text>)
    requires i <= |data| && count > 0 && ReadTexts(data, i, count) == TextsRead(ss, next)
    ensures i < mid <= next <= |data| && ReadText(data, i) == TextRead(s, mid)
    ensures ReadTexts(data, mid, count - 1) == TextsRead(tail, next) && ss == [s] + tail
  {
    var t := ReadText(data, i);
    s, mid := t.s, t.next;
    tail := ReadTexts(data, mid, count - 1).ss;
  }

  lemma {:induction false} WordsAtAgree(a: seq<byte>, d: nat, b: seq<byte>, n: nat, j: nat, count: nat)
    requires Agree(a, d, b, n) && j + 4 * count <= n && d + n <= |a| && n <= |b|
    ensures WordsAt(b, j, count) == WordsAt(a, d + j, count)
    decreases count
  {
    if count > 0 {
      WordAtAgree(a, d, b, n, j);
      WordsAtAgree(a, d, b, n, j + 4, count - 1);
    }
  }

  lemma ReadElementsAgree(a: seq<byte>, d: nat, b: seq<byte>, n: nat, j: nat, elem: byte, count: nat, fds: seq<int>,
      v: Value, next: nat, left: seq<int>, rest: seq<int>)
    requires Agree(a, d, b, n) && j <= n && d + n <= |a| && n <= |b|
    requires ReadElements(a, d + j, elem, count, fds) == ValueRead(v, next, left) && next <= d + n
    ensures d + j <= next
    ensures ReadElements(b, j, elem, count, Descriptors(v) + rest) == ValueRead(v, next - d, rest)
  {
    if IsWord(elem) {
      assert [] + rest == rest;
      WordsAtAgree(a, d, b, n, j, count);
    } else if elem == VARCHAR {
      assert [] + rest == rest;
      ReadTextsAgree(a, d, b, n, j, count, v.ss, next);
    } else {
      var own := fds[..count];
      assert (own + rest)[..count] == own && (own + rest)[count..] == rest;
    }
  }

  lemma ReadArrayAgree(a: seq<byte>, d: nat, b: seq<byte>, n: nat, j: nat, fds: seq<int>, v: Value, next: nat,
      left: seq<int>, rest: seq<int>)
    requires Agree(a, d, b, n) && j < n && d + n <= |a| && n <= |b|
    requires ReadArray(a, d + j, fds) == ValueRead(v, next, left) && next <= d + n
    ensures d + j < next
    ensures ReadArray(b, j, Descriptors(v) + rest) == ValueRead(v, next - d, rest)
  {
    hide ReadElements, Descriptors, Agree, ReadGroups;
    var r := ReadVarInt(a, d + j + 2);
    AgreeAt(a, d, b, n, j + 1);
    ReadGroupsAgree(a, d, b, n, j + 2, 4);
    ReadElementsAgree(a, d, b, n, j + 2 + r.len, a[d + j + 1], r.value, fds, v, next, left, rest);
  }

  lemma ReadValueAgree(a: seq<byte>, d: nat, b: seq<byte>, n: nat, j: nat, fds: seq<int>, v: Value, next: nat,
      left: seq<int>, rest: seq<int>)
    requires Agree(a, d, b, n) && j < n && d + n <= |a| && n <= |b|
    requires ReadValue(a, d + j, fds) == ValueRead(v, next, left) && next <= d + n
    ensures d + j < next
    ensures ReadValue(b, j, Descriptors(v) + rest) == ValueRead(v, next - d, rest)
  {
    AgreeAt(a, d, b, n, j);
    if a[d + j] == ARRAY {
      ReadArrayAgree(a, d, b, n, j, fds, v, next, left, rest);
    } else if a[d + j] == VARCHAR {
      assert [] + rest == rest;
      ReadTextAgree(a, d, b, n, j + 1, v.s, next);
    } else if a[d + j] != FD {
      assert [] + rest == rest;
      WordAtAgree(a, d, b, n, j + 1);
    }
  }

  /** The first argument and the reading of the others. */
  lemma SplitArgs(data: seq<byte>, i: nat, fds: seq<int>, vs: seq<Value>, cuts: seq<int>, end: nat, rest: seq<int>)
    returns (v: Value, next: nat, left: seq<int>, tail: seq<Value>, tailCuts: seq<int>)
    requires ParseArgs(data, i, fds) == Parsed(vs, cuts, end, rest) && i < |data| && data[i] != END
    ensures i < next <= end && ReadValue(data, i, fds) == ValueRead(v, next, left)
    ensures ParseArgs(data, next, left) == Parsed(tail, tailCuts, end, rest)
    ensures vs == [v] + tail && cuts == [i] + tailCuts
  {
    var r := ReadValue(data, i, fds);
    v, next, left := r.value, r.next, r.rest;
    var t := ParseArgs(data, next, left);
    tail, tailCuts := t.values, t.cuts;
  }

  lemma JoinArgs(data: seq<byte>, i: nat, fds: seq<int>, v: Value, next: nat, left: seq<int>)
    requires i < |data| && data[i] != END && ReadValue(data, i, fds) == ValueRead(v, next, left)
    ensures ParseArgs(data, i, fds) == Prepend([v], [i], ParseArgs(data, next, left))
  {}

  lemma DescriptorsCons(v: Value, vs: seq<Value>, rest: seq<int>)
    ensures DescriptorsOf([v] + vs) + rest == Descriptors(v) + (DescriptorsOf(vs) + rest)
  {
    assert ([v] + vs)[1..] == vs;
    Assoc(Descriptors(v), DescriptorsOf(vs), rest);
  }

  /** Positions seen from d. */
  predicate Shifted(cuts: seq<int>, d: nat, moved: seq<int>) {
    |moved| == |cuts| && (cuts == [] || (cuts[0] == moved[0] + d && Shifted(cuts[1..], d, moved[1..])))
  }

  lemma ShiftedCons(cut: int, cuts: seq<int>, d: nat, j: int, moved: seq<int>)
    requires cut == j + d && Shifted(cuts, d, moved)
    ensures Shifted([cut] + cuts, d, [j] + moved)
  {
    assert ([cut] + cuts)[1..] == cuts && ([j] + moved)[1..] == moved;
  }

  /** The same bytes elsewhere, with other bytes behind them and other descriptors behind
      its own, parse to the same arguments at the same places. */
  lemma {:induction false} ParseArgsAgree(a: seq<byte>, d: nat, b: seq<byte>, n: nat, j: nat, fds: seq<int>,
                                          vs: seq<Value>, cuts: seq<int>, end: nat, left: seq<int>, rest: seq<int>)
    returns (moved: seq<int>)
    requires Agree(a, d, b, n) && ParseArgs(a, d + j, fds) == Parsed(vs, cuts, end, left) && end < d + n
    ensures d + j <= end && ParseArgs(b, j, DescriptorsOf(vs) + rest) == Parsed(vs, moved, end - d, rest)
    ensures Shifted(cuts, d, moved)
    decreases |vs|
  {
    if vs == [] {
      AgreeEnd(a, d, b, n, j, fds, cuts, end, left, rest);
      moved := [];
    } else {
      var v, next, queue, tail, tailCuts := AgreeStep(a, d, b, n, j, fds, vs, cuts, end, left, rest);
      moved := ParseArgsAgree(a, d, b, n, next, queue, tail, tailCuts, end, left, rest);
      ShiftedCons(d + j, tailCuts, d, j, moved);
      moved := [j] + moved;
    }
  }

  lemma AgreeEnd(a: seq<byte>, d: nat, b: seq<byte>, n: nat, j: nat, fds: seq<int>, cuts: seq<int>, end: nat,
      left: seq<int>, rest: seq<int>)
    requires Agree(a, d, b, n) && ParseArgs(a, d + j, fds) == Parsed([], cuts, end, left) && end < d + n
    ensures cuts == [] && end == d + j
    ensures ParseArgs(b, j, DescriptorsOf([]) + rest) == Parsed([], [], j, rest)
  {
    AgreeAt(a, d, b, n, j);
    assert DescriptorsOf([]) + rest == rest;
  }

  lemma AgreeStep(a: seq<byte>, d: nat, b: seq<byte>, n: nat, j: nat, fds: seq<int>,
                  vs: seq<Value>, cuts: seq<int>, end: nat, left: seq<int>, rest: seq<int>)
    returns (v: Value, next: nat, queue: seq<int>, tail: seq<Value>, tailCuts: seq<int>)
    requires Agree(a, d, b, n) && ParseArgs(a, d + j, fds) == Parsed(vs, cuts, end, left) && end < d + n
    requires vs != []
    ensures vs == [v] + tail && cuts == [d + j] + tailCuts
    ensures j < next && d + next <= end && ParseArgs(a, d + next, queue) == Parsed(tail, tailCuts, end, left)
    ensures ParseArgs(b, j, DescriptorsOf(vs) + rest)
      == Prepend([v], [j], ParseArgs(b, next, DescriptorsOf(tail) + rest))
  {
    assert d + n <= |a| && n <= |b| && j < n && a[d + j] != END;
    hide Agree, ParseArgs, ReadValue, DescriptorsOf, Descriptors, Prepend;
    var at: nat;
    v, at, queue, tail, tailCuts := SplitArgs(a, d + j, fds, vs, cuts, end, left);
    next := at - d;
    AgreeJoin(a, d, b, n, j, fds, v, next, queue, DescriptorsOf(tail) + rest);
    DescriptorsCons(v, tail, rest);
  }

  lemma AgreeJoin(a: seq<byte>, d: nat, b: seq<byte>, n: nat, j: nat, fds: seq<int>, v: Value, next: nat,
      left: seq<int>, rest: seq<int>)
    requires Agree(a, d, b, n) && j < n && d + n <= |a| && n <= |b| && a[d + j] != END
    requires ReadValue(a, d + j, fds) == ValueRead(v, d + next, left) && next <= n
    ensures ParseArgs(b, j, Descriptors(v) + rest) == Prepend([v], [j], ParseArgs(b, next, rest))
  {
    ReadValueAgree(a, d, b, n, j, fds, v, d + next, left, rest);
    AgreeAt(a, d, b, n, j);
    JoinArgs(b, j, Descriptors(v) + rest, v, next, rest);
  }
}
