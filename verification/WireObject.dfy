/** IWireObject: marshalling an outgoing call, and the two walks that check and decode an
    incoming one before its listener is called. */
module WireObject {
  import opened Bytes
  import opened VarInt
  import opened Arguments
  import opened Specs

  /** The limit `called` applies to arrays; one more element than the parser lets through. */
  const CALLED_MAX_ELEMENTS: nat := 10000

  datatype FfiType = NoType | Pointer | UInt32 | SInt32 | Float

  /** One entry of the call frame. A pointer stands for what it points to. */
  datatype Slot =
    | ObjectPtr
    | U32Slot(w: u32) | S32Slot(bits: u32) | FloatSlot(fbits: u32) | FdSlot(fd: int)
    | StrPtr(s: Text) | WordsPtr(ws: seq<u32>) | StrsPtr(ss: seq<Text>) | FdsPtr(fds: seq<int>)

  function FfiTypeFrom(magic: byte): FfiType {
    if magic == UINT || magic == OBJECT || magic == SEQ then UInt32
    else if magic == FD || magic == INT then SInt32
    else if magic == F32 then Float
    else if magic == VARCHAR || magic == ARRAY then Pointer
    else NoType
  }

  /** The types the check walk pushes for an argument: an array is pointer, then length. */
  function FfiTypes(v: Value): (t: seq<FfiType>)
    ensures |t| == |TypeCodes(v)|
  {
    [FfiTypeFrom(TypeCodes(v)[0])] + if |TypeCodes(v)| == 2 then [UInt32] else []
  }

  /** The values the decode walk pushes for an argument. */
  function Slots(v: Value): (s: seq<Slot>)
    ensures |s| == |TypeCodes(v)|
  {
    match v
    case Word(m, w) => [if m == INT then S32Slot(w) else if m == F32 then FloatSlot(w) else U32Slot(w)]
    case Str(s) => [StrPtr(s)]
    case Fd(fd) => [FdSlot(fd)]
    case Words(_, ws) => [WordsPtr(ws), U32Slot(Length(|ws|))]
    case Strs(ss) => [StrsPtr(ss), U32Slot(Length(|ss|))]
    case Fds(fds) => [FdsPtr(fds), U32Slot(Length(|fds|))]
  }

  /** The size_t array length stored in a uint32_t slot. */
  function Length(n: nat): u32 { n % 0x1_0000_0000 }

  function FfiTypesOf(vs: seq<Value>): (t: seq<FfiType>)
    ensures |t| == |TypesOf(vs)|
  {
    if vs == [] then [] else FfiTypes(vs[0]) + FfiTypesOf(vs[1..])
  }

  function SlotsOf(vs: seq<Value>): (s: seq<Slot>)
    ensures |s| == |TypesOf(vs)|
  {
    if vs == [] then [] else Slots(vs[0]) + SlotsOf(vs[1..])
  }

  /** libffi reads the value the way the type says. */
  predicate Describes(t: FfiType, s: Slot) {
    match s
    case U32Slot(_) => t == UInt32
    case S32Slot(_) => t == SInt32
    case FloatSlot(_) => t == Float
    case FdSlot(_) => t == SInt32
    case _ => t == Pointer
  }

  /** What becomes of an incoming call. */
  datatype Outcome = BadMethod | Ignored | BadSince | BadTypes | Delivered(frame: seq<Slot>)

  /** Value-level specification of `called`. Without a listener nothing is checked; with one,
      the wire may carry more arguments than the method has parameters, never fewer. */
  function CalledOutcome(methods: seq<Method>, listeners: set<nat>, version: nat, id: nat, vs: seq<Value>): Outcome {
    if id >= |methods| then BadMethod
    else if id !in listeners then Ignored
    else if methods[id].since > version then BadSince
    else if !(methods[id].Expected() <= TypesOf(vs)) then BadTypes
    else Delivered([ObjectPtr] + SlotsOf(vs)[..|methods[id].Expected()|])
  }

  // Lists of arguments.

  lemma {:induction false} TypesAppend(a: seq<Value>, b: seq<Value>)
    ensures TypesOf(a + b) == TypesOf(a) + TypesOf(b)
  {
    if a == [] {
      assert a + b == b;
    } else {
      assert (a + b)[1..] == a[1..] + b;
      TypesAppend(a[1..], b);
    }
  }

  lemma {:induction false} FfiTypesSnoc(vs: seq<Value>, v: Value)
    ensures FfiTypesOf(vs + [v]) == FfiTypesOf(vs) + FfiTypes(v)
  {
    if vs == [] {
      assert [v][1..] == [];
      assert FfiTypesOf([v]) == FfiTypes(v) + FfiTypesOf([]);
    } else {
      assert (vs + [v])[1..] == vs[1..] + [v];
      FfiTypesSnoc(vs[1..], v);
    }
  }

  lemma {:induction false} SlotsAppend(a: seq<Value>, b: seq<Value>)
    ensures SlotsOf(a + b) == SlotsOf(a) + SlotsOf(b)
  {
    if a == [] {
      assert a + b == b;
    } else {
      assert (a + b)[1..] == a[1..] + b;
      SlotsAppend(a[1..], b);
    }
  }

  lemma SlotsSnoc(vs: seq<Value>, v: Value)
    ensures SlotsOf(vs + [v]) == SlotsOf(vs) + Slots(v)
  {
    SlotsAppend(vs, [v]);
    assert [v][1..] == [];
    assert SlotsOf([v]) == Slots(v) + SlotsOf([]);
  }

  lemma TypesSnoc(vs: seq<Value>, v: Value)
    ensures TypesOf(vs + [v]) == TypesOf(vs) + TypeCodes(v)
  {
    TypesAppend(vs, [v]);
    assert [v][1..] == [];
    assert TypesOf([v]) == TypeCodes(v) + TypesOf([]);
  }

  /** The k-th type describes the k-th value. */
  lemma {:induction false} FrameAligned(vs: seq<Value>, k: nat)
    requires AllSendable(vs) && k < |TypesOf(vs)|
    ensures Describes(FfiTypesOf(vs)[k], SlotsOf(vs)[k])
  {
    var own := |TypeCodes(vs[0])|;
    if k >= own {
      FrameAligned(vs[1..], k - own);
    } else {
      assert Sendable(vs[0]);
    }
  }

  // Marshalling.

  /** The va_list supplies, for each parameter, an argument of its type. Codes that `call`
      does not marshal take none; an array of unsupported elements ends the call. */
  predicate Fits(params: seq<byte>, i: nat, args: seq<Value>)
    decreases |params| - i
  {
    if i >= |params| then args == []
    else if params[i] == ARRAY then
      i + 1 < |params| &&
      (Marshals(params[i + 1]) ==>
        args != [] && TypeCodes(args[0]) == [ARRAY, params[i + 1]] && Fits(params, i + 2, args[1..]))
    else if params[i] in {UINT, INT, OBJECT, F32, VARCHAR, FD} then
      args != [] && TypeCodes(args[0]) == [params[i]] && Fits(params, i + 1, args[1..])
    else Fits(params, i + 1, args)
  }

  /** Array element codes `call` supports. */
  predicate Marshals(elem: byte) {
    elem == UINT || elem == INT || elem == F32 || elem == OBJECT || elem == VARCHAR || elem == FD
  }

  /** No parameter is an array of unsupported elements. */
  predicate Marshallable(params: seq<byte>, i: nat)
    decreases |params| - i
  {
    if i >= |params| then true
    else if params[i] == ARRAY then i + 1 < |params| && Marshals(params[i + 1]) && Marshallable(params, i + 2)
    else Marshallable(params, i + 1)
  }

  method MarshalWords(data: seq<byte>, ws: seq<u32>) returns (r: seq<byte>)
    ensures r == data + EncodeWords(ws)
  {
    r := data;
    var j := 0;
    assert ws[0..] == ws;
    while j < |ws|
      invariant 0 <= j <= |ws|
      invariant r + EncodeWords(ws[j..]) == data + EncodeWords(ws)
    {
      assert ws[j..][1..] == ws[j + 1..];
      Assoc(r, WordBytes(ws[j]), EncodeWords(ws[j + 1..]));
      r := r + WordBytes(ws[j]);
      j := j + 1;
    }
  }

  method MarshalTexts(data: seq<byte>, ss: seq<Text>) returns (r: seq<byte>)
    ensures r == data + EncodeTexts(ss)
  {
    r := data;
    var j := 0;
    assert ss[0..] == ss;
    while j < |ss|
      invariant 0 <= j <= |ss|
      invariant r + EncodeTexts(ss[j..]) == data + EncodeTexts(ss)
    {
      assert ss[j..][1..] == ss[j + 1..];
      Assoc(r, EncodeText(ss[j]), EncodeTexts(ss[j + 1..]));
      var n := EncodeVarInt(|ss[j]|);
      Assoc(r, n, ss[j]);
      r := r + n + ss[j];
      j := j + 1;
    }
  }

  /** One array argument: codes, count, elements; descriptors go to the side list. */
  method MarshalArray(data: seq<byte>, fds: seq<int>, v: Value) returns (r: seq<byte>, f: seq<int>)
    requires |TypeCodes(v)| == 2
    ensures r == data + Encode(v) && f == fds + Descriptors(v)
  {
    r, f := data + TypeCodes(v), fds;
    var n: seq<byte>;
    match v
    case Words(_, ws) =>
      n := EncodeVarInt(|ws|);
      Assoc(data, TypeCodes(v), n + EncodeWords(ws));
      Assoc(r, n, EncodeWords(ws));
      r := MarshalWords(r + n, ws);
    case Strs(ss) =>
      n := EncodeVarInt(|ss|);
      Assoc(data, TypeCodes(v), n + EncodeTexts(ss));
      Assoc(r, n, EncodeTexts(ss));
      r := MarshalTexts(r + n, ss);
    case Fds(l) =>
      n := EncodeVarInt(|l|);
      Assoc(data, TypeCodes(v), n);
      r := r + n;
      f := f + l;
  }

  /** One argument of the marshalling switch. */
  method MarshalValue(data: seq<byte>, fds: seq<int>, v: Value) returns (r: seq<byte>, f: seq<int>)
    ensures r == data + Encode(v) && f == fds + Descriptors(v)
  {
    match v
    case Word(m, w) =>
      r, f := data + ([m] + WordBytes(w)), fds;
    case Str(s) =>
      var n := EncodeVarInt(|s|);
      r, f := data + ([VARCHAR] + (n + s)), fds;
    case Fd(fd) =>
      r, f := data + [FD], fds + [fd];
    case _ =>
      r, f := MarshalArray(data, fds, v);
  }

  /** The marshalling loop of `call`, over the parameters and the va_list together. It
      fails exactly on an array of unsupported elements. */
  method MarshalArgs(params: seq<byte>, args: seq<Value>) returns (ok: bool, data: seq<byte>, fds: seq<int>)
    requires Fits(params, 0, args)
    ensures ok <==> Marshallable(params, 0)
    ensures ok ==> data == EncodeAll(args) && fds == DescriptorsOf(args)
  {
    hide Encode, Descriptors;
    data, fds := [], [];
    var i, va := 0, args;
    while i < |params|
      invariant 0 <= i <= |params|
      invariant Fits(params, i, va) && (Marshallable(params, i) <==> Marshallable(params, 0))
      invariant data + EncodeAll(va) == EncodeAll(args)
      invariant fds + DescriptorsOf(va) == DescriptorsOf(args)
      decreases |params| - i
    {
      var code := params[i];
      if code == ARRAY {
        i := i + 1;
        if !Marshals(params[i]) {
          return false, data, fds;
        }
      }
      if code in {UINT, INT, OBJECT, F32, VARCHAR, FD, ARRAY} {
        Assoc(data, Encode(va[0]), EncodeAll(va[1..]));
        Assoc(fds, Descriptors(va[0]), DescriptorsOf(va[1..]));
        data, fds := MarshalValue(data, fds, va[0]);
        va := va[1..];
      }
      i := i + 1;
    }
    ok := true;
  }

  // The type-check walk.

  lemma NextSkipped(data: seq<byte>, i: nat, count: nat)
    requires i <= |data| && count > 0 && ReadTexts(data, i, count).TextsRead?
    ensures var r := ReadVarInt(data, i);
      && r.Number? && i + r.value + r.len <= |data|
      && ReadTexts(data, i + r.value + r.len, count - 1).TextsRead?
      && ReadTexts(data, i + r.value + r.len, count - 1).next == ReadTexts(data, i, count).next
  {
    hide ReadVarInt;
  }

  /** If the reference reading of count strings at start succeeds, so does that of the last
      `left` of them at next, and it ends at the same place. */
  ghost predicate OnCourse(data: seq<byte>, start: nat, count: nat, next: nat, left: nat)
    requires start <= |data|
  {
    ReadTexts(data, start, count).TextsRead? ==>
      && next <= |data| && ReadTexts(data, next, left).TextsRead?
      && ReadTexts(data, next, left).next == ReadTexts(data, start, count).next
  }

  lemma CourseKept(data: seq<byte>, start: nat, count: nat, next: nat, left: nat)
    requires start <= |data| && OnCourse(data, start, count, next, left) && left > 0
    ensures ReadTexts(data, start, count).TextsRead? ==> next <= |data| && ReadVarInt(data, next).Number?
    ensures var r := ReadVarInt(data, next);
      r.Number? ==> OnCourse(data, start, count, next + r.value + r.len, left - 1)
  {
    hide ReadTexts, ReadVarInt;
    if ReadTexts(data, start, count).TextsRead? {
      NextSkipped(data, next, left);
    }
  }

  lemma CourseEnds(data: seq<byte>, start: nat, count: nat, next: nat)
    requires start <= |data| && OnCourse(data, start, count, next, 0)
    ensures ReadTexts(data, start, count).TextsRead? ==> next == ReadTexts(data, start, count).next
  {
  }

  /** Strings of an array, with the walk's own overrun check. */
  method SkipTexts(data: seq<byte>, start: nat, count: nat) returns (ok: bool, next: nat)
    requires start <= |data|
    ensures ok ==> next >= start
    ensures ReadTexts(data, start, count).TextsRead? ==> ok && next == ReadTexts(data, start, count).next
  {
    next := start;
    var j := 0;
    assert OnCourse(data, start, count, next, count);
    hide ReadTexts, ReadVarInt, OnCourse;
    while j < count
      invariant 0 <= j <= count && start <= next && OnCourse(data, start, count, next, count - j)
    {
      CourseKept(data, start, count, next, count - j);
      if next > |data| {
        return false, next;
      }
      var r := ParseVarInt(data, next);
      if r == NoNumber {
        return false, next;
      }
      next := next + r.value + r.len;
      j := j + 1;
    }
    CourseEnds(data, start, count, next);
    ok := true;
  }

  /** The ARRAY case of the walk, with its own size limit. */
  method SkipArray(data: seq<byte>, i: nat, ghost fds: seq<int>) returns (ok: bool, next: nat)
    requires i < |data|
    ensures ok ==> next > i
    ensures ReadArray(data, i, fds).ValueRead? ==> ok && next == ReadArray(data, i, fds).next
  {
    next := i;
    if i + 1 >= |data| {
      return false, next;
    }
    var count := ParseVarInt(data, i + 2);
    if count == NoNumber || count.value > CALLED_MAX_ELEMENTS {
      return false, next;
    }
    var elem := data[i + 1];
    next := i + 2 + count.len;
    ok := true;
    if IsWord(elem) {
      next := next + 4 * count.value;
    } else if elem == VARCHAR {
      ok, next := SkipTexts(data, next, count.value);
    } else if elem != FD {
      ok := false;
    }
  }

  /** How far the walk moves over one parameter whose code it has compared. */
  method SkipValue(data: seq<byte>, i: nat, ghost fds: seq<int>) returns (ok: bool, next: nat)
    requires i < |data| && data[i] != END
    ensures ok ==> next > i
    ensures ReadValue(data, i, fds).ValueRead? ==> ok && next == ReadValue(data, i, fds).next
  {
    var magic := data[i];
    next, ok := i, true;
    if magic == FD {
      next := i + 1;
    } else if IsWord(magic) {
      next := i + 5;
    } else if magic == VARCHAR {
      var r := ParseVarInt(data, i + 1);
      if r == NoNumber {
        return false, next;
      }
      next := i + r.value + r.len + 1;
    } else if magic == ARRAY {
      ok, next := SkipArray(data, i, fds);
    } else {
      ok := false;
    }
  }

  lemma NotPrefix(params: seq<byte>, i: nat, front: seq<byte>, own: seq<byte>, others: seq<byte>, k: nat)
    requires i + k < |params| && front == params[..i] && k < |own| && params[i + k] != own[k]
    ensures !(params <= front + (own + others))
  {
    assert (front + (own + others))[i + k] == (own + others)[k] == own[k];
  }

  /** A parameter that the next argument does not answer to: the types do not match. */
  lemma Mismatch(params: seq<byte>, i: nat, done: seq<Value>, tail: seq<Value>, k: nat)
    requires i < |params| && TypesOf(done) == params[..i]
    requires tail == [] || (i + k < |params| && k < |TypeCodes(tail[0])| && params[i + k] != TypeCodes(tail[0])[k])
    ensures !(params <= TypesOf(done + tail))
  {
    hide TypeCodes;
    TypesAppend(done, tail);
    if tail == [] {
      assert TypesOf(done) + TypesOf(tail) == params[..i];
    } else {
      NotPrefix(params, i, TypesOf(done), TypeCodes(tail[0]), TypesOf(tail[1..]), k);
    }
  }

  /** Arguments checked so far answer to the parameters so far. */
  lemma CheckedOne(params: seq<byte>, i: nat, done: seq<Value>, v: Value)
    requires i < |params| && TypesOf(done) == params[..i] && params[i] == TypeCodes(v)[0]
    requires |TypeCodes(v)| == 2 ==> i + 1 < |params| && params[i + 1] == TypeCodes(v)[1]
    ensures i + |TypeCodes(v)| <= |params| && TypesOf(done + [v]) == params[..i + |TypeCodes(v)|]
  {
    TypesSnoc(done, v);
  }

  /** One step of a walk: the argument at the cursor and the reading behind it. */
  lemma WalkStep(data: seq<byte>, i: nat, fds: seq<int>, done: seq<Value>, tail: seq<Value>, cuts: seq<int>,
      tailCuts: seq<int>, end: nat, rest: seq<int>)
    returns (v: Value, next: nat, left: seq<int>, tail': seq<Value>, tailCuts': seq<int>)
    requires i < |data| && data[i] != END && ParseArgs(data, i, fds) == Parsed(tail, tailCuts, end, rest)
    ensures tail == [v] + tail' && i < next <= end && ReadValue(data, i, fds) == ValueRead(v, next, left)
    ensures ParseArgs(data, next, left) == Parsed(tail', tailCuts', end, rest)
    ensures done + [v] + tail' == done + tail && cuts + [i] + tailCuts' == cuts + tailCuts
    ensures data[i] == TypeCodes(v)[0] && (data[i] == ARRAY <==> |TypeCodes(v)| == 2)
    ensures data[i] == ARRAY ==> i + 1 < |data| && data[i + 1] == TypeCodes(v)[1]
    ensures fds == Descriptors(v) + left
  {
    v, next, left, tail', tailCuts' := SplitArgs(data, i, fds, tail, tailCuts, end, rest);
    ReadValueSound(data, i, fds);
    Assoc(done, [v], tail');
    Assoc(cuts, [i], tailCuts');
  }

  lemma WalkEnd(data: seq<byte>, i: nat, fds: seq<int>, tail: seq<Value>, tailCuts: seq<int>, end: nat, rest: seq<int>)
    requires ParseArgs(data, i, fds) == Parsed(tail, tailCuts, end, rest)
    ensures i < |data| && (data[i] == END <==> tail == [])
    ensures tail == [] ==> i == end && fds == rest && tailCuts == []
  {}

  /** A walk over an accepted payload: the arguments passed and where they stood, the reading
      of the others, and the descriptors that are theirs. */
  datatype Walk = Walk(done: seq<Value>, stops: seq<int>, tail: seq<Value>, cuts: seq<int>, queue: seq<int>)

  ghost predicate WalkAt(data: seq<byte>, p: Parsed, i: nat, w: Walk) {
    && p.Parsed? && ParseArgs(data, i, w.queue) == Parsed(w.tail, w.cuts, p.end, p.rest)
    && w.done + w.tail == p.values && w.stops + w.cuts == p.cuts && |w.stops| == |w.done|
  }

  lemma WalkBegins(data: seq<byte>, fds: seq<int>, p: Parsed)
    requires p.Parsed? && ParseArgs(data, 0, fds) == p
    ensures WalkAt(data, p, 0, Walk([], [], p.values, p.cuts, fds))
  {
    assert [] + p.values == p.values && [] + p.cuts == p.cuts;
  }

  lemma WalkNext(data: seq<byte>, p: Parsed, i: nat, w: Walk) returns (v: Value, next: nat, w': Walk)
    requires WalkAt(data, p, i, w) && i < |data| && data[i] != END
    ensures i < next && ReadValue(data, i, w.queue) == ValueRead(v, next, w'.queue) && WalkAt(data, p, next, w')
    ensures w'.done == w.done + [v] && w'.stops == w.stops + [i]
    ensures data[i] == TypeCodes(v)[0] && (data[i] == ARRAY <==> |TypeCodes(v)| == 2)
    ensures data[i] == ARRAY ==> i + 1 < |data| && data[i + 1] == TypeCodes(v)[1]
  {
    hide ParseArgs, ReadValue, TypeCodes;
    var left, tail, cuts;
    v, next, left, tail, cuts := WalkStep(data, i, w.queue, w.done, w.tail, w.stops, w.cuts, p.end, p.rest);
    w' := Walk(w.done + [v], w.stops + [i], tail, cuts, left);
  }

  /** END stands exactly where no argument is left. */
  lemma WalkPlace(data: seq<byte>, p: Parsed, i: nat, w: Walk)
    requires WalkAt(data, p, i, w)
    ensures i < |data| && (data[i] == END <==> w.tail == [])
    ensures w.done <= p.values && w.stops <= p.cuts && |w.stops| == |w.done|
    ensures w.tail == [] ==> w.done == p.values && w.stops == p.cuts
  {
    WalkEnd(data, i, w.queue, w.tail, w.cuts, p.end, p.rest);
  }

  /** A byte that is not the parameter's code: the types do not match. */
  lemma MismatchAt(params: seq<byte>, i: nat, data: seq<byte>, p: Parsed, at: nat, w: Walk, k: nat)
    requires WalkAt(data, p, at, w) && i < |params| && TypesOf(w.done) == params[..i] && params[i] != END
    requires k == 0 || (k == 1 && i + 1 < |params| && at < |data| && params[i] == data[at] == ARRAY)
    requires at + k < |data| && params[i + k] != data[at + k]
    ensures !(params <= TypesOf(p.values))
  {
    hide ParseArgs, TypesOf, ReadValue, TypeCodes;
    WalkPlace(data, p, at, w);
    if w.tail != [] {
      var v, next, w' := WalkNext(data, p, at, w);
      assert w.tail[0] == v by { assert (w.done + w.tail)[|w.done|] == (w'.done + w'.tail)[|w.done|]; }
      Mismatch(params, i, w.done, w.tail, k);
    } else {
      Mismatch(params, i, w.done, w.tail, 0);
    }
  }

  /** An array argument has its element code on the wire. */
  lemma ArrayHasElement(data: seq<byte>, p: Parsed, at: nat, w: Walk)
    requires WalkAt(data, p, at, w) && at < |data| && data[at] == ARRAY
    ensures at + 1 < |data|
  {
    ReadValueSound(data, at, w.queue);
  }

  /** The parameter at i and the argument at the cursor answer to each other. */
  lemma CheckStep(params: seq<byte>, i: nat, data: seq<byte>, p: Parsed, at: nat, w: Walk)
    returns (v: Value, next: nat, w': Walk)
    requires i < |params| && ProperFrom(params, i) && TypesOf(w.done) == params[..i] && WalkAt(data, p, at, w)
    requires at < |data| && params[i] == data[at]
    requires params[i] == ARRAY ==> at + 1 < |data| && params[i + 1] == data[at + 1]
    ensures at < next && ReadValue(data, at, w.queue) == ValueRead(v, next, w'.queue) && WalkAt(data, p, next, w')
    ensures w'.stops == w.stops + [at]
    ensures var i' := if params[i] == ARRAY then i + 2 else i + 1;
      && i' <= |params| && ProperFrom(params, i') && TypesOf(w'.done) == params[..i']
      && [Pointer] + FfiTypesOf(w'.done) == [Pointer] + FfiTypesOf(w.done)
        + (if params[i] == ARRAY then [FfiTypeFrom(params[i]), UInt32] else [FfiTypeFrom(params[i])])
  {
    hide WalkAt, TypesOf, FfiTypesOf, ReadValue, TypeCodes;
    v, next, w' := WalkNext(data, p, at, w);
    CheckedOne(params, i, w.done, v);
    FfiTypesSnoc(w.done, v);
    Assoc([Pointer], FfiTypesOf(w.done), FfiTypes(v));
  }

  /** The type-check walk in front of parameter i: those before it were answered. */
  ghost predicate CheckAt(params: seq<byte>, i: nat, types: seq<FfiType>, data: seq<byte>, p: Parsed, at: nat,
      w: Walk) {
    && i <= |params| && ProperFrom(params, i) && WalkAt(data, p, at, w)
    && TypesOf(w.done) == params[..i] && types == [Pointer] + FfiTypesOf(w.done)
  }

  /** One round of the walk. */
  method CheckParam(params: seq<byte>, i: nat, types: seq<FfiType>, data: seq<byte>, dataI: nat, ghost p: Parsed,
      ghost w: Walk)
    returns (ok: bool, next: nat, more: seq<FfiType>, at: nat, ghost w': Walk)
    requires CheckAt(params, i, types, data, p, dataI, w) && i < |params|
    ensures !ok ==> !(params <= TypesOf(p.values))
    ensures ok ==> i < next && CheckAt(params, next, more, data, p, at, w') && w'.stops == w.stops + [dataI]
  {
    hide ParseArgs, TypesOf, FfiTypesOf, ReadValue, WalkAt, FfiTypeFrom;
    next, more, at, w' := i, types, dataI, w;
    WalkPlace(data, p, dataI, w);
    if params[i] != data[dataI] {
      MismatchAt(params, i, data, p, dataI, w, 0);
      return false, next, more, at, w';
    }
    if params[i] == ARRAY {
      ArrayHasElement(data, p, dataI, w);
      if params[i + 1] != data[dataI + 1] {
        MismatchAt(params, i, data, p, dataI, w, 1);
        return false, next, more, at, w';
      }
    }
    ghost var v, stop;
    v, stop, w' := CheckStep(params, i, data, p, dataI, w);
    ok, at := SkipValue(data, dataI, w.queue);
    if params[i] == ARRAY {
      more := more + [FfiTypeFrom(params[i]), UInt32];
      next := i + 2;
    } else {
      more := more + [FfiTypeFrom(params[i])];
      next := i + 1;
    }
  }

  lemma CheckPlace(params: seq<byte>, i: nat, types: seq<FfiType>, data: seq<byte>, p: Parsed, at: nat, w: Walk)
    requires CheckAt(params, i, types, data, p, at, w)
    ensures w.done <= p.values && w.stops <= p.cuts && |w.stops| == |w.done|
  {
    hide WalkAt;
    WalkPlace(data, p, at, w);
  }

  /** The type-check walk, over a payload the parser accepted: it passes exactly when the
      parameters are a prefix of the arguments' codes, its cursor stops where the parser's
      did, and the types it pushes are those of the arguments it passed. `stops` lists where
      the cursor stood at the head of each round that went through. */
  method TypeCheck(params: seq<byte>, data: seq<byte>, ghost fds: seq<int>, ghost p: Parsed)
    returns (ok: bool, types: seq<FfiType>, ghost done: seq<Value>, stops: seq<int>)
    requires Proper(params) && p.Parsed? && ParseArgs(data, 0, fds) == p
    ensures ok <==> params <= TypesOf(p.values)
    ensures done <= p.values && stops <= p.cuts && |stops| == |done|
    ensures ok ==> TypesOf(done) == params && types == [Pointer] + FfiTypesOf(done)
  {
    types := [Pointer];
    var dataI: nat, i: nat := 0, 0;
    WalkBegins(data, fds, p);
    ghost var w := Walk([], [], p.values, p.cuts, fds);
    assert CheckAt(params, 0, types, data, p, 0, w);
    done, stops := [], [];
    while i < |params|
      invariant CheckAt(params, i, types, data, p, dataI, w) && stops == w.stops
      decreases |params| - i
    {
      hide CheckAt;
      CheckPlace(params, i, types, data, p, dataI, w);
      done := w.done;
      var at := dataI;
      ok, i, types, dataI, w := CheckParam(params, i, types, data, dataI, p, w);
      if !ok {
        return false, types, done, stops;
      }
      stops := stops + [at];
    }
    WalkPlace(data, p, dataI, w);
    done := w.done;
    TypesPrefix(p.values, done);
    ok := true;
  }

  lemma TypesPrefix(vs: seq<Value>, done: seq<Value>)
    requires done <= vs
    ensures TypesOf(done) <= TypesOf(vs)
  {
    TypesAppend(done, vs[|done|..]);
    assert done + vs[|done|..] == vs;
  }

  // The decode walk.

  lemma {:induction false} WordsAtSnoc(data: seq<byte>, i: nat, count: nat)
    requires i + 4 * (count + 1) <= |data|
    ensures WordsAt(data, i, count + 1) == WordsAt(data, i, count) + [WordAt(data, i + 4 * count)]
    decreases count
  {
    hide WordAt;
    if count == 0 {
      assert WordsAt(data, i + 4, 0) == [];
    } else {
      WordsAtSnoc(data, i + 4, count - 1);
      assert i + 4 + 4 * (count - 1) == i + 4 * count;
      Assoc([WordAt(data, i)], WordsAt(data, i + 4, count - 1), [WordAt(data, i + 4 * count)]);
    }
  }

  method DecodeWords(data: seq<byte>, start: nat, count: nat) returns (ws: seq<u32>, next: nat)
    requires start + 4 * count <= |data|
    ensures ws == WordsAt(data, start, count) && next == start + 4 * count
  {
    ws, next := [], start;
    var j := 0;
    while j < count
      invariant 0 <= j <= count && next == start + 4 * j
      invariant ws == WordsAt(data, start, j)
    {
      WordsAtSnoc(data, start, j);
      ws := ws + [WordAt(data, next)];
      next := next + 4;
      j := j + 1;
    }
  }

  method DecodeTexts(data: seq<byte>, start: nat, count: nat) returns (ss: seq<Text>, next: nat)
    requires start <= |data| && ReadTexts(data, start, count).TextsRead?
    ensures ReadTexts(data, start, count) == TextsRead(ss, next)
  {
    hide ReadTexts, ConsTexts;
    ss, next := [], start;
    var j := 0;
    JoinNothing(ReadTexts(data, start, count));
    while j < count
      invariant 0 <= j <= count && next <= |data|
      invariant ReadTexts(data, start, count) == ConsTexts(ss, ReadTexts(data, next, count - j))
    {
      ConsTextsStep(ss, data, next, count - j);
      var r := ParseVarInt(data, next);
      ss := ss + [data[next + r.len..next + r.len + r.value]];
      next := next + r.len + r.value;
      j := j + 1;
    }
    NothingLeft(ss, data, next);
  }

  /** `fds.at(fdNo++)`, count times. */
  method DecodeFds(fds: seq<int>, fdNo: nat, count: nat) returns (l: seq<int>, no: nat)
    requires fdNo + count <= |fds|
    ensures l == fds[fdNo..fdNo + count] && no == fdNo + count
  {
    l, no := [], fdNo;
    var j := 0;
    while j < count
      invariant 0 <= j <= count && no == fdNo + j && l == fds[fdNo..no]
    {
      l := l + [fds[no]];
      no := no + 1;
      j := j + 1;
    }
  }

  /** The ARRAY case: data slot, then size slot. */
  method DecodeArray(data: seq<byte>, i: nat, fds: seq<int>, fdNo: nat) returns (slots: seq<Slot>, next: nat, no: nat)
    requires i < |data| && fdNo <= |fds| && ReadArray(data, i, fds[fdNo..]).ValueRead?
    ensures var r := ReadArray(data, i, fds[fdNo..]);
      && slots == Slots(r.value) && next == r.next
      && fdNo <= no <= |fds| && fds[no..] == r.rest
  {
    hide ReadTexts, ReadVarInt, WordsAt;
    var elem := data[i + 1];
    var count := ParseVarInt(data, i + 2);
    next, no := i + 2 + count.len, fdNo;
    if IsWord(elem) {
      var ws: seq<u32>;
      ws, next := DecodeWords(data, next, count.value);
      slots := [WordsPtr(ws), U32Slot(Length(count.value))];
    } else if elem == VARCHAR {
      var ss: seq<Text>;
      ss, next := DecodeTexts(data, next, count.value);
      slots := [StrsPtr(ss), U32Slot(Length(count.value))];
    } else if elem == FD {
      var l: seq<int>;
      l, no := DecodeFds(fds, fdNo, count.value);
      assert fds[fdNo..][..count.value] == l && fds[fdNo..][count.value..] == fds[no..];
      slots := [FdsPtr(l), U32Slot(Length(count.value))];
    } else {
      assert false;
    }
  }

  /** One round of the decode switch. */
  method DecodeValue(data: seq<byte>, i: nat, fds: seq<int>, fdNo: nat) returns (slots: seq<Slot>, next: nat, no: nat)
    requires i < |data| && fdNo <= |fds| && ReadValue(data, i, fds[fdNo..]).ValueRead?
    ensures var r := ReadValue(data, i, fds[fdNo..]);
      && slots == Slots(r.value) && next == r.next
      && fdNo <= no <= |fds| && fds[no..] == r.rest
  {
    var magic := data[i];
    next, no := i, fdNo;
    if magic == INT {
      slots, next := [S32Slot(WordAt(data, i + 1))], i + 5;
    } else if magic == F32 {
      slots, next := [FloatSlot(WordAt(data, i + 1))], i + 5;
    } else if IsWord(magic) {
      slots, next := [U32Slot(WordAt(data, i + 1))], i + 5;
    } else if magic == VARCHAR {
      var r := ParseVarInt(data, i + 1);
      next := i + 1 + r.len + r.value;
      slots := [StrPtr(data[i + 1 + r.len..next])];
    } else if magic == ARRAY {
      slots, next, no := DecodeArray(data, i, fds, fdNo);
    } else if magic == FD {
      assert fds[fdNo..][1..] == fds[fdNo + 1..];
      slots, next, no := [FdSlot(fds[fdNo])], i + 1, fdNo + 1;
    } else {
      assert false;
    }
  }

  /** The decode walk with its cursor at i: the slots of the arguments in front of it are
      pushed, and the descriptors behind fdNo are those of the others. */
  ghost predicate DecodeAt(avalues: seq<Slot>, data: seq<byte>, i: nat, fds: seq<int>, fdNo: nat, p: Parsed, w: Walk) {
    && WalkAt(data, p, i, w) && fdNo <= |fds| && w.queue == fds[fdNo..]
    && avalues == [ObjectPtr] + SlotsOf(w.done)
  }

  /** One round of the walk. */
  method DecodeNext(avalues: seq<Slot>, data: seq<byte>, i: nat, fds: seq<int>, fdNo: nat, ghost p: Parsed,
      ghost w: Walk)
    returns (more: seq<Slot>, at: nat, no: nat, ghost w': Walk)
    requires DecodeAt(avalues, data, i, fds, fdNo, p, w) && i < |data| && data[i] != END
    ensures i < at && DecodeAt(more, data, at, fds, no, p, w') && w'.stops == w.stops + [i]
  {
    hide ParseArgs, SlotsOf, ReadValue, Slots, WalkAt, TypeCodes;
    ghost var v, next;
    v, next, w' := WalkNext(data, p, i, w);
    var slots;
    slots, at, no := DecodeValue(data, i, fds, fdNo);
    SlotsSnoc(w.done, v);
    Assoc([ObjectPtr], SlotsOf(w.done), Slots(v));
    more := avalues + slots;
  }

  lemma DecodeEnds(avalues: seq<Slot>, data: seq<byte>, i: nat, fds: seq<int>, fdNo: nat, p: Parsed, w: Walk)
    requires DecodeAt(avalues, data, i, fds, fdNo, p, w) && (i < |data| ==> data[i] == END)
    ensures avalues == [ObjectPtr] + SlotsOf(p.values) && w.stops == p.cuts
  {
    hide WalkAt, SlotsOf;
    WalkPlace(data, p, i, w);
  }

  /** The decode walk, over a payload the parser accepted: it pushes the slots of every
      argument, its cursor stopping where the parser's did, and never runs out of
      descriptors. `stops` lists where the cursor stood at the head of each round. */
  method Decode(data: seq<byte>, fds: seq<int>, ghost p: Parsed) returns (avalues: seq<Slot>, stops: seq<int>)
    requires p.Parsed? && ParseArgs(data, 0, fds) == p
    ensures avalues == [ObjectPtr] + SlotsOf(p.values) && stops == p.cuts
  {
    assert [ObjectPtr] + SlotsOf([]) == [ObjectPtr];
    avalues, stops := [ObjectPtr], [];
    var i: nat, fdNo: nat := 0, 0;
    WalkBegins(data, fds, p);
    ghost var w := Walk([], [], p.values, p.cuts, fds);
    assert DecodeAt(avalues, data, i, fds, fdNo, p, w);
    hide DecodeAt, SlotsOf, ParseArgs;
    while i < |data| && data[i] != END
      invariant DecodeAt(avalues, data, i, fds, fdNo, p, w) && stops == w.stops
      decreases |data| - i
    {
      stops := stops + [i];
      avalues, i, fdNo, w := DecodeNext(avalues, data, i, fds, fdNo, p, w);
    }
    DecodeEnds(avalues, data, i, fds, fdNo, p, w);
  }

  /** `called`, for a message the parser accepted: payload and descriptors are exactly the
      message's own. The frame libffi sees is as long as the type list. */
  method Called(methods: seq<Method>, listeners: set<nat>, version: nat, id: nat, data: seq<byte>, fds: seq<int>)
    returns (outcome: Outcome)
    requires ParseArgs(data, 0, fds).Parsed?
    requires forall m :: m in methods ==> Proper(m.params)
    ensures outcome == CalledOutcome(methods, listeners, version, id, ParseArgs(data, 0, fds).values)
  {
    if |methods| <= id {
      return BadMethod;
    }
    var m := methods[id];
    if id !in listeners {
      return Ignored;
    }
    var params := m.Expected();
    ProperExpected(m);
    if m.since > version {
      return BadSince;
    }
    ghost var p := ParseArgs(data, 0, fds);
    var ok, types, done, stops := TypeCheck(params, data, fds, p);
    if !ok {
      return BadTypes;
    }
    var avalues, cuts := Decode(data, fds, p);
    FrameOf(p.values, done);
    return Delivered(avalues[..|types|]);
  }

  lemma ProperExpected(m: Method)
    requires Proper(m.params)
    ensures Proper(m.Expected())
  {
    if m.Returns() {
      ProperShift(m.params, 0);
    } else {
      assert [] + m.params == m.params;
    }
  }

  lemma {:induction false} ProperShift(params: seq<byte>, i: nat)
    requires ProperFrom(params, i)
    ensures ProperFrom([SEQ] + params, i + 1)
    decreases |params| - i
  {
    if i < |params| {
      ProperShift(params, if params[i] == ARRAY then i + 2 else i + 1);
    }
  }

  /** The frame of the arguments that were type-checked begins the decoded values. */
  lemma FrameOf(vs: seq<Value>, done: seq<Value>)
    requires done <= vs
    ensures |TypesOf(done)| <= |SlotsOf(vs)| && SlotsOf(vs)[..|TypesOf(done)|] == SlotsOf(done)
    ensures ([ObjectPtr] + SlotsOf(vs))[..1 + |TypesOf(done)|] == [ObjectPtr] + SlotsOf(vs)[..|TypesOf(done)|]
  {
    var others := vs[|done|..];
    assert done + others == vs;
    SlotsAppend(done, others);
    FrontOf(SlotsOf(done), SlotsOf(others));
  }

  lemma FrontOf(a: seq<Slot>, b: seq<Slot>)
    ensures (a + b)[..|a|] == a && ([ObjectPtr] + (a + b))[..1 + |a|] == [ObjectPtr] + (a + b)[..|a|]
  {
  }
}
