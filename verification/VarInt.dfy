/** The 7-bit variable-length integers of MessageParser.cpp: low group first, which is
    unsigned LEB128 (section 7.6 of DWARF Version 5), four groups at most. */
module VarInt {
  import opened Bytes

  /** One more than the largest length that four groups hold. */
  const LIMIT: nat := 0x1000_0000

  /** What parseVarInt returns: the value and how many bytes it took, or no number. */
  datatype Number = NoNumber | Number(value: nat, len: nat)

  /** Reference form: the base-128 digits of n, low digit first, each but the last marked. */
  function Digits(n: nat): (d: seq<byte>)
    ensures |d| >= 1
  {
    if n < 0x80 then [n] else [n % 0x80 + 0x80] + Digits(n / 0x80)
  }

  /** Reference reader: groups up to the first unmarked one, at most `groups` of them. */
  function ReadGroups(data: seq<byte>, i: nat, groups: nat): (r: Number)
    ensures r.Number? ==> 1 <= r.len <= groups && i + r.len <= |data|
    decreases |data| - i
  {
    if groups == 0 || i >= |data| then NoNumber
    else if data[i] < 0x80 then Number(data[i], 1)
    else
      match ReadGroups(data, i + 1, groups - 1)
      case NoNumber => NoNumber
      case Number(v, l) => Number(data[i] - 0x80 + 0x80 * v, l + 1)
  }

  /** The number standing at position i. A number that runs off the buffer, or that
      needs a fifth group, is no number. */
  function ReadVarInt(data: seq<byte>, i: nat): (r: Number)
    ensures r.Number? ==> 1 <= r.len <= 4 && i + r.len <= |data|
  {
    ReadGroups(data, i, 4)
  }

  /** What encodeVarInt writes: the low 28 bits. */
  function Written(n: nat): (d: seq<byte>)
    ensures |d| >= 1
  {
    Digits(n % LIMIT)
  }

  function Power128(k: nat): (p: nat)
    ensures p >= 1
  {
    if k == 0 then 1 else 0x80 * Power128(k - 1)
  }

  /** A number of k groups has at most k base-128 digits. */
  lemma {:induction false} DigitsLength(n: nat, k: nat)
    requires k >= 1
    ensures |Digits(n)| <= k <==> n < Power128(k)
  {
    if n < 0x80 {
      PowerPositive(k);
    } else if k == 1 {
      assert Power128(1) == 0x80 * Power128(0);
    } else {
      DigitsLength(n / 0x80, k - 1);
    }
  }

  lemma {:induction false} PowerPositive(k: nat)
    requires k >= 1
    ensures Power128(k) >= 0x80
  {
    if k > 1 {
      PowerPositive(k - 1);
    }
  }

  /** Reading what Digits wrote gives the number back, whatever bytes follow. */
  lemma {:induction false} ReadDigits(data: seq<byte>, i: nat, n: nat, groups: nat)
    requires At(data, i, Digits(n)) && |Digits(n)| <= groups
    ensures ReadGroups(data, i, groups) == Number(n, |Digits(n)|)
    decreases groups
  {
    AtIndex(data, i, Digits(n), 0);
    if n >= 0x80 {
      AtAppend(data, i, [n % 0x80 + 0x80], Digits(n / 0x80));
      ReadDigits(data, i + 1, n / 0x80, groups - 1);
    }
  }

  lemma ReadEncoded(data: seq<byte>, i: nat, n: nat)
    requires n < LIMIT && At(data, i, Written(n))
    ensures ReadVarInt(data, i) == Number(n, |Written(n)|)
  {
    LimitIsFourGroups();
    DigitsLength(n, 4);
    ReadDigits(data, i, n, 4);
  }

  /** Four groups hold 28 bits. */
  lemma {:induction false} ReadGroupsBound(data: seq<byte>, i: nat, groups: nat)
    requires ReadGroups(data, i, groups).Number?
    ensures ReadGroups(data, i, groups).value < Power128(groups)
    decreases groups
  {
    PowerPositive(groups);
    if data[i] >= 0x80 {
      ReadGroupsBound(data, i + 1, groups - 1);
    }
  }

  lemma ReadVarIntBound(data: seq<byte>, i: nat)
    requires ReadVarInt(data, i).Number?
    ensures ReadVarInt(data, i).value < LIMIT
  {
    ReadGroupsBound(data, i, 4);
    LimitIsFourGroups();
  }

  lemma LimitIsFourGroups()
    ensures Power128(4) == LIMIT
  {
    assert Power128(1) == 0x80 * Power128(0);
    assert Power128(2) == 0x80 * Power128(1);
    assert Power128(3) == 0x80 * Power128(2);
  }

  /** No encoding read back as n is shorter than its digits. */
  lemma {:induction false} DigitsAreShortest(data: seq<byte>, i: nat, groups: nat)
    requires ReadGroups(data, i, groups).Number?
    ensures |Digits(ReadGroups(data, i, groups).value)| <= ReadGroups(data, i, groups).len
    decreases groups
  {
    if data[i] >= 0x80 {
      DigitsAreShortest(data, i + 1, groups - 1);
    }
  }

  /** What was read depends only on the bytes read. */
  lemma {:induction false} ReadGroupsAgree(a: seq<byte>, d: nat, b: seq<byte>, n: nat, j: nat, groups: nat)
    requires Agree(a, d, b, n) && ReadGroups(a, d + j, groups).Number?
    requires j + ReadGroups(a, d + j, groups).len <= n
    ensures ReadGroups(b, j, groups) == ReadGroups(a, d + j, groups)
    decreases groups
  {
    AgreeAt(a, d, b, n, j);
    if a[d + j] >= 0x80 {
      ReadGroupsAgree(a, d, b, n, j + 1, groups - 1);
    }
  }

  /** `(num << left) >> 25` on a 64-bit size_t, cut to a byte by the cast. */
  function Group(num: nat, left: nat): (b: byte)
    requires left <= 64
  {
    num * Power2(left) % 0x1_0000_0000_0000_0000 / 0x200_0000 % 0x100
  }

  function Power2(k: nat): nat {
    if k == 0 then 1 else 2 * Power2(k - 1)
  }

  /** `b | 0x80`. */
  function Marked(b: byte): byte { if b < 0x80 then b + 0x80 else b }

  // Shifts and casts as arithmetic.

  lemma MulMonotone(a: nat, b: nat, d: nat)
    requires a <= b
    ensures a * d <= b * d
  {}

  lemma MulAdd(a: nat, b: nat, d: nat)
    ensures (a + b) * d == a * d + b * d
  {}

  lemma MulAssoc(a: nat, b: nat, d: nat)
    ensures (a * b) * d == a * (b * d)
  {}

  /** Quotient and remainder are determined by x == q * d + r. */
  lemma DivModUnique(x: nat, d: nat, q: nat, r: nat)
    requires d > 0 && x == q * d + r && r < d
    ensures x / d == q && x % d == r
  {
    var p := x / d;
    assert x == p * d + x % d;
    if p < q {
      MulMonotone(p + 1, q, d);
      assert false;
    } else if q < p {
      MulMonotone(q + 1, p, d);
      assert false;
    }
  }

  /** (t * keep + u) * scale + r, with u below keep and r below scale, split at either product. */
  lemma TwoDigits(t: nat, u: nat, r: nat, keep: nat, scale: nat)
    requires u < keep && r < scale
    ensures keep * scale >= 1 && u * scale + r < keep * scale
    ensures (t * keep + u) * scale + r == t * (keep * scale) + (u * scale + r)
  {
    MulMonotone(u + 1, keep, scale);
    MulAdd(u, 1, scale);
    MulAdd(t * keep, u, scale);
    MulAssoc(t, keep, scale);
  }

  /** Cutting off the bits shifted past `keep * scale`. */
  lemma ScaleMod(n: nat, scale: nat, keep: nat)
    requires scale >= 1 && keep >= 1
    ensures keep * scale >= 1 && n * scale % (keep * scale) == n % keep * scale
  {
    var q, r := n / keep, n % keep;
    TwoDigits(q, r, 0, keep, scale);
    DivModUnique(n * scale, keep * scale, q, r * scale);
  }

  /** Shifting right again by more than was shifted left. */
  lemma ScaleDiv(n: nat, scale: nat, drop: nat)
    requires scale >= 1 && drop >= 1
    ensures drop * scale >= 1 && n * scale / (drop * scale) == n / drop
  {
    var q, r := n / drop, n % drop;
    TwoDigits(q, r, 0, drop, scale);
    DivModUnique(n * scale, drop * scale, q, r * scale);
  }

  lemma DivMod(x: nat, d: nat)
    requires d >= 1
    ensures x == x / d * d + x % d && x % d < d
  {}

  /** Three digits, the upper two split off twice. */
  lemma ThreeDigits(x: nat, c: nat, b: nat, q: nat, r: nat, t: nat, u: nat)
    requires x == q * b + r && r < b && q == t * c + u && u < c
    ensures c * b >= 1 && x % (c * b) == u * b + r
    ensures (u * b + r) % b == r && (u * b + r) / b == u
  {
    assert q * b == (t * c + u) * b;
    TwoDigits(t, u, r, c, b);
    DivModUnique(x, c * b, t, u * b + r);
    DivModUnique(u * b + r, b, u, r);
  }

  /** The low digit of the low digits. */
  lemma ModOfMod(x: nat, c: nat, b: nat)
    requires b >= 1 && c >= 1
    ensures c * b >= 1 && x % (c * b) % b == x % b
  {
    DivMod(x, b);
    DivMod(x / b, c);
    ThreeDigits(x, c, b, x / b, x % b, x / b / c, x / b % c);
  }

  /** Bits k and up of the low bits of n. */
  lemma ModDiv(n: nat, drop: nat, keep: nat)
    requires drop >= 1 && keep >= 1
    ensures keep * drop >= 1 && n % (keep * drop) / drop == n / drop % keep
  {
    DivMod(n, drop);
    DivMod(n / drop, keep);
    ThreeDigits(n, keep, drop, n / drop, n % drop, n / drop / keep, n / drop % keep);
  }

  lemma GroupIsSlice(num: nat, left: nat, scale: nat, keep: nat, drop: nat)
    requires left <= 64 && scale == Power2(left) && scale >= 1 && drop >= 1 && keep >= 1
    requires keep * drop * scale == 0x1_0000_0000_0000_0000 && drop * scale == 0x200_0000
    ensures Group(num, left) == num / drop % keep % 0x100
  {
    MulMonotone(1, keep, drop);
    ScaleMod(num, scale, keep * drop);
    ScaleDiv(num % (keep * drop), scale, drop);
    ModDiv(num, drop, keep);
  }

  lemma PowersOfTwo()
    ensures Power2(4) == 0x10 && Power2(11) == 0x800 && Power2(18) == 0x4_0000 && Power2(25) == 0x200_0000
  {
    assert Power2(2) == 4 && Power2(4) == 16 && Power2(6) == 64 && Power2(8) == 256;
    assert Power2(10) == 1024 && Power2(11) == 0x800;
    assert Power2(13) == 0x2000 && Power2(15) == 0x8000 && Power2(17) == 0x2_0000 && Power2(18) == 0x4_0000;
    assert Power2(20) == 0x10_0000 && Power2(22) == 0x40_0000 && Power2(24) == 0x100_0000;
  }

  lemma MarkedGroup(num: nat, left: nat, scale: nat, drop: nat)
    requires left <= 64 && scale == Power2(left) && scale >= 1 && drop >= 1
    requires drop * scale == 0x200_0000
    ensures Marked(Group(num, left)) == num / drop % 0x80 + 0x80
  {
    assert 0x80_0000_0000 * drop * scale == 0x1_0000_0000_0000_0000;
    GroupIsSlice(num, left, scale, 0x80_0000_0000, drop);
    LowBits(num / drop);
  }

  lemma LowBits(x: nat)
    ensures Marked(x % 0x80_0000_0000 % 0x100) == x % 0x80 + 0x80
  {
    var y := x % 0x80_0000_0000;
    ModOfMod(x, 0x1_0000_0000, 0x80);
    MarkedLow(y % 0x100);
    ModOfMod(y, 2, 0x80);
  }

  lemma MarkedLow(b: byte)
    ensures Marked(b) == b % 0x80 + 0x80
  {}

  /** The four shifts pick the four base-128 digits of the low 28 bits. */
  lemma GroupsAreDigits(num: nat)
    ensures Marked(Group(num, 25)) == num % 0x80 + 0x80
    ensures Marked(Group(num, 18)) == num / 0x80 % 0x80 + 0x80
    ensures Marked(Group(num, 11)) == num / 0x4000 % 0x80 + 0x80
    ensures Marked(Group(num, 4)) == num / 0x20_0000 % 0x80 + 0x80
  {
    PowersOfTwo();
    MarkedGroup(num, 25, 0x200_0000, 1);
    MarkedGroup(num, 18, 0x4_0000, 0x80);
    MarkedGroup(num, 11, 0x800, 0x4000);
    MarkedGroup(num, 4, 0x10, 0x20_0000);
  }

  /** k base-128 digits of n, all marked. */
  function MarkedDigits(n: nat, k: nat): (d: seq<byte>)
    ensures |d| == k
  {
    if k == 0 then [] else [n % 0x80 + 0x80] + MarkedDigits(n / 0x80, k - 1)
  }

  lemma {:induction false} MarkedShorter(n: nat, k: nat)
    requires k >= 1 && n < Power128(k)
    ensures MarkedDigits(n, k)[..k - 1] == MarkedDigits(n, k - 1)
    ensures MarkedDigits(n, k)[k - 1] == 0x80 <==> n < Power128(k - 1)
  {
    if k > 1 {
      MarkedShorter(n / 0x80, k - 1);
    }
  }

  /** With no empty top group, unmarking the last group leaves the digits. */
  lemma {:induction false} UnmarkLast(n: nat, k: nat)
    requires k >= 1 && n < Power128(k) && (k == 1 || n >= Power128(k - 1))
    ensures var d := MarkedDigits(n, k);
      d[k - 1] >= 0x80 && d[k - 1 := d[k - 1] - 0x80] == Digits(n)
  {
    if k == 1 {
      assert MarkedDigits(n / 0x80, 0) == [];
      assert Power128(1) == 0x80 * Power128(0);
    } else {
      UnmarkLast(n / 0x80, k - 1);
      PowerPositive(k - 1);
      var d, e := MarkedDigits(n, k), MarkedDigits(n / 0x80, k - 1);
      assert d[k - 1 := d[k - 1] - 0x80] == [n % 0x80 + 0x80] + e[k - 2 := e[k - 2] - 0x80];
    }
  }

  lemma FourMarked(num: nat)
    ensures MarkedDigits(num % LIMIT, 4) ==
      [num % 0x80 + 0x80, num / 0x80 % 0x80 + 0x80, num / 0x4000 % 0x80 + 0x80, num / 0x20_0000 % 0x80 + 0x80]
  {
    hide MarkedDigits;
    FourUnfolded(num % LIMIT);
    NextDigit(num, 0x20_0000);
    NextDigit(num / 0x80, 0x4000);
    NextDigit(num / 0x80 / 0x80, 0x80);
    DivTwice(num);
  }

  lemma DivTwice(num: nat)
    ensures num / 0x80 / 0x80 == num / 0x4000 && num / 0x80 / 0x80 / 0x80 == num / 0x20_0000
  {}

  lemma FourUnfolded(n: nat)
    ensures MarkedDigits(n, 4) == [n % 0x80 + 0x80, n / 0x80 % 0x80 + 0x80,
                                   n / 0x80 / 0x80 % 0x80 + 0x80, n / 0x80 / 0x80 / 0x80 % 0x80 + 0x80]
  {
    assert MarkedDigits(n / 0x80, 3) == [n / 0x80 % 0x80 + 0x80] + MarkedDigits(n / 0x80 / 0x80, 2);
    assert MarkedDigits(n / 0x80 / 0x80 / 0x80 / 0x80, 0) == [];
  }

  lemma NextDigit(x: nat, keep: nat)
    requires keep >= 1
    ensures x % (keep * 0x80) % 0x80 == x % 0x80
    ensures x % (keep * 0x80) / 0x80 == x / 0x80 % keep
  {
    ModDiv(x, 0x80, keep);
    ModOfMod(x, keep, 0x80);
  }

  /** encodeVarInt: four marked groups, cut back while the last is an empty one. */
  method EncodeVarInt(num: nat) returns (data: seq<byte>)
    ensures data == Written(num)
  {
    GroupsAreDigits(num);
    FourMarked(num);
    LimitIsFourGroups();
    data := [Marked(Group(num, 25)), Marked(Group(num, 18)), Marked(Group(num, 11)), Marked(Group(num, 4))];
    ghost var low := num % LIMIT;
    while data[|data| - 1] == 0x80 && |data| > 1
      invariant 1 <= |data| <= 4
      invariant low < Power128(|data|)
      invariant data == MarkedDigits(low, |data|)
    {
      MarkedShorter(low, |data|);
      data := data[..|data| - 1];
    }
    MarkedShorter(low, |data|);
    UnmarkLast(low, |data|);
    data := data[|data| - 1 := data[|data| - 1] - 0x80];
  }

  /** What the loop of parseVarInt has gathered from i bytes, joined to the groups left. */
  ghost function Joined(rolling: nat, i: nat, rest: Number): Number {
    match rest
    case NoNumber => NoNumber
    case Number(v, l) => Number(rolling + v * Power128(i), i + l)
  }

  lemma Distribute(low: nat, v: nat, p: nat)
    ensures (low + 0x80 * v) * p == low * p + v * (0x80 * p)
  {}

  lemma JoinNext(data: seq<byte>, at: nat, rolling: nat, i: nat)
    requires i < 4 && at < |data|
    ensures var low := rolling + data[at] % 0x80 * Power128(i);
      Joined(rolling, i, ReadGroups(data, at, 4 - i)) ==
        if data[at] < 0x80 then Number(low, i + 1)
        else Joined(low, i + 1, ReadGroups(data, at + 1, 3 - i))
  {
    var low: nat := data[at] % 0x80;
    var rest := ReadGroups(data, at + 1, 3 - i);
    if data[at] < 0x80 {
      assert low == data[at];
    } else {
      assert low == data[at] - 0x80;
      if rest.Number? {
        Distribute(low, rest.value, Power128(i));
      }
    }
  }

  /** parseVarInt: `rolling` gathers the low seven bits of each byte, shifted seven more
      per byte, until an unmarked byte. */
  method ParseVarInt(data: seq<byte>, offset: nat) returns (r: Number)
    ensures r == ReadVarInt(data, offset)
  {
    var rolling: nat, i: nat := 0, 0;
    assert ReadVarInt(data, offset) == Joined(rolling, i, ReadGroups(data, offset + i, 4 - i));
    assert forall at :: ReadGroups(data, at, 0) == NoNumber;
    hide ReadVarInt, ReadGroups, Power128;
    while i < 4 && offset + i < |data|
      invariant 0 <= i <= 4
      invariant ReadVarInt(data, offset) == Joined(rolling, i, ReadGroups(data, offset + i, 4 - i))
    {
      JoinNext(data, offset + i, rolling, i);
      rolling := rolling + data[offset + i] % 0x80 * Power128(i);
      i := i + 1;
      if data[offset + i - 1] < 0x80 {
        return Number(rolling, i);
      }
    }
    return NoNumber;
  }
}
