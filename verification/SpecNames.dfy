/** Protocol look-up by name, and the `name@version` strings of the handshake. */
module SpecNames {
  import opened Bytes
  import opened Specs

  datatype MaybeProtocol = Missing | Found(spec: ProtocolSpec)
  datatype MaybeSpec = NoSpec | Spec(os: ObjectSpec)

  /** What the client learns about a protocol in the handshake. */
  datatype ServerSpec = ServerSpec(name: Text, version: u32)

  /** The first protocol with the name. */
  function FindProtocol(impls: seq<ProtocolSpec>, name: Text): (r: MaybeProtocol)
    ensures r.Found? ==> r.spec in impls && r.spec.name == name
  {
    if impls == [] then Missing
    else if impls[0].name == name then Found(impls[0])
    else FindProtocol(impls[1..], name)
  }

  /** The first object with the name; with no name, the first object. */
  function FindObject(objects: seq<ObjectSpec>, name: Text): (r: MaybeSpec)
    ensures r.Spec? ==> r.os in objects
  {
    if objects == [] then NoSpec
    else if name == [] || objects[0].name == name then Spec(objects[0])
    else FindObject(objects[1..], name)
  }

  const AT_SIGN: byte := 0x40
  const ZERO: byte := 0x30

  predicate IsDigit(b: byte) { ZERO <= b < ZERO + 10 }
  predicate IsSpace(b: byte) { 9 <= b <= 13 || b == 0x20 }

  /** std::format of an unsigned number. */
  function Decimal(n: nat): (t: Text)
    ensures t != []
  {
    (if n < 10 then [] else Decimal(n / 10)) + [ZERO + n % 10]
  }

  function PrintSpec(s: ServerSpec): Text {
    s.name + [AT_SIGN] + Decimal(s.version)
  }

  function Printed(specs: seq<ServerSpec>): (r: seq<Text>)
    ensures |r| == |specs|
  {
    if specs == [] then [] else [PrintSpec(specs[0])] + Printed(specs[1..])
  }

  /** find_last_of('@'), -1 when there is none. */
  function LastAt(t: Text): (i: int)
    ensures -1 <= i < |t|
    decreases |t|
  {
    if t == [] then -1
    else if t[|t| - 1] == AT_SIGN then |t| - 1
    else LastAt(t[..|t| - 1])
  }

  // std::stoul in base ten: spaces, a sign, digits; what follows the digits is ignored.

  datatype StoulResult = NoNumber | Number(value: int)

  const TWO_TO_64: nat := 0x1_0000_0000_0000_0000

  function SkipSpaces(t: Text): Text {
    if t != [] && IsSpace(t[0]) then SkipSpaces(t[1..]) else t
  }

  /** The longest run of digits at the front. */
  function Digits(t: Text): Text {
    if t != [] && IsDigit(t[0]) then [t[0]] + Digits(t[1..]) else []
  }

  function Magnitude(digits: Text): int {
    if digits == [] then 0
    else 10 * Magnitude(digits[..|digits| - 1]) + (digits[|digits| - 1] - ZERO)
  }

  function Stoul(t: Text): StoulResult {
    var u := SkipSpaces(t);
    var signed := u != [] && (u[0] == 0x2B || u[0] == 0x2D);
    var digits := Digits(if signed then u[1..] else u);
    var n := Magnitude(digits);
    if digits == [] || n >= TWO_TO_64 then NoNumber
    else if signed && u[0] == 0x2D then Number((TWO_TO_64 - n) % TWO_TO_64)
    else Number(n)
  }

  datatype MaybeServerSpec = BadSpec | GoodSpec(s: ServerSpec)

  /** Split at the last '@'; without one, the whole string is both name and number. */
  function ParseSpec(t: Text): MaybeServerSpec {
    var at := LastAt(t);
    match Stoul(t[at + 1..])
    case NoNumber => BadSpec
    case Number(n) => GoodSpec(ServerSpec(if at < 0 then t else t[..at], n % 0x1_0000_0000))
  }

  // Printing and splitting undo each other.

  lemma {:induction false} DecimalDigits(n: nat)
    ensures forall b :: b in Decimal(n) ==> IsDigit(b)
    ensures Magnitude(Decimal(n)) == n
  {
    if n >= 10 {
      DecimalDigits(n / 10);
      assert Decimal(n)[..|Decimal(n)| - 1] == Decimal(n / 10);
    }
  }

  lemma {:induction false} DigitsOfDigits(t: Text)
    requires forall b :: b in t ==> IsDigit(b)
    ensures Digits(t) == t
  {
    if t == [] {
    } else {
      assert t[0] in t;
      DigitsOfDigits(t[1..]);
      assert t == [t[0]] + t[1..];
    }
  }

  lemma {:induction false} LastAtFound(name: Text, digits: Text)
    requires forall b :: b in digits ==> IsDigit(b)
    ensures LastAt(name + [AT_SIGN] + digits) == |name|
    decreases |digits|
  {
    var t := name + [AT_SIGN] + digits;
    if digits == [] {
    } else {
      assert digits[|digits| - 1] in digits;
      assert t[..|t| - 1] == name + [AT_SIGN] + digits[..|digits| - 1];
      LastAtFound(name, digits[..|digits| - 1]);
    }
  }

  lemma StoulDecimal(n: u32)
    ensures Stoul(Decimal(n)) == Number(n)
  {
    var digits := Decimal(n);
    DecimalDigits(n);
    DigitsOfDigits(digits);
    assert digits[0] in digits && IsDigit(digits[0]);
    DigitFirst(digits);
  }

  /** Neither spaces nor a sign come before a digit. */
  lemma DigitFirst(t: Text)
    requires t != [] && IsDigit(t[0])
    ensures SkipSpaces(t) == t && t[0] != 0x2B && t[0] != 0x2D
  {
    assert !IsSpace(t[0]);
  }

  /** A protocol name may itself contain '@'. */
  lemma SpecRoundTrip(s: ServerSpec)
    ensures ParseSpec(PrintSpec(s)) == GoodSpec(s)
  {
    var digits := Decimal(s.version);
    var t := PrintSpec(s);
    DecimalDigits(s.version);
    LastAtFound(s.name, digits);
    assert t[..|s.name|] == s.name && t[|s.name| + 1..] == digits;
    StoulDecimal(s.version);
  }

  // What a string of the handshake says, by positions.

  lemma {:induction false} LastAtIs(t: Text)
    ensures LastAt(t) >= 0 ==> t[LastAt(t)] == AT_SIGN
    ensures forall k :: LastAt(t) < k < |t| ==> t[k] != AT_SIGN
    decreases |t|
  {
    if t == [] || t[|t| - 1] == AT_SIGN {
    } else {
      LastAtIs(t[..|t| - 1]);
    }
  }

  lemma {:induction false} SpacesAre(t: Text, a: nat) returns (u: nat)
    requires a <= |t|
    ensures a <= u <= |t| && SkipSpaces(t[a..]) == t[u..] && (u < |t| ==> !IsSpace(t[u]))
    ensures forall k :: a <= k < u ==> IsSpace(t[k])
    decreases |t| - a
  {
    u := a;
    if a < |t| && IsSpace(t[a]) {
      u := SpacesAre(t, a + 1);
      assert t[a..][1..] == t[a + 1..];
    }
  }

  lemma {:induction false} DigitsAre(t: Text, b: nat) returns (e: nat)
    requires b <= |t|
    ensures b <= e <= |t| && Digits(t[b..]) == t[b..e] && (e < |t| ==> !IsDigit(t[e]))
    ensures forall k :: b <= k < e ==> IsDigit(t[k])
    decreases |t| - b
  {
    e := b;
    if b < |t| && IsDigit(t[b]) {
      e := DigitsAre(t, b + 1);
      assert t[b..][1..] == t[b + 1..] && t[b..e] == [t[b]] + t[b + 1..e];
    }
  }

  predicate IsSign(b: byte) { b == 0x2B || b == 0x2D }

  /** Behind the last '@' (or from the start, if there is none) come spaces up to u, perhaps a
      sign, and digits up to e. */
  ghost predicate NumberAt(t: Text, a: nat, u: nat, b: nat, e: nat) {
    && a <= u <= b <= e <= |t|
    && (a > 0 ==> t[a - 1] == AT_SIGN) && (forall k :: a <= k < |t| ==> t[k] != AT_SIGN)
    && (forall k :: a <= k < u ==> IsSpace(t[k])) && (u < |t| ==> !IsSpace(t[u]))
    && b == (if u < |t| && IsSign(t[u]) then u + 1 else u)
    && (forall k :: b <= k < e ==> IsDigit(t[k])) && (e < |t| ==> !IsDigit(t[e]))
  }

  /** A string of the handshake is bad exactly if no digits stand there, or they are too many for
      64 bits. Of a good one the name is what stands before the '@', and the version the
      number modulo 2^32. */
  lemma SpecVerdict(t: Text) returns (a: nat, u: nat, b: nat, e: nat)
    ensures NumberAt(t, a, u, b, e)
    ensures var n := Magnitude(t[b..e]);
      if b == e || n >= 0x1_0000_0000_0000_0000 then ParseSpec(t) == BadSpec
      else ParseSpec(t).GoodSpec? && var s := ParseSpec(t).s;
        && s.name == (if a == 0 then t else t[..a - 1])
        && s.version == (if b > u && t[u] == 0x2D then -n else n) % 0x1_0000_0000
  {
    hide LastAt, Digits, SkipSpaces, Magnitude, ParseSpec;
    LastAtIs(t);
    a := LastAt(t) + 1;
    u := SpacesAre(t, a);
    b := if u < |t| && IsSign(t[u]) then u + 1 else u;
    e := DigitsAre(t, b);
    SpecOf(t, a, u, b, t[b..e]);
  }

  lemma SpecOf(t: Text, a: nat, u: nat, b: nat, digits: Text)
    requires a == LastAt(t) + 1 && a <= u <= b <= |t| && SkipSpaces(t[a..]) == t[u..] && Digits(t[b..]) == digits
    requires b == if u < |t| && IsSign(t[u]) then u + 1 else u
    ensures var n := Magnitude(digits);
      if digits == [] || n >= 0x1_0000_0000_0000_0000 then ParseSpec(t) == BadSpec
      else ParseSpec(t).GoodSpec? && var s := ParseSpec(t).s;
        && s.name == (if a == 0 then t else t[..a - 1])
        && s.version == (if b > u && t[u] == 0x2D then -n else n) % 0x1_0000_0000
  {
    hide Stoul, SkipSpaces, Digits, Magnitude, LastAt;
    assert b > u ==> t[u..][1..] == t[b..];
    StoulIs(t[a..], t[u..], digits);
  }

  lemma StoulIs(x: Text, rest: Text, digits: Text)
    requires SkipSpaces(x) == rest
    requires Digits(if rest != [] && IsSign(rest[0]) then rest[1..] else rest) == digits
    ensures var n := Magnitude(digits);
      if digits == [] || n >= 0x1_0000_0000_0000_0000 then Stoul(x) == NoNumber
      else Stoul(x).Number? &&
           Stoul(x).value % 0x1_0000_0000 == (if rest != [] && rest[0] == 0x2D then -n else n) % 0x1_0000_0000
  {
    hide Digits, SkipSpaces, Magnitude;
    NegativeModulo(Magnitude(digits));
  }

  lemma NegativeModulo(n: int)
    ensures 0 < n < TWO_TO_64 ==> (TWO_TO_64 - n) % TWO_TO_64 % 0x1_0000_0000 == -n % 0x1_0000_0000
    ensures n == 0 ==> TWO_TO_64 % TWO_TO_64 % 0x1_0000_0000 == 0
  {
    if 0 < n < TWO_TO_64 {
      assert (TWO_TO_64 - n) % TWO_TO_64 == TWO_TO_64 - n;
      assert TWO_TO_64 == 0x1_0000_0000 * 0x1_0000_0000;
    }
  }
}