/** Bytes, 32-bit words in host (little-endian) order, and the wire's type codes. */
module Bytes {

  type byte = x: int | 0 <= x < 0x100
  type u32 = x: int | 0 <= x < 0x1_0000_0000

  /** A std::string: its bytes. */
  type Text = seq<byte>

  // eMessageMagic
  const END: byte := 0x00
  const UINT: byte := 0x10
  const INT: byte := 0x11
  const F32: byte := 0x12
  const SEQ: byte := 0x13
  const VARCHAR: byte := 0x20
  const ARRAY: byte := 0x21
  const OBJECT: byte := 0x22
  const FD: byte := 0x40

  /** The codes whose payload is four bytes. */
  predicate IsWord(magic: byte) {
    magic == UINT || magic == INT || magic == F32 || magic == SEQ || magic == OBJECT
  }

  /** The four bytes memcpy stores for a word. */
  function WordBytes(w: u32): (b: seq<byte>)
    ensures |b| == 4
  {
    [w % 0x100, w / 0x100 % 0x100, w / 0x100 / 0x100 % 0x100, w / 0x100 / 0x100 / 0x100]
  }

  /** The word memcpy loads from position i. */
  function WordAt(data: seq<byte>, i: nat): u32
    requires i + 4 <= |data|
  {
    WordOf(data[i], data[i + 1], data[i + 2], data[i + 3])
  }

  function WordOf(b0: int, b1: int, b2: int, b3: int): int {
    b0 + 0x100 * (b1 + 0x100 * (b2 + 0x100 * b3))
  }

  /** e stands in data at position i. */
  predicate At(data: seq<byte>, i: nat, e: seq<byte>)
    decreases |e|
  {
    i + |e| <= |data| && (e == [] || (data[i] == e[0] && At(data, i + 1, e[1..])))
  }

  lemma {:induction false} AtAppend(data: seq<byte>, i: nat, a: seq<byte>, b: seq<byte>)
    ensures At(data, i, a + b) <==> At(data, i, a) && At(data, i + |a|, b)
    decreases |a|
  {
    if a == [] {
      assert a + b == b;
    } else {
      assert (a + b)[1..] == a[1..] + b;
      AtAppend(data, i + 1, a[1..], b);
    }
  }

  /** A byte of an embedded sequence is the byte of the buffer. */
  lemma {:induction false} AtIndex(data: seq<byte>, i: nat, e: seq<byte>, k: nat)
    requires At(data, i, e) && k < |e|
    ensures data[i + k] == e[k]
    decreases k
  {
    if k > 0 {
      AtIndex(data, i + 1, e[1..], k - 1);
    }
  }

  lemma {:induction false} AtSlice(data: seq<byte>, i: nat, e: seq<byte>)
    requires At(data, i, e)
    ensures data[i..i + |e|] == e
    decreases |e|
  {
    if e == [] {
    } else {
      AtSlice(data, i + 1, e[1..]);
    }
  }

  /** A sequence stands where it was cut from. */
  lemma {:induction false} SliceAt(data: seq<byte>, i: nat, e: seq<byte>)
    requires i + |e| <= |data| && data[i..i + |e|] == e
    ensures At(data, i, e)
    decreases |e|
  {
    if e == [] {
    } else {
      assert data[i + 1..i + 1 + |e[1..]|] == data[i..i + |e|][1..];
      SliceAt(data, i + 1, e[1..]);
    }
  }

  /** b repeats n bytes of a, from a's position d on. */
  predicate Agree(a: seq<byte>, d: nat, b: seq<byte>, n: nat) {
    d + n <= |a| && n <= |b| && (n == 0 || (a[d + n - 1] == b[n - 1] && Agree(a, d, b, n - 1)))
  }

  lemma {:induction false} AgreeAt(a: seq<byte>, d: nat, b: seq<byte>, n: nat, k: nat)
    requires Agree(a, d, b, n) && k < n
    ensures d + k < |a| && k < |b| && a[d + k] == b[k]
  {
    if k < n - 1 {
      AgreeAt(a, d, b, n - 1, k);
    }
  }

  lemma {:induction false} AgreeSlice(a: seq<byte>, d: nat, b: seq<byte>, n: nat, i: nat, j: nat)
    requires Agree(a, d, b, n) && i <= j <= n
    ensures d + n <= |a| && n <= |b| && a[d + i..d + j] == b[i..j]
  {
    if j == n && i < j {
      AgreeSlice(a, d, b, n - 1, i, j - 1);
      assert a[d + i..d + j] == a[d + i..d + j - 1] + [a[d + j - 1]];
      assert b[i..j] == b[i..j - 1] + [b[j - 1]];
    } else if j < n {
      AgreeSlice(a, d, b, n - 1, i, j);
    }
  }

  lemma {:induction false} SliceAgrees(a: seq<byte>, d: nat, n: nat, k: nat)
    requires d + n <= |a| && k <= n
    ensures Agree(a, d, a[d..d + n], k)
  {
    if k > 0 {
      SliceAgrees(a, d, n, k - 1);
    }
  }

  lemma {:induction false} ExtensionAgrees(a: seq<byte>, more: seq<byte>, k: nat)
    requires k <= |a|
    ensures Agree(a, 0, a + more, k)
  {
    if k > 0 {
      ExtensionAgrees(a, more, k - 1);
    }
  }

  lemma WordAtAgree(a: seq<byte>, d: nat, b: seq<byte>, n: nat, j: nat)
    requires Agree(a, d, b, n) && j + 4 <= n
    ensures d + j + 4 <= |a| && j + 4 <= |b| && WordAt(b, j) == WordAt(a, d + j)
  {
    AgreeAt(a, d, b, n, j);
    AgreeAt(a, d, b, n, j + 1);
    AgreeAt(a, d, b, n, j + 2);
    AgreeAt(a, d, b, n, j + 3);
  }

  lemma WordAtEncoded(data: seq<byte>, i: nat, w: u32)
    requires At(data, i, WordBytes(w))
    ensures WordAt(data, i) == w
  {
    var b := WordBytes(w);
    AtIndex(data, i, b, 0);
    AtIndex(data, i, b, 1);
    AtIndex(data, i, b, 2);
    AtIndex(data, i, b, 3);
  }
}
