/**
 * Bytes, little-endian scalars, two's complement and alignment padding
 * (Common/library/flatbuffers/base.h).
 */
module Bytes {
  import opened Wrappers

  type byte = x: int | 0 <= x < 256

  const TWO_16 := 0x1_0000
  const TWO_31 := 0x8000_0000
  const TWO_32 := 0x1_0000_0000
  const TWO_63 := 0x8000_0000_0000_0000
  const TWO_64 := 0x1_0000_0000_0000_0000

  // ---------------------------------------------------------------- scalars

  function Pow256(w: nat): (p: nat)
    ensures p >= 1
  {
    if w == 0 then 1 else 256 * Pow256(w - 1)
  }

  lemma Pow256Values()
    ensures Pow256(0) == 1 && Pow256(1) == 256 && Pow256(2) == TWO_16
    ensures Pow256(4) == TWO_32 && Pow256(8) == TWO_64
  {
    assert Pow256(3) == 256 * Pow256(2);
    assert Pow256(5) == 256 * Pow256(4);
    assert Pow256(6) == 256 * Pow256(5);
    assert Pow256(7) == 256 * Pow256(6);
  }

  /** The `w` low-order bytes of `v`, least significant first: what `WriteScalar` stores. */
  function LE(v: nat, w: nat): (s: seq<byte>)
    ensures |s| == w
  {
    if w == 0 then [] else [v % 256] + LE(v / 256, w - 1)
  }

  function FromLE(s: seq<byte>): nat {
    if s == [] then 0 else s[0] + 256 * FromLE(s[1..])
  }

  lemma ModSplit(v: nat, p: nat)
    requires p >= 1
    ensures v % (256 * p) == v % 256 + 256 * ((v / 256) % p)
  {
    var q, r := v / 256, v % 256;
    var a, c := q / p, q % p;
    assert v == 256 * q + r && q == p * a + c;
    assert v == (256 * p) * a + (256 * c + r) by {
      assert 256 * (p * a) == (256 * p) * a;
    }
    assert 0 <= 256 * c + r < 256 * p by { assert 256 * c <= 256 * (p - 1); }
    DivModUnique(v, 256 * p, a, 256 * c + r);
  }

  lemma MulAtLeast(m: int, d: int)
    requires m > 0 && d >= 1
    ensures m * d >= m
  {
  }

  lemma DivModUnique(v: int, m: int, q: int, r: int)
    requires m > 0 && v == m * q + r && 0 <= r < m
    ensures v / m == q && v % m == r
  {
    var q', r' := v / m, v % m;
    assert m * q' + r' == m * q + r;
    assert m * (q - q') == m * q - m * q';
    assert m * (q' - q) == m * q' - m * q;
    if q > q' {
      MulAtLeast(m, q - q');
    } else if q < q' {
      MulAtLeast(m, q' - q);
    }
  }

  lemma SmallMod(v: int, m: int)
    requires 0 <= v < m
    ensures v % m == v
  {
  }

  /** Reading a stored scalar gives back its value at the stored width. */
  lemma {:induction false} FromLEofLE(v: nat, w: nat)
    ensures FromLE(LE(v, w)) == v % Pow256(w)
  {
    if w > 0 {
      var s := LE(v, w);
      assert s[1..] == LE(v / 256, w - 1);
      FromLEofLE(v / 256, w - 1);
      ModSplit(v, Pow256(w - 1));
    }
  }

  lemma {:induction false} FromLEBound(s: seq<byte>)
    ensures FromLE(s) < Pow256(|s|)
  {
    if s != [] {
      FromLEBound(s[1..]);
    }
  }

  /** Storing what was read reproduces the bytes, so distinct byte strings read as distinct scalars. */
  lemma {:induction false} LEofFromLE(s: seq<byte>)
    ensures LE(FromLE(s), |s|) == s
  {
    if s != [] {
      LEofFromLE(s[1..]);
      var rest := FromLE(s[1..]);
      DivModUnique(FromLE(s), 256, rest, s[0]);
      assert s == [s[0]] + s[1..];
    }
  }

  // ---------------------------------------------------------- sign handling

  /** The unsigned bit pattern of width `w` bytes of a signed (or over-wide) value. */
  function Unsigned(i: int, w: nat): (u: nat)
    ensures u < Pow256(w)
  {
    i % Pow256(w)
  }

  /** Two's complement reading of a bit pattern of `w` bytes. */
  function Signed(u: nat, w: nat): int {
    if 2 * u < Pow256(w) then u else u - Pow256(w)
  }

  lemma SignedOfUnsigned(i: int, w: nat)
    requires -(Pow256(w) as int) <= 2 * i < Pow256(w)
    ensures Signed(Unsigned(i, w), w) == i
  {
    var m := Pow256(w);
    if i >= 0 {
      DivModUnique(i, m, 0, i);
    } else {
      DivModUnique(i, m, -1, i + m);
    }
  }

  // -------------------------------------------------------------- alignment

  predicate IsAlign(k: nat) {
    k == 1 || k == 2 || k == 4 || k == 8 || k == 16 || k == 32
  }

  predicate Aligned(n: int, k: nat)
    requires k > 0
  {
    n % k == 0
  }

  /** base.h: the padding that makes `n` a multiple of the alignment `k`. */
  function PaddingBytes(n: nat, k: nat): (p: nat)
    requires k > 0
    ensures p < k && Aligned(n + p, k)
  {
    PaddingAligns(n, k);
    (0 - n) % k
  }

  lemma PaddingAligns(n: nat, k: nat)
    requires k > 0
    ensures Aligned(n + (0 - n) % k, k)
  {
    var q, p := (0 - n) / k, (0 - n) % k;
    assert 0 - n == k * q + p;
    assert k * (0 - q) == 0 - k * q;
    DivModUnique(n + p, k, 0 - q, 0);
  }

  /** The padding is the least one. */
  lemma PaddingLeast(n: nat, k: nat, p: nat)
    requires k > 0 && Aligned(n + p, k)
    ensures PaddingBytes(n, k) <= p
  {
    hide PaddingBytes;
    var m := PaddingBytes(n, k);
    var a := (n + m) / k;
    assert n + m == k * a;
    assert k * (a - 1) == k * a - k;
    if p < m {
      DivModUnique(n + p, k, a - 1, k - (m - p));
    }
  }

  lemma AlignedPlus(n: int, k: nat, a: int)
    requires k > 0 && Aligned(n, k) && Aligned(a, k)
    ensures Aligned(n + a, k) && Aligned(n - a, k)
  {
    var q, r := n / k, a / k;
    assert n == k * q && a == k * r;
    assert n + a == k * (q + r) by { assert k * (q + r) == k * q + k * r; }
    assert n - a == k * (q - r) by { assert k * (q - r) == k * q - k * r; }
    DivModUnique(n + a, k, q + r, 0);
    DivModUnique(n - a, k, q - r, 0);
  }

  lemma AlignedSelf(k: nat)
    requires k > 0
    ensures Aligned(k, k)
  {
    DivModUnique(k, k, 1, 0);
  }

  /** base.h computes the padding with bit operations on 64-bit words. */
  function PaddingBits(n: bv64, k: bv64): bv64 {
    ((!n) + 1) & (k - 1)
  }

  /** The bit trick is negation modulo the alignment, for every alignment the library supports. */
  lemma PaddingBitsIsNegation(n: bv64)
    ensures PaddingBits(n, 1) == 0
    ensures PaddingBits(n, 2) == (2 - n % 2) % 2
    ensures PaddingBits(n, 4) == (4 - n % 4) % 4
    ensures PaddingBits(n, 8) == (8 - n % 8) % 8
    ensures PaddingBits(n, 16) == (16 - n % 16) % 16
    ensures PaddingBits(n, 32) == (32 - n % 32) % 32
  {
  }

  /** Alignments are nested: a multiple of a larger one is a multiple of a smaller one. */
  lemma AlignDivides(n: int, big: nat, small: nat)
    requires IsAlign(big) && IsAlign(small) && small <= big && Aligned(n, big)
    ensures Aligned(n, small)
  {
    if small < big {
      AlignHalf(n, big / 2);
      AlignDivides(n, big / 2, small);
    }
  }

  lemma AlignHalf(n: int, k: nat)
    requires k > 0 && Aligned(n, 2 * k)
    ensures Aligned(n, k)
  {
    var q := n / (2 * k);
    assert n == (2 * k) * q;
    assert (2 * k) * q == k * (2 * q);
    DivModUnique(n, k, 2 * q, 0);
  }

  function Max(a: nat, b: nat): nat {
    if a >= b then a else b
  }

  function Zeros(n: nat): (s: seq<byte>)
    ensures |s| == n && forall i :: 0 <= i < n ==> s[i] == 0
  {
    seq(n, i => 0)
  }

  // --------------------------------------------------------- bounded reading

  /** A scalar of `w` bytes at index `p`; `None` when any byte lies outside the buffer. */
  function ReadU(b: seq<byte>, p: int, w: nat): Option<nat> {
    if 0 <= p && p + w <= |b| then Some(FromLE(b[p..p + w])) else None
  }

  function ReadS(b: seq<byte>, p: int, w: nat): Option<int> {
    var u :- ReadU(b, p, w);
    Some(Signed(u, w))
  }

  /** What is in the buffer does not change, nor its distance from the end, when bytes are put in front. */
  lemma ReadUShift(q: seq<byte>, b: seq<byte>, p: int, w: nat)
    requires ReadU(b, p, w).Some?
    ensures ReadU(q + b, |q| + p, w) == ReadU(b, p, w)
  {
    assert (q + b)[|q| + p..|q| + p + w] == b[p..p + w];
  }

  /** Reading at a place where a known byte string starts. */
  lemma ReadUOf(b: seq<byte>, pre: seq<byte>, s: seq<byte>, post: seq<byte>)
    requires b == pre + s + post
    ensures ReadU(b, |pre|, |s|) == Some(FromLE(s))
  {
    assert b[|pre|..|pre| + |s|] == s;
  }

  // ------------------------------------------- addressing from the buffer end

  /** `s` is stored in `b` at the offset `o` counted from the end of the buffer. */
  predicate At(b: seq<byte>, o: nat, s: seq<byte>) {
    |s| <= o <= |b| && b[|b| - o..|b| - o + |s|] == s
  }

  lemma AtShift(q: seq<byte>, b: seq<byte>, o: nat, s: seq<byte>)
    requires At(b, o, s)
    ensures At(q + b, o, s)
  {
    assert (q + b)[|q + b| - o..|q + b| - o + |s|] == b[|b| - o..|b| - o + |s|];
  }

  lemma AtFront(s: seq<byte>, b: seq<byte>)
    ensures At(s + b, |s + b|, s)
  {
  }

  lemma AtRead(b: seq<byte>, o: nat, v: nat, w: nat)
    requires At(b, o, LE(v, w))
    ensures ReadU(b, |b| - o, w) == Some(v % Pow256(w))
  {
    FromLEofLE(v, w);
  }

  lemma AtConcat(b: seq<byte>, o: nat, s: seq<byte>, t: seq<byte>)
    ensures At(b, o, s + t) <==> |s| <= o && At(b, o, s) && At(b, o - |s|, t)
  {
    if |s| + |t| <= o <= |b| {
      var p := |b| - o;
      assert b[p..p + |s|] + b[p + |s|..p + |s| + |t|] == b[p..p + |s + t|];
      if At(b, o, s + t) {
        assert b[p..p + |s + t|][..|s|] == s;
        assert b[p..p + |s + t|][|s|..] == t;
      }
    }
  }

  lemma AtReadZero(b: seq<byte>, o: nat)
    requires At(b, o, Zeros(1))
    ensures ReadU(b, |b| - o, 1) == Some(0)
  {
    var z := Zeros(1);
    assert FromLE(z) == 0 by { assert z[1..] == []; }
  }
}
