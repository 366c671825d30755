/**
 * Types, widths and the choice of an element width of a FlexBuffer
 * (Common/library/flatbuffers/flexbuffers.h).
 */
module FlexFormat {
  import opened Bytes

  const FBT_NULL := 0
  const FBT_INT := 1
  const FBT_UINT := 2
  const FBT_FLOAT := 3
  const FBT_KEY := 4
  const FBT_STRING := 5
  const FBT_MAP := 9
  const FBT_VECTOR := 10
  const FBT_VECTOR_KEY := 14
  const FBT_BOOL := 26

  predicate IsInline(t: nat) {
    t <= FBT_FLOAT || t == FBT_BOOL
  }

  /** BIT_WIDTH_8 to BIT_WIDTH_64. */
  type BitWidth = x: nat | x < 4

  function ByteWidth(bw: BitWidth): (w: nat)
    ensures IsAlign(w) && w <= 8
  {
    if bw == 0 then 1 else if bw == 1 then 2 else if bw == 2 then 4 else 8
  }

  /** The place of the `n`th element of width `bw`. */
  function Times(n: nat, bw: BitWidth): nat {
    if bw == 0 then n else if bw == 1 then 2 * n else if bw == 2 then 4 * n else 8 * n
  }

  lemma TimesIsProduct(n: nat, bw: BitWidth)
    ensures Times(n, bw) == n * ByteWidth(bw)
  {
  }

  function Wider(a: BitWidth, b: BitWidth): BitWidth {
    if a >= b then a else b
  }

  /** The number of values an unsigned scalar of that width can hold. */
  function Limit(bw: BitWidth): nat {
    if bw == 0 then 256 else if bw == 1 then TWO_16 else if bw == 2 then TWO_32 else TWO_64
  }

  lemma LimitIsPower(bw: BitWidth)
    ensures Limit(bw) == Pow256(ByteWidth(bw))
  {
    Pow256Values();
  }

  function WidthU(u: nat): BitWidth {
    if u < 256 then 0 else if u < TWO_16 then 1 else if u < TWO_32 then 2 else 3
  }

  function WidthI(i: int): BitWidth {
    WidthU(if i >= 0 then 2 * i else -2 * i - 1)
  }

  /** The masks of the source: a value fits when no bit above the width is set. */
  lemma MasksAreBounds(u: bv64)
    ensures u & !((1 << 8) - 1) == 0 <==> u < 0x100
    ensures u & !((1 << 16) - 1) == 0 <==> u < 0x1_0000
    ensures u & !((1 << 32) - 1) == 0 <==> u < 0x1_0000_0000
  {
  }

  lemma WidthUFits(u: nat, bw: BitWidth)
    requires u < TWO_64
    ensures WidthU(u) <= bw <==> u < Limit(bw)
  {
  }

  /** The sign trick of WidthI finds the smallest width whose two's complement range holds the value. */
  lemma WidthIFits(i: int, bw: BitWidth)
    requires -TWO_63 <= i < TWO_63
    ensures WidthI(i) <= bw <==> -(Limit(bw) as int) <= 2 * i < Limit(bw)
  {
  }

  // ----------------------------------------------------------------- layout

  function AlignUp(n: nat, bw: BitWidth): nat {
    n + PaddingBytes(n, ByteWidth(bw))
  }

  lemma AlignUpBounds(n: nat, bw: BitWidth)
    ensures n <= AlignUp(n, bw) < n + ByteWidth(bw)
  {
    hide PaddingBytes;
  }

  lemma AlignUpMonotone(n: nat, bw: BitWidth)
    requires bw < 3
    ensures AlignUp(n, bw) <= AlignUp(n, bw + 1)
  {
    hide PaddingBytes, Aligned;
    var p := PaddingBytes(n, ByteWidth(bw + 1));
    AlignDivides(n + p, ByteWidth(bw + 1), ByteWidth(bw));
    PaddingLeast(n, ByteWidth(bw), p);
  }

  /** A value on the builder's stack: a scalar, or the position of something already written. */
  datatype Value = Value(u: int, ftype: nat, minWidth: BitWidth)

  /** The distance to `u` from the `index`th slot of that width behind a buffer of `size` bytes. */
  function OffsetAt(size: nat, index: nat, u: int, bw: BitWidth): nat
    requires u <= size
  {
    assert AlignUp(size, bw) >= size by { AlignUpBounds(size, bw); }
    AlignUp(size, bw) + Times(index, bw) - u
  }

  /** The loop over widths, from `bw` on. */
  function FirstFit(size: nat, index: nat, u: int, bw: BitWidth): BitWidth
    requires u <= size
    decreases 3 - bw
  {
    if WidthU(OffsetAt(size, index, u, bw)) == bw then bw
    else if bw < 3 then FirstFit(size, index, u, bw + 1)
    else 3
  }

  function ElemWidth(v: Value, size: nat, index: nat): BitWidth
    requires IsInline(v.ftype) || v.u <= size
  {
    if IsInline(v.ftype) then v.minWidth else FirstFit(size, index, v.u, 0)
  }

  lemma OffsetMonotone(size: nat, index: nat, u: int, bw: BitWidth)
    requires u <= size && bw < 3
    ensures OffsetAt(size, index, u, bw) <= OffsetAt(size, index, u, bw + 1)
  {
    hide AlignUp;
    AlignUpMonotone(size, bw);
  }

  /**
   * The loop always returns from inside: the width found is the one its own layout needs, and no
   * smaller width fits.
   */
  lemma {:induction false} FirstFitIsSmallest(size: nat, index: nat, u: int, from: BitWidth)
    requires u <= size && from <= WidthU(OffsetAt(size, index, u, from))
    ensures var bw := FirstFit(size, index, u, from);
      && from <= bw && WidthU(OffsetAt(size, index, u, bw)) == bw
      && forall w: BitWidth :: from <= w < bw ==> w < WidthU(OffsetAt(size, index, u, w))
    decreases 3 - from
  {
    hide OffsetAt;
    if WidthU(OffsetAt(size, index, u, from)) != from {
      OffsetMonotone(size, index, u, from);
      FirstFitIsSmallest(size, index, u, from + 1);
    }
  }

  /** An offset that fits one width fits every wider one, at any earlier slot. */
  lemma FitsWider(size: nat, index: nat, slot: nat, u: int, bw: BitWidth, wide: BitWidth)
    requires 0 <= u <= size && slot <= index && bw <= wide
    requires WidthU(OffsetAt(size, index, u, bw)) == bw && OffsetAt(size, slot, u, wide) < TWO_64
    ensures OffsetAt(size, slot, u, wide) < Limit(wide)
  {
    hide AlignUp;
    AlignUpBounds(size, bw);
    AlignUpBounds(size, wide);
  }

  /** So a relative offset never overflows the width finally chosen for the whole vector. */
  lemma ElemWidthFits(v: Value, size: nat, index: nat, slot: nat, wide: BitWidth)
    requires !IsInline(v.ftype) && 0 <= v.u <= size && slot <= index
    requires ElemWidth(v, size, index) <= wide && OffsetAt(size, slot, v.u, wide) < TWO_64
    ensures OffsetAt(size, slot, v.u, wide) < Limit(wide)
  {
    hide OffsetAt, FirstFit;
    FirstFitIsSmallest(size, index, v.u, 0);
    FitsWider(size, index, slot, v.u, ElemWidth(v, size, index), wide);
  }
}
