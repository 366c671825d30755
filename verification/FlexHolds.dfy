/**
 * Values on the builder's stack stand for trees, and stay so while the buffer grows; a vector made of
 * them stands for the vector of their trees.
 */
module FlexHolds {
  import opened Wrappers
  import opened Bytes
  import opened FlexFormat
  import opened FlexReader
  import opened FlexModel

  /** The value `v`, with what it refers to in `b`, is the tree `t`. */
  ghost predicate Holds(b: seq<byte>, v: Value, t: Flex) {
    match t
    case FNull => v == Value(0, FBT_NULL, 0)
    case FBool(x) => v == Value(if x then 1 else 0, FBT_BOOL, 0)
    case FInt(i) => -TWO_63 <= i < TWO_63 && v == Value(i, FBT_INT, WidthI(i))
    case FUInt(u) => u < TWO_64 && v == Value(u, FBT_UINT, WidthU(u))
    case _ => 0 <= v.u <= |b| && Target(b, v.u, ByteWidth(v.minWidth), v.ftype, t)
  }

  ghost predicate AllHold(b: seq<byte>, els: seq<Value>, ts: seq<Flex>) {
    |els| == |ts| && forall i :: 0 <= i < |els| ==> Holds(b, els[i], ts[i])
  }

  lemma HoldsGrows(b: seq<byte>, b': seq<byte>, v: Value, t: Flex)
    requires b <= b' && Holds(b, v, t)
    ensures Holds(b', v, t)
  {
    if !(t.FNull? || t.FBool? || t.FInt? || t.FUInt?) {
      TargetGrows(b, b', v.u, ByteWidth(v.minWidth), v.ftype, t);
    }
    hide Target;
  }

  lemma AllHoldGrow(b: seq<byte>, b': seq<byte>, els: seq<Value>, ts: seq<Flex>)
    requires b <= b' && AllHold(b, els, ts)
    ensures AllHold(b', els, ts)
  {
    hide Holds;
    forall i | 0 <= i < |els|
      ensures Holds(b', els[i], ts[i])
    {
      HoldsGrows(b, b', els[i], ts[i]);
    }
  }

  predicate IsType(t: nat) {
    t < 64
  }

  lemma HeldType(b: seq<byte>, v: Value, t: Flex)
    requires Holds(b, v, t)
    ensures IsType(v.ftype) && Written(v, |b|)
    ensures IsInline(v.ftype) <==> t.FNull? || t.FBool? || t.FInt? || t.FUInt?
  {
    hide Elements, MapKeys;
  }

  lemma AllHeldWritten(b: seq<byte>, els: seq<Value>, ts: seq<Flex>)
    requires AllHold(b, els, ts)
    ensures AllWritten(els, |b|)
  {
    hide Holds;
    forall i | 0 <= i < |els|
      ensures Written(els[i], |b|)
    {
      HeldType(b, els[i], ts[i]);
    }
  }

  // ------------------------------------------------------------------ one slot

  lemma ScalarSizeOf(bw: BitWidth)
    ensures ScalarSize(ByteWidth(bw)) == ByteWidth(bw)
  {
  }

  lemma SlotReads(before: seq<byte>, x: int, bw: BitWidth, after: seq<byte>)
    ensures var w := ByteWidth(bw);
      ReadU(before + LE(Unsigned(x, w), w) + after, |before|, w) == Some(Unsigned(x, w))
  {
    hide LE, Unsigned, FromLE, ReadU;
    var w := ByteWidth(bw);
    ReadUOf(before + LE(Unsigned(x, w), w) + after, before, LE(Unsigned(x, w), w), after);
    FromLEofLE(Unsigned(x, w), w);
    SmallMod(Unsigned(x, w), Pow256(w));
  }

  lemma UnsignedSmall(x: int, bw: BitWidth)
    requires 0 <= x < Limit(bw)
    ensures Unsigned(x, ByteWidth(bw)) == x
  {
    LimitIsPower(bw);
    SmallMod(x, Limit(bw));
  }

  lemma SlotReadsSmall(before: seq<byte>, x: nat, bw: BitWidth, after: seq<byte>)
    requires x < Limit(bw)
    ensures var w := ByteWidth(bw);
      ReadUInt64(before + LE(Unsigned(x, w), w) + after, |before|, w) == Some(x)
  {
    hide LE, Unsigned, ReadU, Limit;
    SlotReads(before, x, bw, after);
    UnsignedSmall(x, bw);
    ScalarSizeOf(bw);
  }

  lemma SlotReadsSigned(before: seq<byte>, i: int, bw: BitWidth, after: seq<byte>)
    requires -(Limit(bw) as int) <= 2 * i < Limit(bw)
    ensures var w := ByteWidth(bw);
      ReadInt64(before + LE(Unsigned(i, w), w) + after, |before|, w) == Some(i)
  {
    hide LE, Unsigned, ReadU, Limit, Signed;
    SlotReads(before, i, bw, after);
    LimitIsPower(bw);
    SignedOfUnsigned(i, ByteWidth(bw));
    ScalarSizeOf(bw);
  }

  /** The value fits a slot of that width at the end of a buffer of `size` bytes. */
  predicate Fits(size: nat, v: Value, bw: BitWidth) {
    if IsInline(v.ftype) then v.minWidth <= bw else 0 <= v.u <= size && size - v.u < Limit(bw)
  }

  /** A value written in a slot it fits is read back as its tree. */
  lemma SlotDenotes(b: seq<byte>, v: Value, t: Flex, before: seq<byte>, bw: BitWidth, after: seq<byte>, byteWidth: nat)
    requires Holds(b, v, t) && b <= before && Fits(|before|, v, bw) && InPlace(|before|, ByteWidth(bw))
    requires IsInline(v.ftype) || byteWidth == ByteWidth(v.minWidth)
    ensures Denotes(before + AnyBytes(|before|, v, bw) + after, Ref(|before|, ByteWidth(bw), byteWidth, v.ftype), t)
  {
    hide LE, Unsigned, ReadU, Limit, Target, Signed, WidthI;
    HeldType(b, v, t);
    match t
    case FNull =>
    case FBool(x) => BoolReads(before, x, bw, after);
    case FInt(i) =>
      WidthIFits(i, bw);
      SlotReadsSigned(before, i, bw, after);
    case FUInt(u) =>
      WidthUFits(u, bw);
      SlotReadsSmall(before, u, bw, after);
    case _ =>
      ObjectSlot(b, v, t, before, bw, after);
  }

  lemma BoolReads(before: seq<byte>, x: bool, bw: BitWidth, after: seq<byte>)
    ensures var w := ByteWidth(bw); var n := if x then 1 else 0;
      ReadUInt64(before + LE(Unsigned(n, w), w) + after, |before|, w) == Some(n)
  {
    SlotReadsSmall(before, if x then 1 else 0, bw, after);
    hide LE, Unsigned, ReadU;
  }

  lemma ObjectSlot(b: seq<byte>, v: Value, t: Flex, before: seq<byte>, bw: BitWidth, after: seq<byte>)
    requires Target(b, v.u, ByteWidth(v.minWidth), v.ftype, t) && b <= before
    requires !IsInline(v.ftype) && Fits(|before|, v, bw)
    ensures var b' := before + AnyBytes(|before|, v, bw) + after;
      && Indirect(b', |before|, ByteWidth(bw)) == Some(v.u)
      && Target(b', v.u, ByteWidth(v.minWidth), v.ftype, t)
  {
    hide LE, Unsigned, ReadU, Limit, Target;
    var b' := before + AnyBytes(|before|, v, bw) + after;
    SlotReadsSmall(before, |before| - v.u, bw, after);
    TargetGrows(b, b', v.u, ByteWidth(v.minWidth), v.ftype, t);
  }

  // ------------------------------------------------------- all slots of a vector

  /** The `i`th value is written in the `i`th slot. */
  lemma {:induction false} ElemSlot(size: nat, els: seq<Value>, bw: BitWidth, i: nat)
    returns (pre: seq<byte>, post: seq<byte>)
    requires i < |els|
    ensures |pre| == Times(i, bw)
    ensures ElemBytes(size, els, bw) == pre + AnyBytes(size + Times(i, bw), els[i], bw) + post
    decreases i
  {
    hide AnyBytes;
    var first := AnyBytes(size, els[0], bw);
    var rest := ElemBytes(size + ByteWidth(bw), els[1..], bw);
    if i == 0 {
      pre, post := [], rest;
      assert [] + first + rest == first + rest;
    } else {
      var p, q := ElemSlot(size + ByteWidth(bw), els[1..], bw, i - 1);
      pre, post := first + p, q;
      assert Times(i, bw) == ByteWidth(bw) + Times(i - 1, bw);
      var here := AnyBytes(size + Times(i, bw), els[i], bw);
      assert first + (p + here + q) == pre + here + post;
    }
  }

  /** The width of the vector covers what its `i`th element asks for, at a slot no nearer than its own. */
  lemma {:induction false} ElemsWidthCovers(els: seq<Value>, size: nat, index: nat, step: nat, i: nat)
    returns (asked: nat)
    requires AllWritten(els, size) && i < |els| && step >= 1
    ensures index + i <= asked && ElemWidth(els[i], size, asked) <= ElemsWidth(els, size, index, step)
    decreases i
  {
    hide ElemWidth;
    if i == 0 {
      asked := index;
    } else {
      asked := ElemsWidthCovers(els[1..], size, index + step, step, i - 1);
    }
  }
}
