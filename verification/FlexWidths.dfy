/**
 * How narrow a vector is. EndVector always finds the least width at which the vector can be written.
 * EndMap asks about slots that lie farther away than those it uses, and finds the least width exactly
 * when the distances at the farther slots fit that width as well.
 */
module FlexWidths {
  import opened Wrappers
  import opened Bytes
  import opened FlexFormat
  import opened FlexModel

  /** The value can be stored in the given slot of that width behind `size` bytes. */
  predicate FitsSlot(size: nat, slot: nat, v: Value, bw: BitWidth)
    requires Written(v, size)
  {
    if IsInline(v.ftype) then v.minWidth <= bw else OffsetAt(size, slot, v.u, bw) < Limit(bw)
  }

  predicate SlotsFit(els: seq<Value>, size: nat, index: nat, step: nat, bw: BitWidth)
    requires AllWritten(els, size)
  {
    forall i :: 0 <= i < |els| ==> FitsSlot(size, index + i * step, els[i], bw)
  }

  /** Length, keys and elements fit that width when the elements stand `step` slots apart. */
  predicate Fits(size: nat, els: seq<Value>, step: nat, keys: Option<Value>, force: BitWidth, bw: BitWidth)
    requires AllWritten(els, size) && (keys.Some? ==> Written(keys.value, size))
  {
    && force <= bw && |els| < Limit(bw)
    && (keys.Some? ==> FitsSlot(size, 0, keys.value, bw))
    && SlotsFit(els, size, PrefixElems(keys), step, bw)
  }

  /** The vector can be written at that width, its elements next to each other, and at no smaller one. */
  predicate Narrowest(size: nat, els: seq<Value>, keys: Option<Value>, force: BitWidth, bw: BitWidth)
    requires AllWritten(els, size) && (keys.Some? ==> Written(keys.value, size))
  {
    && Fits(size, els, 1, keys, force, bw)
    && forall w: BitWidth :: w < bw ==> !Fits(size, els, 1, keys, force, w)
  }

  /** All slots asked about are at 64-bit distances. */
  predicate Addressable(size: nat, els: seq<Value>) {
    size + 16 * |els| + 32 < TWO_64
  }

  // ------------------------------------------------------------ what is asked

  lemma OffsetBelow(size: nat, slot: nat, u: int, bw: BitWidth)
    requires 0 <= u <= size && size + 8 * slot + 8 < TWO_64
    ensures OffsetAt(size, slot, u, bw) < TWO_64
  {
    hide AlignUp;
    AlignUpBounds(size, bw);
  }

  /** A width is enough for a slot exactly when it is at least what the loop over widths finds. */
  lemma ElemWidthIff(v: Value, size: nat, slot: nat, bw: BitWidth)
    requires Written(v, size) && size + 8 * slot + 8 < TWO_64
    ensures ElemWidth(v, size, slot) <= bw <==> FitsSlot(size, slot, v, bw)
  {
    if !IsInline(v.ftype) {
      OffsetBelow(size, slot, v.u, bw);
      if ElemWidth(v, size, slot) <= bw {
        ElemWidthFits(v, size, slot, slot, bw);
      } else {
        FirstFitIsSmallest(size, slot, v.u, 0);
        WidthUFits(OffsetAt(size, slot, v.u, bw), bw);
      }
    }
    hide OffsetAt, FirstFit, Limit;
  }

  lemma SlotsFitSplit(els: seq<Value>, size: nat, index: nat, step: nat, bw: BitWidth)
    requires AllWritten(els, size) && els != []
    ensures SlotsFit(els, size, index, step, bw) <==>
      FitsSlot(size, index, els[0], bw) && SlotsFit(els[1..], size, index + step, step, bw)
  {
    hide FitsSlot;
    forall i | 0 <= i < |els[1..]|
      ensures FitsSlot(size, index + step + i * step, els[1..][i], bw)
          <==> FitsSlot(size, index + (i + 1) * step, els[i + 1], bw)
    {
      assert index + step + i * step == index + (i + 1) * step;
    }
    if SlotsFit(els, size, index, step, bw) {
      assert FitsSlot(size, index + 0 * step, els[0], bw);
    }
    if FitsSlot(size, index, els[0], bw) && SlotsFit(els[1..], size, index + step, step, bw) {
      forall i | 0 <= i < |els|
        ensures FitsSlot(size, index + i * step, els[i], bw)
      {
        if i > 0 {
          var j := i - 1;
          assert FitsSlot(size, index + step + j * step, els[1..][j], bw);
        }
      }
    }
  }

  lemma {:induction false} ElemsWidthIff(els: seq<Value>, size: nat, index: nat, step: nat, bw: BitWidth)
    requires AllWritten(els, size) && 1 <= step <= 2 && size + 8 * index + 16 * |els| + 8 < TWO_64
    ensures ElemsWidth(els, size, index, step) <= bw <==> SlotsFit(els, size, index, step, bw)
    decreases |els|
  {
    hide ElemWidth, FitsSlot;
    if els != [] {
      ElemWidthIff(els[0], size, index, bw);
      ElemsWidthIff(els[1..], size, index + step, step, bw);
      SlotsFitSplit(els, size, index, step, bw);
      hide SlotsFit;
    }
  }

  /** The width found is enough exactly for what fits at the slots asked about. */
  lemma VectorWidthIff(size: nat, els: seq<Value>, step: nat, keys: Option<Value>, force: BitWidth, bw: BitWidth)
    requires AllWritten(els, size) && (keys.Some? ==> Written(keys.value, size))
    requires 1 <= step <= 2 && Addressable(size, els)
    ensures VectorWidth(size, els, step, keys, force) <= bw <==> Fits(size, els, step, keys, force, bw)
  {
    hide ElemsWidth, ElemWidth, FitsSlot, Limit, SlotsFit;
    WidthUFits(|els|, bw);
    if keys.Some? {
      ElemWidthIff(keys.value, size, 0, bw);
    }
    ElemsWidthIff(els, size, PrefixElems(keys), step, bw);
  }

  // ------------------------------------------------------------- plain vectors

  /** Asked about its own slots, a vector is as narrow as it can be, and only that width is. */
  lemma OwnSlotsNarrowest(size: nat, els: seq<Value>, keys: Option<Value>, force: BitWidth, bw: BitWidth)
    requires AllWritten(els, size) && (keys.Some? ==> Written(keys.value, size)) && Addressable(size, els)
    ensures Narrowest(size, els, keys, force, bw) <==> bw == VectorWidth(size, els, 1, keys, force)
  {
    hide VectorWidth, Fits;
    var least := VectorWidth(size, els, 1, keys, force);
    VectorWidthIff(size, els, 1, keys, force, bw);
    VectorWidthIff(size, els, 1, keys, force, least);
    forall w: BitWidth
      ensures least <= w <==> Fits(size, els, 1, keys, force, w)
    {
      VectorWidthIff(size, els, 1, keys, force, w);
    }
  }

  /** EndVector: no narrower vector holds these values. */
  lemma EndVectorNarrowest(s: State, start: nat)
    requires start <= |s.stack| && AllWritten(s.stack[start..], |s.buf|)
    requires Addressable(|s.buf|, s.stack[start..])
    ensures Narrowest(|s.buf|, s.stack[start..], None, s.forceMinBitWidth, EndVector(s, start).stack[start].minWidth)
  {
    hide VectorWidth, Narrowest, ElemBytes, TypeBytes, LE;
    OwnSlotsNarrowest(|s.buf|, s.stack[start..], None, s.forceMinBitWidth,
                      VectorWidth(|s.buf|, s.stack[start..], 1, None, s.forceMinBitWidth));
  }

  // ---------------------------------------------------------------------- maps

  /**
   * Some element refers to an object whose distance from the `2 * i`th slot overflows the width that all
   * distances from the `i`th slots fit.
   */
  predicate Overreaches(size: nat, els: seq<Value>, keys: Option<Value>, force: BitWidth)
    requires AllWritten(els, size) && (keys.Some? ==> Written(keys.value, size))
  {
    var least := VectorWidth(size, els, 1, keys, force);
    exists i :: 0 <= i < |els| && !IsInline(els[i].ftype)
      && OffsetAt(size, PrefixElems(keys) + 2 * i, els[i].u, least) >= Limit(least)
  }

  lemma FartherIsLarger(size: nat, slot: nat, farther: nat, v: Value, bw: BitWidth)
    requires Written(v, size) && slot <= farther && FitsSlot(size, farther, v, bw)
    ensures FitsSlot(size, slot, v, bw)
  {
    hide AlignUp;
  }

  lemma FitsNearer(size: nat, els: seq<Value>, keys: Option<Value>, force: BitWidth, bw: BitWidth)
    requires AllWritten(els, size) && (keys.Some? ==> Written(keys.value, size))
    requires Fits(size, els, 2, keys, force, bw)
    ensures Fits(size, els, 1, keys, force, bw)
  {
    hide FitsSlot, Limit;
    forall i | 0 <= i < |els|
      ensures FitsSlot(size, PrefixElems(keys) + i * 1, els[i], bw)
    {
      FartherIsLarger(size, PrefixElems(keys) + i * 1, PrefixElems(keys) + i * 2, els[i], bw);
    }
  }

  /** At the least width only the distances can keep the farther slots from fitting. */
  lemma OnlyDistances(size: nat, els: seq<Value>, keys: Option<Value>, force: BitWidth)
    requires AllWritten(els, size) && (keys.Some? ==> Written(keys.value, size))
    requires Fits(size, els, 1, keys, force, VectorWidth(size, els, 1, keys, force))
    ensures Fits(size, els, 2, keys, force, VectorWidth(size, els, 1, keys, force))
      <==> !Overreaches(size, els, keys, force)
  {
    hide VectorWidth, OffsetAt, Limit;
    var least := VectorWidth(size, els, 1, keys, force);
    forall i | 0 <= i < |els|
      ensures FitsSlot(size, PrefixElems(keys) + i * 2, els[i], least) <==>
        IsInline(els[i].ftype) || OffsetAt(size, PrefixElems(keys) + 2 * i, els[i].u, least) < Limit(least)
    {
      assert FitsSlot(size, PrefixElems(keys) + i * 1, els[i], least);
    }
  }

  /** The width of one of a map's vectors is the least exactly when no distance overreaches. */
  lemma MapVectorNarrowestIff(size: nat, els: seq<Value>, keys: Option<Value>, force: BitWidth)
    requires AllWritten(els, size) && (keys.Some? ==> Written(keys.value, size)) && Addressable(size, els)
    ensures Narrowest(size, els, keys, force, VectorWidth(size, els, 2, keys, force))
      <==> !Overreaches(size, els, keys, force)
  {
    hide VectorWidth, Fits, Overreaches, Narrowest;
    var least, found := VectorWidth(size, els, 1, keys, force), VectorWidth(size, els, 2, keys, force);
    OwnSlotsNarrowest(size, els, keys, force, found);
    VectorWidthIff(size, els, 1, keys, force, least);
    VectorWidthIff(size, els, 2, keys, force, least);
    VectorWidthIff(size, els, 2, keys, force, found);
    VectorWidthIff(size, els, 1, keys, force, found);
    OnlyDistances(size, els, keys, force);
    if Fits(size, els, 2, keys, force, found) {
      FitsNearer(size, els, keys, force, found);
    }
  }

  /** The sorted pairs of the stack, and the state between the two vectors of EndMap. */
  function SortedPairs(s: State, start: nat): seq<(Value, Value)>
    requires start <= |s.stack| && (|s.stack| - start) % 2 == 0
  {
    Sort(s.buf, Pairs(s.stack[start..]))
  }

  function KeyVector(s: State, start: nat): (r: (seq<byte>, Value))
    requires start <= |s.stack| && (|s.stack| - start) % 2 == 0 && AllWritten(s.stack[start..], |s.buf|)
    ensures s.buf <= r.0 && Written(r.1, |r.0|)
  {
    SortedWritten(s.buf, s.stack[start..], |s.buf|);
    CreateVector(s.buf, Firsts(SortedPairs(s, start)), 2, true, None, s.forceMinBitWidth)
  }

  /** EndMap: both its vectors are as narrow as they can be exactly when neither overreaches. */
  lemma EndMapNarrowestIff(s: State, start: nat)
    requires start <= |s.stack| && (|s.stack| - start) % 2 == 0 && AllWritten(s.stack[start..], |s.buf|)
    requires Addressable(|KeyVector(s, start).0|, s.stack[start..])
    ensures var (ps, ks) := (SortedPairs(s, start), KeyVector(s, start));
      && AllWritten(Firsts(ps), |s.buf|) && AllWritten(Seconds(ps), |ks.0|)
      && (Narrowest(|s.buf|, Firsts(ps), None, s.forceMinBitWidth, ks.1.minWidth)
          <==> !Overreaches(|s.buf|, Firsts(ps), None, s.forceMinBitWidth))
      && (Narrowest(|ks.0|, Seconds(ps), Some(ks.1), s.forceMinBitWidth, EndMap(s, start).stack[start].minWidth)
          <==> !Overreaches(|ks.0|, Seconds(ps), Some(ks.1), s.forceMinBitWidth))
  {
    hide VectorWidth, Narrowest, Overreaches, ElemBytes, TypeBytes, LE, Sort, Written;
    var ps, ks := SortedPairs(s, start), KeyVector(s, start);
    SortedWritten(s.buf, s.stack[start..], |s.buf|);
    PairsHalf(s.stack[start..]);
    WrittenLater(Seconds(ps), |s.buf|, |ks.0|);
    MapVectorNarrowestIff(|s.buf|, Firsts(ps), None, s.forceMinBitWidth);
    MapVectorNarrowestIff(|ks.0|, Seconds(ps), Some(ks.1), s.forceMinBitWidth);
  }
}
