/** CreateVector: the vector written stands for the vector of the trees of its elements. */
module FlexVectors {
  import opened Wrappers
  import opened Bytes
  import opened FlexFormat
  import opened FlexReader
  import opened FlexModel
  import opened FlexHolds

  /** `body` is what stands before the elements: `index` slots of that width behind the padded `b`. */
  predicate Behind(b: seq<byte>, body: seq<byte>, index: nat, bw: BitWidth) {
    b <= body && |body| == AlignUp(|b|, bw) + Times(index, bw)
  }

  /** Slots are at multiples of their width. */
  lemma BehindInPlace(b: seq<byte>, body: seq<byte>, index: nat, bw: BitWidth, i: nat)
    requires Behind(b, body, index, bw)
    ensures InPlace(|body| + Times(i, bw), ByteWidth(bw)) && InPlace(|body|, ByteWidth(bw))
  {
    TimesAligned(index, bw);
    TimesAligned(i, bw);
    UpAligned(|b|, bw);
    var w := ByteWidth(bw);
    hide Aligned, Times, ByteWidth, AlignUp;
    AlignedPlus(AlignUp(|b|, bw), w, Times(index, bw));
    AlignedPlus(|body|, w, Times(i, bw));
    AlignedInPlace(|body|, w);
    AlignedInPlace(|body| + Times(i, bw), w);
  }

  lemma AlignedInPlace(pos: int, w: nat)
    requires w > 0
    ensures Aligned(pos, w) <==> InPlace(pos, w)
  {
  }

  lemma UpAligned(n: nat, bw: BitWidth)
    ensures Aligned(AlignUp(n, bw), ByteWidth(bw))
  {
    hide PaddingBytes, Aligned;
  }

  lemma TimesAligned(n: nat, bw: BitWidth)
    ensures Aligned(Times(n, bw), ByteWidth(bw))
  {
    TimesIsProduct(n, bw);
    hide Times, ByteWidth;
    MultipleAligned(n, ByteWidth(bw));
  }

  lemma MultipleAligned(n: nat, w: nat)
    requires w > 0
    ensures Aligned(n * w, w)
  {
    DivModUnique(n * w, w, n, 0);
  }

  lemma ElementFits(b: seq<byte>, body: seq<byte>, els: seq<Value>, index: nat, step: nat, bw: BitWidth, i: nat)
    requires AllWritten(els, |b|) && i < |els| && step >= 1 && Behind(b, body, index, bw)
    requires ElemsWidth(els, |b|, index, step) <= bw && |body| + Times(|els|, bw) < TWO_63
    ensures Fits(|body| + Times(i, bw), els[i], bw)
  {
    hide AlignUp, ElemsWidth, FirstFit;
    var asked := ElemsWidthCovers(els, |b|, index, step, i);
    var v := els[i];
    if !IsInline(v.ftype) {
      OffsetIs(b, body, index, bw, i, v.u);
      ElemWidthFits(v, |b|, asked, index + i, bw);
    }
    hide Limit;
  }

  lemma OffsetIs(b: seq<byte>, body: seq<byte>, index: nat, bw: BitWidth, i: nat, u: int)
    requires u <= |b| && Behind(b, body, index, bw)
    ensures OffsetAt(|b|, index + i, u, bw) == |body| + Times(i, bw) - u
  {
    hide AlignUp;
  }

  function Whole(body: seq<byte>, els: seq<Value>, bw: BitWidth, tail: seq<byte>): seq<byte> {
    body + ElemBytes(|body|, els, bw) + tail
  }

  /** Every element is read back as its tree. */
  lemma ElementDenotes(b: seq<byte>, body: seq<byte>, els: seq<Value>, ts: seq<Flex>, index: nat, step: nat,
                       bw: BitWidth, tail: seq<byte>, i: nat, byteWidth: nat)
    requires AllHold(b, els, ts) && AllWritten(els, |b|) && i < |els| && step >= 1 && Behind(b, body, index, bw)
    requires ElemsWidth(els, |b|, index, step) <= bw && |body| + Times(|els|, bw) < TWO_63
    requires IsInline(els[i].ftype) || byteWidth == ByteWidth(els[i].minWidth)
    ensures Denotes(Whole(body, els, bw, tail),
                    Ref(|body| + Times(i, bw), ByteWidth(bw), byteWidth, els[i].ftype), ts[i])
  {
    hide ElemBytes, AnyBytes, Denotes, Fits, ElemsWidth, Holds;
    var pre, post := ElemSlot(|body|, els, bw, i);
    ElementFits(b, body, els, index, step, bw, i);
    BehindInPlace(b, body, index, bw, i);
    SlotDenotes(b, els[i], ts[i], body + pre, bw, post + tail, byteWidth);
    assert body + pre + AnyBytes(|body + pre|, els[i], bw) + (post + tail) == Whole(body, els, bw, tail);
  }

  lemma PackedRoundTrip(bw: BitWidth, ftype: nat)
    requires IsType(ftype)
    ensures PackedType(bw, ftype) % 4 == bw && PackedType(bw, ftype) / 4 == ftype
  {
  }

  lemma ByteReads(whole: seq<byte>, before: seq<byte>, tail: seq<byte>, i: nat)
    requires whole == before + tail && i < |tail|
    ensures ReadU(whole, |before| + i, 1) == Some(tail[i])
  {
    var s := [tail[i]];
    assert whole[|before| + i..|before| + i + 1] == s;
    assert s[1..] == [] && FromLE(s) == s[0] + 256 * FromLE(s[1..]);
  }

  /** The accessor finds the element's slot and its type. */
  lemma GetFinds(body: seq<byte>, els: seq<Value>, bw: BitWidth, i: nat)
    requires i < |els| && IsType(els[i].ftype)
    ensures VectorGet(Whole(body, els, bw, TypeBytes(els, bw)), Sized(|body|, ByteWidth(bw), |els|), i)
         == Some(Ref(|body| + Times(i, bw), ByteWidth(bw), ByteWidth(StoredWidth(els[i], bw)), els[i].ftype))
  {
    var types := TypeBytes(els, bw);
    var whole := Whole(body, els, bw, types);
    var before := body + ElemBytes(|body|, els, bw);
    hide ElemBytes, TypeBytes, ReadU, StoredWidth, ByteWidth, Times, PackedType;
    TimesIsProduct(|els|, bw);
    TimesIsProduct(i, bw);
    ByteReads(whole, before, types, i);
    PackedRoundTrip(StoredWidth(els[i], bw), els[i].ftype);
  }

  /** The number of elements stands in the slot before them. */
  lemma SizeReads(front: seq<byte>, n: nat, bw: BitWidth, after: seq<byte>)
    requires n < Limit(bw)
    ensures var w := ByteWidth(bw);
      SizedAt(front + LE(n, w) + after, |front| + w, w) == Some(Sized(|front| + w, w, n))
  {
    hide LE, ReadU, Unsigned;
    SlotReadsSmall(front, n, bw, after);
    UnsignedSmall(n, bw);
  }

  /** A vector with its types: exactly the trees of its elements. */
  lemma ElementsHold(b: seq<byte>, front: seq<byte>, els: seq<Value>, ts: seq<Flex>, index: nat, step: nat,
                     bw: BitWidth)
    requires AllHold(b, els, ts) && step >= 1 && |els| < Limit(bw)
    requires AllWritten(els, |b|) && Behind(b, front + LE(|els|, ByteWidth(bw)), index, bw)
    requires ElemsWidth(els, |b|, index, step) <= bw
    requires |front| + ByteWidth(bw) + Times(|els|, bw) < TWO_63
    ensures var body := front + LE(|els|, ByteWidth(bw));
      Elements(Whole(body, els, bw, TypeBytes(els, bw)), |body|, ByteWidth(bw), ts)
  {
    hide ElemBytes, LE, Denotes, SizedAt, VectorGet, TypeBytes, Limit, Behind, ElemsWidth, Holds, Written;
    var w := ByteWidth(bw);
    var body := front + LE(|els|, w);
    var types := TypeBytes(els, bw);
    var whole := Whole(body, els, bw, types);
    SizeReads(front, |els|, bw, ElemBytes(|body|, els, bw) + types);
    assert whole == front + LE(|els|, w) + (ElemBytes(|body|, els, bw) + types);
    forall i | 0 <= i < |ts|
      ensures var r := VectorGet(whole, Sized(|body|, w, |ts|), i); r.Some? && Denotes(whole, r.value, ts[i])
    {
      HeldType(b, els[i], ts[i]);
      GetFinds(body, els, bw, i);
      ElementDenotes(b, body, els, ts, index, step, bw, types, i, ByteWidth(StoredWidth(els[i], bw)));
    }
  }

  // ------------------------------------------------------------- CreateVector

  /** What a vector takes: padding, prefix, elements. */
  lemma VectorShape(b: seq<byte>, els: seq<Value>, step: nat, typed: bool, keys: Option<Value>, force: BitWidth)
    returns (bw: BitWidth, front: seq<byte>)
    requires AllWritten(els, |b|) && (keys.Some? ==> Written(keys.value, |b|))
    ensures bw == VectorWidth(|b|, els, step, keys, force)
    ensures var head := Align(b, bw); var w := ByteWidth(bw);
      front == if keys.Some? then
                 head + LE(Unsigned(|head| - keys.value.u, w), w) + LE(ByteWidth(keys.value.minWidth), w)
               else head
    ensures var r := CreateVector(b, els, step, typed, keys, force); var body := front + LE(|els|, ByteWidth(bw));
      && r.0 == Whole(body, els, bw, if typed then [] else TypeBytes(els, bw))
      && r.1 == Value(|body|, if keys.Some? then FBT_MAP else if typed then FBT_VECTOR_KEY else FBT_VECTOR, bw)
      && Behind(b, body, PrefixElems(keys), bw)
      && |front| + ByteWidth(bw) + Times(|els|, bw) <= |r.0|
  {
    hide LE, ElemBytes, TypeBytes, VectorWidth, Unsigned, PaddingBytes;
    bw := VectorWidth(|b|, els, step, keys, force);
    var head, w := Align(b, bw), ByteWidth(bw);
    front := if keys.Some? then
      head + LE(Unsigned(|head| - keys.value.u, w), w) + LE(ByteWidth(keys.value.minWidth), w) else head;
    assert head + PrefixBytes(|head|, |els|, keys, bw) == front + LE(|els|, w);
  }

  lemma VectorWidthCovers(size: nat, els: seq<Value>, step: nat, keys: Option<Value>, force: BitWidth)
    requires AllWritten(els, size) && (keys.Some? ==> Written(keys.value, size)) && |els| < TWO_64
    ensures var bw := VectorWidth(size, els, step, keys, force);
      && |els| < Limit(bw) && ElemsWidth(els, size, PrefixElems(keys), step) <= bw
      && (keys.Some? ==> ElemWidth(keys.value, size, 0) <= bw)
  {
    hide ElemsWidth, ElemWidth, Limit;
    WidthUFits(|els|, VectorWidth(size, els, step, keys, force));
  }

  /** Some element asks for exactly the width found. */
  lemma {:induction false} ElemsWidthAttained(els: seq<Value>, size: nat, index: nat, step: nat) returns (i: nat)
    requires AllWritten(els, size)
    ensures ElemsWidth(els, size, index, step) == 0
      || (i < |els| && ElemsWidth(els, size, index, step) == ElemWidth(els[i], size, index + i * step))
    decreases |els|
  {
    hide ElemWidth;
    i := 0;
    if els != [] && ElemsWidth(els, size, index, step) != ElemWidth(els[0], size, index) {
      var j := ElemsWidthAttained(els[1..], size, index + step, step);
      i := j + 1;
      assert index + step + j * step == index + i * step;
    }
  }

  /** No vector is wider than its length, its keys, one of its elements or the forced minimum asks for. */
  lemma VectorWidthAttained(size: nat, els: seq<Value>, step: nat, keys: Option<Value>, force: BitWidth)
    returns (i: nat)
    requires AllWritten(els, size) && (keys.Some? ==> Written(keys.value, size))
    ensures var bw := VectorWidth(size, els, step, keys, force);
      || bw == force || bw == WidthU(|els|)
      || (keys.Some? && bw == ElemWidth(keys.value, size, 0))
      || (i < |els| && bw == ElemWidth(els[i], size, PrefixElems(keys) + i * step))
  {
    hide ElemWidth, ElemsWidth, WidthU;
    i := ElemsWidthAttained(els, size, PrefixElems(keys), step);
  }

  lemma TimesAtLeast(n: nat, bw: BitWidth)
    ensures n <= Times(n, bw)
  {
  }

  /** EndVector: the untyped vector of the values is the vector of their trees. */
  lemma VectorHolds(b: seq<byte>, els: seq<Value>, ts: seq<Flex>, force: BitWidth)
    requires AllHold(b, els, ts) && AllWritten(els, |b|)
    requires |CreateVector(b, els, 1, false, None, force).0| < TWO_63
    ensures var r := CreateVector(b, els, 1, false, None, force); Holds(r.0, r.1, FVector(ts))
  {
    hide LE, ElemBytes, TypeBytes, VectorWidth, Elements, AllHold, Behind, Limit, CreateVector, Whole, AllWritten;
    var bw, front := VectorShape(b, els, 1, false, None, force);
    TimesAtLeast(|els|, bw);
    VectorWidthCovers(|b|, els, 1, None, force);
    BehindInPlace(b, front + LE(|els|, ByteWidth(bw)), 1, bw, 0);
    ElementsHold(b, front, els, ts, 1, 1, bw);
  }
}
