/** EndMap: the two vectors written stand for the map, and its keys are found again by binary search. */
module FlexMaps {
  import opened Wrappers
  import opened Bytes
  import opened FlexFormat
  import opened FlexReader
  import opened FlexModel
  import opened FlexHolds
  import opened FlexVectors

  function KeyTrees(ks: seq<seq<byte>>): (ts: seq<Flex>)
    ensures |ts| == |ks| && forall i :: 0 <= i < |ks| ==> ts[i] == FKey(ks[i])
  {
    seq(|ks|, i requires 0 <= i < |ks| => FKey(ks[i]))
  }

  /** The typed vector at `pos` holds exactly these keys. */
  ghost predicate KeysAt(b: seq<byte>, pos: int, byteWidth: nat, ks: seq<seq<byte>>) {
    && InPlace(pos, byteWidth) && SizedAt(b, pos, byteWidth) == Some(Sized(pos, byteWidth, |ks|))
    && forall i :: 0 <= i < |ks| ==> KeyGet(b, Sized(pos, byteWidth, |ks|), i) == Some(ks[i])
  }

  lemma KeysGrow(b: seq<byte>, b': seq<byte>, pos: int, byteWidth: nat, ks: seq<seq<byte>>)
    requires b <= b' && KeysAt(b, pos, byteWidth, ks)
    ensures KeysAt(b', pos, byteWidth, ks)
  {
    hide ReadU, KeyGet;
    ReadUGrows(b, b', pos - byteWidth, ScalarSize(byteWidth));
    forall i | 0 <= i < |ks|
      ensures KeyGet(b', Sized(pos, byteWidth, |ks|), i) == Some(ks[i])
    {
      KeyGetGrows(b, b', Sized(pos, byteWidth, |ks|), i);
    }
  }

  lemma KeySlotReads(whole: seq<byte>, pos: int, bw: BitWidth, n: nat, i: nat, k: seq<byte>, byteWidth: nat)
    requires Denotes(whole, Ref(pos + Times(i, bw), ByteWidth(bw), byteWidth, FBT_KEY), FKey(k))
    ensures KeyGet(whole, Sized(pos, ByteWidth(bw), n), i) == Some(k)
  {
    hide ReadU, Times, ByteWidth, CStr;
    TimesIsProduct(i, bw);
  }

  /** The typed vector of keys, without a type table. */
  lemma KeyVectorHolds(b: seq<byte>, els: seq<Value>, ks: seq<seq<byte>>, force: BitWidth)
    requires AllHold(b, els, KeyTrees(ks)) && AllWritten(els, |b|)
    requires |CreateVector(b, els, 2, true, None, force).0| < TWO_63
    ensures var r := CreateVector(b, els, 2, true, None, force);
      KeysAt(r.0, r.1.u, ByteWidth(r.1.minWidth), ks)
  {
    hide LE, ElemBytes, VectorWidth, Denotes, Behind, Limit, CreateVector, AllWritten, KeyGet, SizedAt, Holds;
    hide ElemsWidth;
    var bw, front := VectorShape(b, els, 2, true, None, force);
    var w := ByteWidth(bw);
    var body := front + LE(|els|, w);
    var whole := Whole(body, els, bw, []);
    TimesAtLeast(|els|, bw);
    VectorWidthCovers(|b|, els, 2, None, force);
    BehindInPlace(b, body, 1, bw, 0);
    SizeReads(front, |els|, bw, ElemBytes(|body|, els, bw));
    assert whole == front + LE(|els|, w) + ElemBytes(|body|, els, bw);
    forall i | 0 <= i < |ks|
      ensures KeyGet(whole, Sized(|body|, w, |ks|), i) == Some(ks[i])
    {
      HeldKey(b, els[i], ks[i]);
      ElementDenotes(b, body, els, KeyTrees(ks), 1, 2, bw, [], i, ByteWidth(els[i].minWidth));
      KeySlotReads(whole, |body|, bw, |ks|, i, ks[i], ByteWidth(els[i].minWidth));
    }
  }

  lemma HeldKey(b: seq<byte>, v: Value, k: seq<byte>)
    requires Holds(b, v, FKey(k))
    ensures v.ftype == FBT_KEY && !IsInline(v.ftype) && 0 <= v.u <= |b| && CStr(b, v.u) == Some(k)
  {
  }

  /** From the map's vector the keys' vector is found again, with its width. */
  lemma KeysFound(head: seq<byte>, u: nat, kw: BitWidth, bw: BitWidth, n: nat, after: seq<byte>)
    requires u <= |head| && |head| - u < Limit(bw)
    ensures var w := ByteWidth(bw);
      var whole := head + LE(Unsigned(|head| - u, w), w) + LE(ByteWidth(kw), w) + after;
      Keys(whole, Sized(|head| + 3 * w, w, n)) == SizedAt(whole, u, ByteWidth(kw))
  {
    hide LE, Unsigned, ReadU, SizedAt;
    var w := ByteWidth(bw);
    var first, second := LE(Unsigned(|head| - u, w), w), LE(ByteWidth(kw), w);
    var whole := head + first + second + after;
    SlotReadsSmall(head, |head| - u, bw, second + after);
    assert head + first + (second + after) == whole;
    SlotReadsSmall(head + first, ByteWidth(kw), bw, after);
    UnsignedSmall(ByteWidth(kw), bw);
    assert head + first + second + after == whole;
  }

  lemma KeysFit(b: seq<byte>, keys: Value, bw: BitWidth)
    requires !IsInline(keys.ftype) && 0 <= keys.u <= |b| && ElemWidth(keys, |b|, 0) <= bw
    requires |Align(b, bw)| < TWO_63
    ensures var head := Align(b, bw); keys.u <= |head| && |head| - keys.u < Limit(bw)
  {
    hide AlignUp, FirstFit, Limit;
    AlignIsAlignUp(b, bw);
    OffsetIs(b, Align(b, bw), 0, bw, 0, keys.u);
    ElemWidthFits(keys, |b|, 0, 0, bw);
  }

  lemma AlignIsAlignUp(b: seq<byte>, bw: BitWidth)
    ensures b <= Align(b, bw) && |Align(b, bw)| == AlignUp(|b|, bw) && Behind(b, Align(b, bw), 0, bw)
  {
    hide PaddingBytes;
  }

  /** The vector of values behind a vector of keys is the map. */
  lemma MapHolds(b: seq<byte>, keys: Value, ks: seq<seq<byte>>, els: seq<Value>, ts: seq<Flex>, force: BitWidth)
    requires KeysAt(b, keys.u, ByteWidth(keys.minWidth), ks) && keys.ftype == FBT_VECTOR_KEY && 0 <= keys.u <= |b|
    requires AllHold(b, els, ts) && AllWritten(els, |b|) && |ks| == |ts| == |els|
    requires |CreateVector(b, els, 2, false, Some(keys), force).0| < TWO_63
    ensures var r := CreateVector(b, els, 2, false, Some(keys), force); Holds(r.0, r.1, FMap(ks, ts))
  {
    hide LE, ElemBytes, TypeBytes, VectorWidth, Elements, AllHold, Behind, Limit, CreateVector, AllWritten, KeysAt,
      Unsigned, MapKeys, Whole, ElemWidth, ElemsWidth, Align;
    var bw, front := VectorShape(b, els, 2, false, Some(keys), force);
    TimesAtLeast(|els|, bw);
    VectorWidthCovers(|b|, els, 2, Some(keys), force);
    KeysFit(b, keys, bw);
    BehindInPlace(b, front + LE(|els|, ByteWidth(bw)), 3, bw, 0);
    ElementsHold(b, front, els, ts, 3, 2, bw);
    MapKeysHold(b, keys, ks, front, els, bw);
  }

  lemma MapKeysHold(b: seq<byte>, keys: Value, ks: seq<seq<byte>>, front: seq<byte>, els: seq<Value>, bw: BitWidth)
    requires KeysAt(b, keys.u, ByteWidth(keys.minWidth), ks) && 0 <= keys.u && |els| == |ks|
    requires var head := Align(b, bw); var w := ByteWidth(bw);
      && keys.u <= |head| && |head| - keys.u < Limit(bw)
      && front == head + LE(Unsigned(|head| - keys.u, w), w) + LE(ByteWidth(keys.minWidth), w)
    ensures var body := front + LE(|els|, ByteWidth(bw));
      MapKeys(Whole(body, els, bw, TypeBytes(els, bw)), |body|, ByteWidth(bw), ks)
  {
    hide LE, ElemBytes, TypeBytes, Limit, Unsigned, Align, KeyGet, SizedAt, Keys, PaddingBytes;
    var w := ByteWidth(bw);
    var head := Align(b, bw);
    var body := front + LE(|els|, w);
    var rest := LE(|els|, w) + ElemBytes(|body|, els, bw) + TypeBytes(els, bw);
    var whole := Whole(body, els, bw, TypeBytes(els, bw));
    assert whole == front + rest;
    KeysFound(head, keys.u, keys.minWidth, bw, |ks|, rest);
    AlignIsAlignUp(b, bw);
    KeysGrow(b, whole, keys.u, ByteWidth(keys.minWidth), ks);
  }
}
