/** Strings, shared strings, vectors of offsets and the finished buffer. */
module Objects {
  import opened Wrappers
  import opened Bytes
  import opened FlatReader
  import opened BuilderModel
  import opened TableLemmas

  // ---------------------------------------------------------------- strings

  /** A length-prefixed, zero-terminated string at offset `o`, aligned to its length word. */
  predicate StringHolds(b: seq<byte>, o: nat, str: seq<byte>, m: nat) {
    && Aligned(o, 4) && 4 <= m && |str| < TWO_31 && At(b, o, LE(|str|, 4) + str + Zeros(1))
  }

  lemma AlignedPushElement(s: State, v: nat)
    requires Aligned(|s.buf|, 4)
    ensures PushElement(s, v, 4) == s.(buf := LE(v, 4) + s.buf, minalign := Max(s.minalign, 4))
  {
    PaddingLeast(|s.buf|, 4, 0);
    assert Zeros(0) + s.buf == s.buf;
  }

  lemma CreateStringIs(s: State, str: seq<byte>) returns (pad: seq<byte>)
    requires |CreateString(s, str).0.buf| < TWO_31
    ensures var (s', o) := CreateString(s, str);
      && s' == s.(buf := (LE(|str|, 4) + str + Zeros(1)) + (pad + s.buf), minalign := Max(s.minalign, 4))
      && o == |s'.buf| && Aligned(o, 4) && |str| < TWO_31
  {
    hide PaddingBytes;
    pad := Zeros(PaddingBytes(|s.buf| + (|str| + 1), 4));
    var a := PushBytes(PreAlign(s, |str| + 1, 4), Zeros(1));
    var c := PushBytes(a, str);
    AlignedPushElement(c, |str| % TWO_32);
    SmallMod(|str|, TWO_32);
    assert LE(|str|, 4) + (str + (Zeros(1) + (pad + s.buf)))
        == (LE(|str|, 4) + str + Zeros(1)) + (pad + s.buf);
  }

  /** The new string reads back, and nothing written before has changed. */
  lemma CreateStringHolds(s: State, str: seq<byte>) returns (s': State, o: nat)
    requires WellFormed(s) && |CreateString(s, str).0.buf| < TWO_31
    ensures (s', o) == CreateString(s, str)
    ensures s' == s.(buf := s'.buf, minalign := Max(s.minalign, 4))
    ensures WellFormed(s') && Grows(s.buf, s'.buf) && |s.buf| < o == |s'.buf|
    ensures StringHolds(s'.buf, o, str, s'.minalign)
  {
    hide CreateString;
    var pad := CreateStringIs(s, str);
    s', o := CreateString(s, str).0, CreateString(s, str).1;
    var bytes := LE(|str|, 4) + str + Zeros(1);
    assert s'.buf == (bytes + pad) + s.buf;
    AtFront(bytes, pad + s.buf);
    WellFormedGrows(s, s'.buf);
  }

  /** The length word of a stored string. */
  lemma LengthReads(b: seq<byte>, o: nat, n: nat)
    requires At(b, o, LE(n, 4)) && n < TWO_31
    ensures VectorSize(b, |b| - o) == Some(n)
  {
    Pow256Values();
    AtRead(b, o, n, 4);
    SmallMod(n, TWO_32);
  }

  lemma StringHoldsReads(b: seq<byte>, o: nat, str: seq<byte>, m: nat)
    requires StringHolds(b, o, str, m)
    ensures StringAt(b, o) == Some(str) && |str| + 5 <= o <= |b|
    ensures VectorSize(b, |b| - o) == Some(|str|) && ReadU(b, |b| - o + 4 + |str|, 1) == Some(0)
  {
    hide LE;
    AtConcat(b, o, LE(|str|, 4) + str, Zeros(1));
    AtConcat(b, o, LE(|str|, 4), str);
    LengthReads(b, o, |str|);
    AtReadZero(b, o - 4 - |str|);
  }

  lemma StringHoldsGrows(b: seq<byte>, b': seq<byte>, o: nat, str: seq<byte>, m: nat, m': nat)
    requires StringHolds(b, o, str, m) && Grows(b, b') && m <= m'
    ensures StringHolds(b', o, str, m')
  {
    AtGrows(b, b', o, LE(|str|, 4) + str + Zeros(1));
  }

  // --------------------------------------------------------- shared strings

  lemma ContentsRead(b: seq<byte>, o: nat, str: seq<byte>)
    requires At(b, o, LE(|str|, 4) + str) && |str| < TWO_31 && StringAt(b, o).Some?
    ensures StringAt(b, o) == Some(str)
  {
    hide LE, StringAt, At;
    AtConcat(b, o, LE(|str|, 4), str);
    LengthReads(b, o, |str|);
    StringAtSlice(b, o, str);
  }

  lemma StringAtSlice(b: seq<byte>, o: nat, str: seq<byte>)
    requires StringAt(b, o).Some? && VectorSize(b, |b| - o) == Some(|str|) && o >= 4 && At(b, o - 4, str)
    ensures StringAt(b, o) == Some(str)
  {
    hide ReadU;
    var p := |b| - o + 4;
    AtIndex(b, p, str);
  }

  lemma AtIndex(b: seq<byte>, p: nat, s: seq<byte>)
    requires p <= |b| && At(b, |b| - p, s)
    ensures p + |s| <= |b| && b[p..p + |s|] == s
  {
  }

  lemma ContentsStored(b: seq<byte>, o: nat, str: seq<byte>)
    requires StringAt(b, o) == Some(str)
    ensures At(b, o, LE(|str|, 4) + str)
  {
    hide LE, FromLE;
    var p := |b| - o;
    LEofFromLE(b[p..p + 4]);
    AtConcat(b, o, LE(|str|, 4), str);
  }

  /** The comparison the pool uses is equality of contents. */
  lemma StringAtIs(b: seq<byte>, o: nat, str: seq<byte>)
    requires |str| < TWO_31 && StringAt(b, o).Some?
    ensures At(b, o, LE(|str| % TWO_32, 4) + str) <==> StringAt(b, o) == Some(str)
  {
    hide LE, StringAt, At;
    SmallMod(|str|, TWO_32);
    if At(b, o, LE(|str|, 4) + str) {
      ContentsRead(b, o, str);
    }
    if StringAt(b, o) == Some(str) {
      ContentsStored(b, o, str);
    }
  }

  lemma {:induction false} FindStringIs(b: seq<byte>, pool: seq<nat>, str: seq<byte>)
    requires |b| < TWO_31 && |str| < TWO_31 && PoolStored(b, pool)
    ensures match FindString(b, pool, str)
      case Some(o) => o in pool && StringStored(b, o) && StringAt(b, o) == Some(str)
      case None => forall i :: 0 <= i < |pool| ==> StringAt(b, pool[i]) != Some(str)
  {
    hide StringAt, Aligned, At;
    if pool != [] {
      assert StringStored(b, pool[0]);
      StringAtIs(b, pool[0], str);
      FindStringIs(b, pool[1..], str);
      assert forall i :: 1 <= i < |pool| ==> pool[i] == pool[1..][i - 1];
    }
  }

  lemma ZeroStored(b: seq<byte>, o: nat)
    requires o <= |b| && ReadU(b, |b| - o, 1) == Some(0)
    ensures At(b, o, Zeros(1))
  {
    var z := b[|b| - o..|b| - o + 1];
    assert z == [b[|b| - o]] && z[1..] == [];
  }

  /** A pooled string has the layout of a string just created. */
  lemma StoredHolds(b: seq<byte>, o: nat, str: seq<byte>, m: nat)
    requires StringStored(b, o) && StringAt(b, o) == Some(str) && |str| < TWO_31 && 4 <= m
    ensures StringHolds(b, o, str, m)
  {
    StringInside(b, o, str);
    ContentsStored(b, o, str);
    ZeroStored(b, o - 4 - |str|);
    hide StringAt, Aligned, At, ReadU, LE;
    AtConcat(b, o, LE(|str|, 4) + str, Zeros(1));
  }

  lemma StringInside(b: seq<byte>, o: nat, str: seq<byte>)
    requires StringAt(b, o) == Some(str)
    ensures |str| + 5 <= o <= |b|
  {
  }

  lemma HoldsStored(b: seq<byte>, o: nat, str: seq<byte>, m: nat)
    requires StringHolds(b, o, str, m)
    ensures StringStored(b, o) && StringAt(b, o) == Some(str)
  {
    hide StringAt, At;
    StringHoldsReads(b, o, str, m);
  }

  /** Strings shared so far and pool entries correspond one to one. */
  predicate InPool(s: State, o: nat, str: seq<byte>) {
    o in s.pool && StringAt(s.buf, o) == Some(str)
  }

  /**
   * The returned offset reads back as the argument and is the pool's entry for it. A string shared
   * before changes neither the buffer nor the pool; a new one adds one entry.
   */
  lemma CreateSharedStringHolds(s: State, str: seq<byte>) returns (s': State, o: nat)
    requires WellFormed(s) && |CreateString(s, str).0.buf| < TWO_31
    ensures (s', o) == CreateSharedString(s, str)
    ensures WellFormed(s') && Grows(s.buf, s'.buf) && InPool(s', o, str)
    ensures s' == s.(buf := s'.buf, pool := s'.pool, minalign := Max(s.minalign, 4))
    ensures (exists i :: 0 <= i < |s.pool| && StringAt(s.buf, s.pool[i]) == Some(str))
      <==> s'.buf == s.buf && s'.pool == s.pool
    ensures s'.pool != s.pool ==> s'.pool == s.pool + [o]
    ensures StringHolds(s'.buf, o, str, s'.minalign)
  {
    hide CreateString, StringAt, StringStored, StringHolds, VTablesStored, VTablesDistinct, FieldsFit, Grows;
    var c, off := CreateStringHolds(s, str);
    StringLimit(c.buf, off, str, c.minalign);
    HoldsStored(c.buf, off, str, c.minalign);
    FindStringIs(c.buf, s.pool, str);
    s', o := CreateSharedString(s, str).0, CreateSharedString(s, str).1;
    forall i | 0 <= i < |s.pool|
      ensures StringStored(s.buf, s.pool[i]) && StringAt(c.buf, s.pool[i]) == StringAt(s.buf, s.pool[i])
    {
      StringStoredGrows(s.buf, c.buf, s.pool[i]);
    }
    if FindString(c.buf, s.pool, str).Some? {
      GrowsSame(s.buf);
      StoredHolds(s.buf, o, str, s'.minalign);
    }
  }

  lemma StringLimit(b: seq<byte>, o: nat, str: seq<byte>, m: nat)
    requires StringHolds(b, o, str, m)
    ensures |str| < TWO_31
  {
  }

  /** Equal contents give equal offsets. */
  lemma SharedOnce(s: State, o1: nat, o2: nat, str: seq<byte>)
    requires WellFormed(s) && InPool(s, o1, str) && InPool(s, o2, str)
    ensures o1 == o2
  {
    var i :| 0 <= i < |s.pool| && s.pool[i] == o1;
    var j :| 0 <= j < |s.pool| && s.pool[j] == o2;
    assert i == j;
  }

  // ---------------------------------------------------------------- vectors

  /** A vector at offset `o` whose elements refer to the objects at `offs`, in order. */
  predicate VectorHolds(b: seq<byte>, o: nat, offs: seq<nat>, m: nat) {
    && Aligned(o, 4) && 4 <= m && 4 + 4 * |offs| <= o <= |b|
    && VectorSize(b, |b| - o) == Some(|offs|)
    && forall i :: 0 <= i < |offs| ==>
         0 < offs[i] < o - 4 - 4 * i && VectorGet(b, |b| - o, i) == Some(|b| - offs[i])
  }

  lemma PushOffsetIs(s: State, off: nat)
    requires 0 < off <= |s.buf| && Aligned(|s.buf|, 4) && |s.buf| + 4 < TWO_32
    ensures PushOffset(s, off)
         == s.(buf := LE(|s.buf| + 4 - off, 4) + s.buf, minalign := Max(s.minalign, 4))
  {
    PaddingLeast(|s.buf|, 4, 0);
    assert Zeros(0) + s.buf == s.buf;
    AlignedPushElement(Align(s, 4), Relative(|s.buf|, off));
    SmallMod(|s.buf| - off + 4, TWO_32);
  }

  /** Pushing from last to first leaves element `i` at distance `4 * i` from the front. */
  lemma {:induction false} PushOffsetsHold(s: State, offs: seq<nat>)
    requires OffsetsOk(offs, |s.buf|) && Aligned(|s.buf|, 4) && |s.buf| + 4 * |offs| < TWO_32
    ensures var r := PushOffsets(s, offs);
      && Grows(s.buf, r.buf) && |r.buf| == |s.buf| + 4 * |offs|
      && r == s.(buf := r.buf, minalign := r.minalign) && s.minalign <= r.minalign
      && (IsAlign(s.minalign) ==> IsAlign(r.minalign))
      && forall i :: 0 <= i < |offs| ==> At(r.buf, |r.buf| - 4 * i, LE(|r.buf| - 4 * i - offs[i], 4))
    decreases |offs|
  {
    hide PushOffset, Aligned, At, LE, Grows;
    if offs == [] {
      assert Grows(s.buf, s.buf) by { GrowsPush([], s.buf); assert [] + s.buf == s.buf; }
    } else {
      var last := |offs| - 1;
      PushOffsetIs(s, offs[last]);
      var p := PushOffset(s, offs[last]);
      var front := LE(|s.buf| + 4 - offs[last], 4);
      GrowsPush(front, s.buf);
      AtFront(front, s.buf);
      AlignedSelf(4);
      AlignedPlus(|s.buf|, 4, 4);
      PushOffsetsHold(p, offs[..last]);
      var r := PushOffsets(s, offs);
      GrowsTrans(s.buf, p.buf, r.buf);
      AtGrows(p.buf, r.buf, |p.buf|, front);
    }
  }

  lemma WellFormedMinalign(s: State, b': seq<byte>, m: nat)
    requires WellFormed(s) && Grows(s.buf, b') && IsAlign(m)
    ensures WellFormed(s.(buf := b', minalign := m))
  {
    WellFormedGrows(s, b');
    hide VTablesStored, VTablesDistinct, PoolStored, PoolDistinct, FieldsFit;
  }

  predicate PreAligned(s: State, len: nat, k: nat, s': State)
    requires k > 0
  {
    && Grows(s.buf, s'.buf) && s' == s.(buf := s'.buf, minalign := s'.minalign)
    && s.minalign <= s'.minalign && IsAlign(s'.minalign)
    && (len > 0 ==> Aligned(|s'.buf| + len, k) && k <= s'.minalign)
  }

  lemma PreAlignFacts(s: State, len: nat, k: nat)
    requires IsAlign(k) && IsAlign(s.minalign)
    ensures PreAligned(s, len, k, PreAlign(s, len, k))
  {
    if len == 0 {
      GrowsSame(s.buf);
    } else {
      PreAlignPads(s, len, k);
    }
  }

  lemma PreAlignPads(s: State, len: nat, k: nat)
    requires IsAlign(k) && IsAlign(s.minalign) && len > 0
    ensures PreAligned(s, len, k, PreAlign(s, len, k))
  {
    hide PaddingBytes, Aligned, Grows;
    var pad := Zeros(PaddingBytes(|s.buf| + len, k));
    GrowsPush(pad, s.buf);
    assert |pad + s.buf| + len == |s.buf| + len + |pad|;
  }

  lemma GrowsSame(b: seq<byte>)
    ensures Grows(b, b)
  {
    GrowsPush([], b);
    assert [] + b == b;
  }

  lemma Multiple4(n: nat)
    ensures Aligned(n * 4, 4)
  {
    DivModUnique(n * 4, 4, n, 0);
  }

  /** A length word followed by relative offsets is a readable vector. */
  lemma ElementsRead(b: seq<byte>, o: nat, offs: seq<nat>, m: nat)
    requires Aligned(o, 4) && 4 <= m && 4 + 4 * |offs| <= o <= |b| < TWO_31 && At(b, o, LE(|offs|, 4))
    requires forall i :: 0 <= i < |offs| ==>
      0 < offs[i] < o - 4 - 4 * i && At(b, o - 4 - 4 * i, LE(o - 4 - 4 * i - offs[i], 4))
    ensures VectorHolds(b, o, offs, m)
  {
    hide LE, At, Aligned, VectorGet, VectorSize;
    LengthReads(b, o, |offs|);
    forall i | 0 <= i < |offs|
      ensures VectorGet(b, |b| - o, i) == Some(|b| - offs[i])
    {
      assert 0 < offs[i] < o - 4 - 4 * i;
      ElementRead(b, o, i, offs[i]);
    }
  }

  lemma ElementRead(b: seq<byte>, o: nat, i: nat, off: nat)
    requires o <= |b| < TWO_31 && 0 < off < o - 4 - 4 * i
    requires At(b, o - 4 - 4 * i, LE(o - 4 - 4 * i - off, 4))
    ensures VectorGet(b, |b| - o, i) == Some(|b| - off)
  {
    hide LE, At, ReadU;
    var d := o - 4 - 4 * i - off;
    Pow256Values();
    AtRead(b, o - 4 - 4 * i, d, 4);
    SmallMod(d, TWO_32);
    assert |b| - o + 4 + 4 * i == |b| - (o - 4 - 4 * i);
  }

  lemma CreateVectorStart(s: State, n: nat) returns (q: State)
    requires IsAlign(s.minalign)
    ensures q == PreAlign(PreAlign(s, n * 4, 4), n * 4, 4)
    ensures Grows(s.buf, q.buf) && |s.buf| <= |q.buf| && q == s.(buf := q.buf, minalign := q.minalign)
    ensures s.minalign <= q.minalign && IsAlign(q.minalign)
    ensures n > 0 ==> Aligned(|q.buf|, 4)
  {
    hide PreAlign, Aligned;
    var p := PreAlign(s, n * 4, 4);
    q := PreAlign(p, n * 4, 4);
    PreAlignFacts(s, n * 4, 4);
    PreAlignFacts(p, n * 4, 4);
    GrowsTrans(s.buf, p.buf, q.buf);
    if n > 0 {
      Multiple4(n);
      AlignedPlus(|q.buf| + n * 4, 4, n * 4);
    }
  }

  /** The vector of `offs` reads back element by element, in order, the empty one included. */
  lemma CreateVectorHolds(s: State, offs: seq<nat>) returns (s': State, o: nat)
    requires WellFormed(s) && NotNested(s) && OffsetsOk(offs, |s.buf|)
    requires |CreateVector(s, offs).0.buf| < TWO_31
    ensures (s', o) == CreateVector(s, offs)
    ensures WellFormed(s') && Grows(s.buf, s'.buf) && |s.buf| < o == |s'.buf|
    ensures s' == s.(buf := s'.buf, minalign := s'.minalign) && s.minalign <= s'.minalign
    ensures VectorHolds(s'.buf, o, offs, s'.minalign)
  {
    hide VTablesStored, VTablesDistinct, PoolStored, PoolDistinct, FieldsFit;
    hide PreAlign, PushElement, PushOffsets, Aligned, At, LE, VectorHolds, Grows;
    var q := CreateVectorStart(s.(nested := true), |offs|);
    var r := PushElement(PushOffsets(q, offs), |offs| % TWO_32, 4);
    s', o := CreateVector(s, offs).0, CreateVector(s, offs).1;
    assert s' == r.(nested := false);
    VectorPushed(q, offs);
    GrowsTrans(s.buf, q.buf, r.buf);
    WellFormedMinalign(s, r.buf, r.minalign);
  }

  lemma VectorPushed(q: State, offs: seq<nat>)
    requires IsAlign(q.minalign) && OffsetsOk(offs, |q.buf|) && (offs != [] ==> Aligned(|q.buf|, 4))
    requires |PushElement(PushOffsets(q, offs), |offs| % TWO_32, 4).buf| < TWO_31
    ensures VectorEffect(q, offs, PushElement(PushOffsets(q, offs), |offs| % TWO_32, 4))
  {
    hide PushElement, VectorEffect;
    if offs == [] {
      EmptyVector(q);
    } else {
      PushOffsetsLength(q, offs);
      PushElementLength(PushOffsets(q, offs), |offs| % TWO_32, 4);
      FilledVector(q, offs);
    }
  }

  lemma PushElementLength(s: State, v: nat, w: nat)
    requires IsAlign(w)
    ensures |PushElement(s, v, w).buf| >= |s.buf| + w
  {
    hide PaddingBytes;
  }

  predicate VectorEffect(q: State, offs: seq<nat>, r: State) {
    && Grows(q.buf, r.buf) && |q.buf| < |r.buf| && r == q.(buf := r.buf, minalign := r.minalign)
    && q.minalign <= r.minalign && IsAlign(r.minalign)
    && VectorHolds(r.buf, |r.buf|, offs, r.minalign)
  }

  lemma EmptyVector(q: State)
    requires IsAlign(q.minalign) && |PushElement(q, 0, 4).buf| < TWO_31
    ensures VectorEffect(q, [], PushElement(q, 0, 4))
  {
    hide PushElement, Aligned, At, LE, Grows;
    PushElementFacts(q, 0, 4);
    var r := PushElement(q, 0, 4);
    ElementsRead(r.buf, |r.buf|, [], r.minalign);
  }

  lemma FilledVector(q: State, offs: seq<nat>)
    requires IsAlign(q.minalign) && offs != [] && OffsetsOk(offs, |q.buf|) && Aligned(|q.buf|, 4)
    requires |PushElement(PushOffsets(q, offs), |offs| % TWO_32, 4).buf| < TWO_31
    requires |q.buf| + 4 * |offs| < TWO_31
    ensures VectorEffect(q, offs, PushElement(PushOffsets(q, offs), |offs| % TWO_32, 4))
  {
    hide PushElement, PushOffsets, Aligned, At, LE, Grows, VectorHolds;
    PushOffsetsHold(q, offs);
    var f := PushOffsets(q, offs);
    Multiple4(|offs|);
    AlignedSelf(4);
    AlignedPlus(|q.buf|, 4, |offs| * 4);
    AlignedPlus(|f.buf|, 4, 4);
    AlignedPushElement(f, |offs| % TWO_32);
    SmallMod(|offs|, TWO_32);
    var r := PushElement(f, |offs| % TWO_32, 4);
    GrowsPush(LE(|offs|, 4), f.buf);
    AtFront(LE(|offs|, 4), f.buf);
    GrowsTrans(q.buf, f.buf, r.buf);
    ElementsBehind(f.buf, r.buf, offs);
    ElementsRead(r.buf, |r.buf|, offs, r.minalign);
  }

  /** The elements keep their places behind the length. */
  lemma ElementsBehind(f: seq<byte>, r: seq<byte>, offs: seq<nat>)
    requires Grows(f, r) && |r| == |f| + 4
    requires forall i :: 0 <= i < |offs| ==>
      0 < offs[i] < |f| - 4 * i && At(f, |f| - 4 * i, LE(|f| - 4 * i - offs[i], 4))
    ensures forall i :: 0 <= i < |offs| ==>
      0 < offs[i] < |r| - 4 - 4 * i && At(r, |r| - 4 - 4 * i, LE(|r| - 4 - 4 * i - offs[i], 4))
  {
    hide At, LE, Grows;
    forall i | 0 <= i < |offs|
      ensures 0 < offs[i] < |r| - 4 - 4 * i && At(r, |r| - 4 - 4 * i, LE(|r| - 4 - 4 * i - offs[i], 4))
    {
      assert 0 < offs[i] < |f| - 4 * i;
      AtGrows(f, r, |f| - 4 * i, LE(|f| - 4 * i - offs[i], 4));
    }
  }

  lemma {:induction false} PushOffsetsLength(s: State, offs: seq<nat>)
    requires OffsetsOk(offs, |s.buf|)
    ensures |PushOffsets(s, offs).buf| >= |s.buf| + 4 * |offs|
    decreases |offs|
  {
    hide PaddingBytes;
    if offs != [] {
      PushOffsetsLength(PushOffset(s, offs[|offs| - 1]), offs[..|offs| - 1]);
    }
  }
}
