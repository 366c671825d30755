/** The verifier accepts what the builder finishes: one lemma for each kind of check. */
module Completeness {
  import opened Wrappers
  import opened Bytes
  import opened FlatReader
  import opened TableLemmas
  import opened Fields
  import opened Objects
  import V = FlatVerifier

  /** A finished buffer: its size is a multiple of the largest alignment used in it. */
  predicate Whole(o: V.Options, b: seq<byte>, m: nat) {
    && IsAlign(m) && 4 <= m && Aligned(|b|, m)
    && V.MIN_BUFFER_SIZE <= |b| < TWO_31 && |b| <= o.maxSize
  }

  /** Aligned from the end and aligned from the start are the same in a whole buffer. */
  lemma FromEnd(o: V.Options, b: seq<byte>, m: nat, k: nat, off: nat)
    requires Whole(o, b, m) && IsAlign(k) && k <= m && Aligned(off, k) && off <= |b|
    ensures Aligned(|b| - off, k)
  {
    hide Aligned;
    AlignDivides(|b|, m, k);
    AlignedPlus(|b|, k, off);
  }

  lemma TableStartComplete(o: V.Options, b: seq<byte>, c: V.Counters, t: nat, m: nat)
    requires Whole(o, b, m) && TableShape(b, t, m) && GetVTable(b, |b| - t).value >= 4
    requires c.depth < o.maxDepth && c.tables < o.maxTables
    ensures V.VerifyTableStart(o, b, c, |b| - t) == (true, V.Counters(c.depth + 1, c.tables + 1))
  {
    hide Aligned, VTableAt;
    var p := |b| - t;
    var vp := GetVTable(b, p).value;
    FromEnd(o, b, m, 4, t);
    SmallMod(vp, TWO_64);
    assert V.VTablePosition(b, p) == vp;
    VTableInside(b, |b| - vp);
    EvenPositions(o, b, m, |b| - vp);
  }

  lemma VTableInside(b: seq<byte>, v: nat)
    requires VTableAt(b, v).Some?
    ensures v <= |b| && ReadU(b, |b| - v, 2).Some?
    ensures var n := ReadU(b, |b| - v, 2).value; 4 <= n <= v && n % 2 == 0
  {
  }

  lemma EvenPositions(o: V.Options, b: seq<byte>, m: nat, v: nat)
    requires Whole(o, b, m) && v % 2 == 0 && v <= |b| && ReadU(b, |b| - v, 2).Some?
    ensures Aligned(|b| - v, 2)
    ensures var n := ReadU(b, |b| - v, 2).value; n % 2 == 0 ==> Aligned(n, 2)
  {
    assert Aligned(v, 2);
    FromEnd(o, b, m, 2, v);
  }

  lemma FieldComplete(o: V.Options, b: seq<byte>, t: nat, id: nat, w: nat, m: nat)
    requires Whole(o, b, m) && IsScalarWidth(w) && t <= |b| && FieldInside(b, t, id, w, m)
    ensures V.VerifyField(o, b, |b| - t, id, w)
  {
    hide Aligned, GetOptionalFieldOffset;
    var fo := GetOptionalFieldOffset(b, |b| - t, id).value;
    if fo != 0 {
      FromEnd(o, b, m, w, t - fo);
      assert |b| - t + fo == |b| - (t - fo);
    }
  }

  lemma OffsetComplete(o: V.Options, b: seq<byte>, t: nat, a: Add, m: nat)
    requires Whole(o, b, m) && a.Ref? && t <= |b| && FieldHolds(b, t, a, m)
    ensures V.VerifyOffsetField(o, b, |b| - t, a.id)
  {
    hide Aligned, GetOptionalFieldOffset;
    var fo := GetOptionalFieldOffset(b, |b| - t, a.id).value;
    if fo != 0 {
      FromEnd(o, b, m, 4, t - fo);
      var start := |b| - t + fo;
      assert start == |b| - (t - fo);
      var off := ReadU(b, start, 4).value;
      assert start + off == |b| - a.off;
      SmallMod(start + off, TWO_64);
    }
  }

  lemma StringComplete(o: V.Options, b: seq<byte>, s: nat, str: seq<byte>, m: nat)
    requires Whole(o, b, m) && StringHolds(b, s, str, m) && s < |b|
    ensures V.VerifyString(o, b, |b| - s)
  {
    hide Aligned, StringAt;
    StringHoldsReads(b, s, str, m);
    FromEnd(o, b, m, 4, s);
    var end := |b| - s + 4 + |str|;
    ZeroByte(b, end);
  }

  lemma ZeroByte(b: seq<byte>, p: nat)
    requires ReadU(b, p, 1) == Some(0)
    ensures p < |b| && b[p] == 0
  {
    var z := b[p..p + 1];
    assert z == [b[p]] && z[1..] == [];
    assert FromLE(z) == b[p];
  }

  lemma VectorComplete(o: V.Options, b: seq<byte>, v: nat, offs: seq<nat>, m: nat)
    requires Whole(o, b, m) && VectorHolds(b, v, offs, m) && v < |b|
    ensures V.VerifyVectorOrString(o, b, |b| - v, 4).Some?
  {
    hide Aligned;
    FromEnd(o, b, m, 4, v);
    QuarterBound(|offs|, |b|, o.maxSize);
  }

  lemma QuarterBound(n: nat, size: nat, max: nat)
    requires 4 * n + 4 <= size <= max
    ensures n < max / 4
  {
  }
}
