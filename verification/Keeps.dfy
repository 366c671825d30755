/** Unconditional bookkeeping: what the operations keep whatever the sizes are, and how much they can write. */
module Keeps {
  import opened Bytes
  import opened BuilderModel
  import opened TableLemmas
  import opened Tables
  import opened Fields
  import opened Objects
  import opened Runs

  predicate Kept(s: State, s': State) {
    && Ready(s') && Grows(s.buf, s'.buf) && |s.buf| <= |s'.buf| && s.minalign <= s'.minalign
    && s'.dedup == s.dedup && s'.forceDefaults == s.forceDefaults && s'.finished == s.finished
  }

  lemma KeptTrans(a: State, b: State, c: State)
    requires Kept(a, b) && Kept(b, c)
    ensures Kept(a, c)
  {
    hide WellFormed, Grows;
    GrowsTrans(a.buf, b.buf, c.buf);
  }

  lemma KeptBy(s: State, s': State)
    requires Ready(s) && Grows(s.buf, s'.buf) && IsAlign(s'.minalign) && s.minalign <= s'.minalign
    requires s' == s.(buf := s'.buf, minalign := s'.minalign)
    ensures Kept(s, s')
  {
    hide VTablesStored, VTablesDistinct, PoolStored, PoolDistinct, FieldsFit;
    WellFormedMinalign(s, s'.buf, s'.minalign);
  }

  lemma CreateStringKeeps(s: State, str: seq<byte>)
    requires Ready(s)
    ensures var (s', o) := CreateString(s, str); Kept(s, s') && |s.buf| < o == |s'.buf|
  {
    hide PreAlign, PushElement, Grows, Kept;
    hide VTablesStored, VTablesDistinct, PoolStored, PoolDistinct, FieldsFit;
    var p := PreAlign(s, |str| + 1, 4);
    PreAlignFacts(s, |str| + 1, 4);
    var a := PushBytes(p, Zeros(1));
    GrowsPush(Zeros(1), p.buf);
    var c := PushBytes(a, str);
    GrowsPush(str, a.buf);
    PushElementFacts(c, |str| % TWO_32, 4);
    var r := PushElement(c, |str| % TWO_32, 4);
    GrowsTrans(s.buf, p.buf, a.buf);
    GrowsTrans(s.buf, a.buf, c.buf);
    GrowsTrans(s.buf, c.buf, r.buf);
    GrowsLonger(s.buf, c.buf);
    KeptBy(s, r);
  }

  lemma GrowsLonger(b: seq<byte>, b': seq<byte>)
    requires Grows(b, b')
    ensures |b| <= |b'|
  {
  }

  lemma {:induction false} PushOffsetsKeep(s: State, offs: seq<nat>)
    requires OffsetsOk(offs, |s.buf|) && IsAlign(s.minalign)
    ensures var r := PushOffsets(s, offs);
      && Grows(s.buf, r.buf) && IsAlign(r.minalign) && s.minalign <= r.minalign
      && r == s.(buf := r.buf, minalign := r.minalign)
    decreases |offs|
  {
    hide PushElement, Align, Grows, Aligned;
    if offs == [] {
      GrowsSame(s.buf);
    } else {
      var last := |offs| - 1;
      var p := PushOffset(s, offs[last]);
      AlignFacts(s, 4);
      var a := Align(s, 4);
      PushElementFacts(a, Relative(|a.buf|, offs[last]), 4);
      GrowsTrans(s.buf, a.buf, p.buf);
      GrowsLonger(s.buf, p.buf);
      PushOffsetsKeep(p, offs[..last]);
      GrowsTrans(s.buf, p.buf, PushOffsets(s, offs).buf);
    }
  }

  lemma AlignFacts(s: State, k: nat)
    requires IsAlign(k) && IsAlign(s.minalign)
    ensures var r := Align(s, k);
      Grows(s.buf, r.buf) && |s.buf| <= |r.buf| && r == s.(buf := r.buf, minalign := Max(s.minalign, k))
  {
    hide PaddingBytes, Aligned;
    GrowsPush(Zeros(PaddingBytes(|s.buf|, k)), s.buf);
  }

  lemma CreateVectorKeeps(s: State, offs: seq<nat>)
    requires Ready(s) && OffsetsOk(offs, |s.buf|)
    ensures var (s', o) := CreateVector(s, offs); Kept(s, s') && |s.buf| < o == |s'.buf|
  {
    hide PreAlign, PushElement, PushOffsets, Grows, Kept, Aligned;
    hide VTablesStored, VTablesDistinct, PoolStored, PoolDistinct, FieldsFit;
    var q := CreateVectorStart(s.(nested := true), |offs|);
    PushOffsetsKeep(q, offs);
    var f := PushOffsets(q, offs);
    PushElementFacts(f, |offs| % TWO_32, 4);
    var r := PushElement(f, |offs| % TWO_32, 4);
    GrowsTrans(s.buf, q.buf, f.buf);
    GrowsLonger(s.buf, f.buf);
    GrowsTrans(s.buf, f.buf, r.buf);
    assert CreateVector(s, offs).0 == r.(nested := false);
    KeptBy(s, r.(nested := false));
  }

  lemma CreateTableKeeps(s: State, adds: seq<Add>)
    requires Ready(s) && AddsOk(adds, |s.buf|)
    ensures var (s', t) := CreateTable(s, adds); Kept(s, s') && |s.buf| < t <= |s'.buf|
  {
    hide AddAll, Grows, EndTable, Linked;
    hide VTablesStored, VTablesDistinct, PoolStored, PoolDistinct, FieldsFit;
    var a := StartTable(s);
    AddAllKeeps(a, adds);
    AddAllFrame(a, adds);
    var f := AddAll(a, adds);
    GrowsLonger(s.buf, f.buf);
    var s', t, v, vt := EndTableLinks(f, |s.buf|);
    GrowsTrans(s.buf, f.buf, s'.buf);
    GrowsLonger(s.buf, s'.buf);
  }

  // ------------------------------------------------------------ table sizes

  lemma PushElementBound(s: State, v: nat, w: nat)
    requires IsAlign(w)
    ensures |PushElement(s, v, w).buf| < |s.buf| + 2 * w
  {
    hide PaddingBytes, Aligned;
  }

  lemma AddOneBound(s: State, a: Add)
    requires AddOk(a, |s.buf|)
    ensures |AddOne(s, a).buf| <= |s.buf| + 16
  {
    hide PushElement, PaddingBytes, Aligned;
    match a
    case Scalar(id, w, value, def) => PushElementBound(s, value, w);
    case Ref(id, off) =>
      if off != 0 {
        var al := Align(s, 4);
        PushElementBound(al, Relative(|al.buf|, off), 4);
      }
  }

  lemma {:induction false} AddAllBound(s: State, adds: seq<Add>)
    requires AddsOk(adds, |s.buf|)
    ensures |AddAll(s, adds).buf| <= |s.buf| + 16 * |adds|
  {
    hide AddOne;
    if adds != [] {
      var last := |adds| - 1;
      AddAllBound(s, adds[..last]);
      AddOneBound(AddAll(s, adds[..last]), adds[last]);
    }
  }

  /** Every table of fewer than 4000 members stays below the 64 KiB a vtable can describe. */
  lemma TableIsSmall(s: State, adds: seq<Add>)
    requires Ready(s) && AddsOk(adds, |s.buf|) && |adds| < 4000
    ensures CreateTable(s, adds).1 - |s.buf| < TWO_16
  {
    hide AddAll, PushElement, AttachVTable, BuildVTable;
    hide VTablesStored, VTablesDistinct, PoolStored, PoolDistinct, FieldsFit;
    var a := StartTable(s);
    AddAllKeeps(a, adds);
    AddAllBound(a, adds);
    PushElementBound(AddAll(a, adds), 0, 4);
  }
}
