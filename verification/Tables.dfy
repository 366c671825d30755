/** `EndTable` and the fields of a finished table. */
module Tables {
  import opened Wrappers
  import opened Bytes
  import opened FlatReader
  import opened BuilderModel
  import opened TableLemmas

  /** The table at offset `t` from the end uses the vtable `vt` stored at offset `v`. */
  predicate Linked(b: seq<byte>, t: nat, v: nat, vt: seq<byte>) {
    t <= |b| && v <= |b| && At(b, t, LE(Unsigned(v - t, 4), 4)) && VTableAt(b, v) == Some(vt)
  }

  /** The 16-bit size covers every slot exactly when the largest field offset is below 65534. */
  lemma VTableSizeCovers(max: nat)
    requires max % 2 == 0 && max < TWO_16
    ensures VTableSize(max) >= max + 2 <==> max + 2 < TWO_16
  {
  }

  /** A field whose slot is the last possible one gets a vtable of four bytes, and readers do not find it. */
  lemma LargestFieldLost(b: seq<byte>, p: int)
    requires GetVTable(b, p).Some? && ReadU(b, GetVTable(b, p).value, 2) == Some(VTableSize(65534))
    ensures VTableSize(65534) == 4 && GetOptionalFieldOffset(b, p, 65534) == Some(0)
  {
    hide ReadU, GetVTable;
  }

  /** Its slot is written all the same: outside the vtable, over two bytes of what is stored behind it. */
  lemma LargestFieldOverwrites(vt: seq<byte>, tail: seq<byte>, v: nat)
    requires |vt| == VTableSize(65534) && 65534 + 2 <= |vt + tail|
    ensures 65530 + 2 <= |tail| && WriteU16(vt + tail, 65534, v) == vt + WriteU16(tail, 65530, v)
  {
    hide LE;
    assert (vt + tail)[..65534] == vt + tail[..65530];
    assert (vt + tail)[65536..] == tail[65532..];
  }

  /** Writing the vtable offset into the reserved word leaves everything behind it in place. */
  lemma SoffsetKeepsTail(t: State, s: State, vtUse: int)
    requires Grows(s.buf, t.buf) && |t.buf| >= |s.buf| + 4
    ensures Grows(s.buf, WithSoffset(t.buf, vtUse))
    ensures At(WithSoffset(t.buf, vtUse), |t.buf|, LE(Unsigned(vtUse - |t.buf|, 4), 4))
  {
    var q := GrowsSplit(s.buf, t.buf);
    assert t.buf[4..] == q[4..] + s.buf;
    assert WithSoffset(t.buf, vtUse) == (LE(Unsigned(vtUse - |t.buf|, 4), 4) + q[4..]) + s.buf;
  }

  /** A remembered vtable that the search did not match has other bytes. */
  lemma NotFoundDiffers(b: seq<byte>, full: seq<byte>, v: nat, vt: seq<byte>)
    requires Grows(b, full) && VTableAt(b, v).Some? && !At(full, v, vt)
    ensures VTableAt(b, v) != Some(vt)
  {
    if VTableAt(b, v) == Some(vt) {
      AtGrows(b, full, v, vt);
    }
  }

  /** The table at the front of `t` uses the vtable stored at `v`, whose bytes are `vt`; `b'` is the new buffer. */
  predicate Attached(s: State, t: State, vt: seq<byte>, v: nat, b': seq<byte>) {
    && Grows(s.buf, b') && |t.buf| <= |b'| && v % 2 == 0
    && At(b', |t.buf|, LE(Unsigned(v - |t.buf|, 4), 4))
    && VTableAt(b', v) == Some(vt)
  }

  /** `t` is `s` with a table, its vtable offset still to be filled in, at the front. */
  predicate TablePending(s: State, t: State) {
    && WellFormed(s) && Grows(s.buf, t.buf) && |t.buf| >= |s.buf| + 4 && Aligned(|t.buf|, 4)
    && t == s.(buf := t.buf, minalign := t.minalign) && IsAlign(t.minalign)
  }

  predicate IsVTable(vt: seq<byte>) {
    |vt| >= 4 && |vt| % 2 == 0 && ReadU(vt, 0, 2) == Some(|vt|)
  }

  lemma AttachFound(s: State, t: State, vt: seq<byte>) returns (v: nat)
    requires TablePending(s, t) && IsVTable(vt)
    requires t.dedup && FindVTable(vt + t.buf, t.vtables, vt).Some?
    ensures v in t.vtables && Attached(s, t, vt, v, WithSoffset(t.buf, v))
    ensures AttachVTable(t, vt) == Ended(t, WithSoffset(t.buf, v), t.vtables)
  {
    var full := vt + t.buf;
    GrowsPush(vt, t.buf);
    GrowsTrans(s.buf, t.buf, full);
    FindVTableSound(full, s.vtables, vt);
    v := FindVTable(full, t.vtables, vt).value;
    VTableAtIs(full, v, vt);
    VTableAtGrows(s.buf, full, v);
    SoffsetKeepsTail(t, s, v);
    VTableAtGrows(s.buf, WithSoffset(t.buf, v), v);
  }

  lemma EvenOffset(n: nat, k: nat)
    requires n % 2 == 0 && Aligned(k, 4)
    ensures (n + k) % 2 == 0
  {
    var j, q := n / 2, k / 4;
    assert n == 2 * j && k == 4 * q;
    DivModUnique(n + k, 2, j + 2 * q, 0);
  }

  lemma AttachNew(s: State, t: State, vt: seq<byte>) returns (v: nat)
    requires TablePending(s, t) && IsVTable(vt)
    requires t.dedup ==> FindVTable(vt + t.buf, t.vtables, vt).None?
    ensures v == |vt + t.buf| && Attached(s, t, vt, v, vt + WithSoffset(t.buf, v))
    ensures AttachVTable(t, vt) == Ended(t, vt + WithSoffset(t.buf, v), t.vtables + [v])
  {
    hide Aligned, WellFormed;
    v := |vt + t.buf|;
    EvenOffset(|vt|, |t.buf|);
    var table := WithSoffset(t.buf, v);
    SoffsetKeepsTail(t, s, v);
    GrowsPush(vt, table);
    GrowsTrans(s.buf, table, vt + table);
    AtGrows(table, vt + table, |t.buf|, LE(Unsigned(v - |t.buf|, 4), 4));
    AtFront(vt, table);
    VTableAtIs(vt + table, v, vt);
  }

  function Ended(t: State, b': seq<byte>, vtables: seq<nat>): State {
    t.(buf := b', vtables := vtables, fields := [], maxVoffset := 0, nested := false)
  }

  /** A vtable that the search did not find is new, so remembering it keeps the vtables distinct. */
  lemma RememberNew(s: State, t: State, vt: seq<byte>, v: nat, b': seq<byte>)
    requires TablePending(s, t) && IsVTable(vt) && Attached(s, t, vt, v, b')
    requires t.dedup ==> FindVTable(vt + t.buf, t.vtables, vt).None?
    ensures WellFormed(Ended(t, b', t.vtables + [v]))
  {
    var full := vt + t.buf;
    GrowsPush(vt, t.buf);
    GrowsTrans(s.buf, t.buf, full);
    FindVTableSound(full, s.vtables, vt);
    WellFormedGrows(s, b');
    forall i | 0 <= i < |s.vtables|
      ensures s.dedup ==> VTableAt(b', s.vtables[i]) != Some(vt)
    {
      if s.dedup {
        NotFoundDiffers(s.buf, full, s.vtables[i], vt);
        VTableAtGrows(s.buf, b', s.vtables[i]);
      }
    }
  }

  /**
   * EndTable keeps the invariant and everything already written; the table's vtable offset leads to
   * a remembered vtable whose bytes are the ones just built, whether it is new or was found.
   */
  lemma EndTableLinks(s: State, start: nat) returns (s': State, t: nat, v: nat, vt: seq<byte>)
    requires WellFormed(s) && start <= |s.buf|
    ensures (s', t) == EndTable(s, start)
    ensures WellFormed(s') && Grows(s.buf, s'.buf)
    ensures s' == s.(buf := s'.buf, minalign := Max(s.minalign, 4), vtables := s'.vtables,
                     fields := [], maxVoffset := 0, nested := false)
    ensures |s.buf| + 4 <= t <= |s'.buf| && Aligned(t, 4)
    ensures s.vtables <= s'.vtables && v in s'.vtables && v % 2 == 0
    ensures FieldsFit(s.fields, s.maxVoffset, t)
    ensures vt == BuildVTable(s.fields, s.maxVoffset, t, start) && IsVTable(vt)
    ensures Linked(s'.buf, t, v, vt)
  {
    hide BuildVTable, PushElement, Grows, At, EndTable, AttachVTable;
    var p := PushElement(s, 0, 4);
    vt := EndTableStarts(s, start);
    v := AttachLinks(s, p, vt);
    s', t := AttachVTable(p, vt), |p.buf|;
  }

  lemma EndTableStarts(s: State, start: nat) returns (vt: seq<byte>)
    requires WellFormed(s) && start <= |s.buf|
    ensures var t := PushElement(s, 0, 4);
      && TablePending(s, t) && Aligned(|t.buf|, 4) && IsVTable(vt)
      && t == s.(buf := t.buf, minalign := Max(s.minalign, 4))
      && FieldsFit(s.fields, s.maxVoffset, |t.buf|)
      && vt == BuildVTable(s.fields, s.maxVoffset, |t.buf|, start)
      && EndTable(s, start) == (AttachVTable(t, vt), |t.buf|)
  {
    hide PaddingBytes, Aligned, Zeros, LE, At, VTableAt, AttachVTable, Grows;
    hide VTablesStored, VTablesDistinct, PoolStored, PoolDistinct;
    PushElementFacts(s, 0, 4);
    var t := PushElement(s, 0, 4);
    vt := BuildVTable(s.fields, s.maxVoffset, |t.buf|, start);
    BuildVTableSlots(s.fields, s.maxVoffset, |t.buf|, start, 0);
  }

  lemma AttachLinks(s: State, t: State, vt: seq<byte>) returns (v: nat)
    requires TablePending(s, t) && IsVTable(vt)
    ensures var s' := AttachVTable(t, vt);
      && WellFormed(s') && Attached(s, t, vt, v, s'.buf)
      && s' == Ended(t, s'.buf, s'.vtables)
      && s.vtables <= s'.vtables && v in s'.vtables
  {
    if t.dedup && FindVTable(vt + t.buf, t.vtables, vt).Some? {
      v := AttachFound(s, t, vt);
      WellFormedGrows(s, WithSoffset(t.buf, v));
    } else {
      v := AttachNew(s, t, vt);
      RememberNew(s, t, vt, v, vt + WithSoffset(t.buf, v));
    }
  }

  // ---------------------------------------------------------- reading fields

  lemma LinkedReads(b: seq<byte>, t: nat, v: nat, vt: seq<byte>, id: nat)
    requires Linked(b, t, v, vt) && |b| < TWO_31
    ensures GetVTable(b, |b| - t) == Some(|b| - v)
    ensures id % 2 == 0 ==>
      GetOptionalFieldOffset(b, |b| - t, id) == if id < |vt| then ReadU(vt, id, 2) else Some(0)
  {
    Pow256Values();
    AtRead(b, t, Unsigned(v - t, 4), 4);
    DivModUnique(Unsigned(v - t, 4), TWO_32, 0, Unsigned(v - t, 4));
    SignedOfUnsigned(v - t, 4);
    assert At(b, v, vt);
    assert ReadU(b, |b| - v, 2) == Some(|vt|);
    if id % 2 == 0 && id < |vt| {
      AtSub(b, v, vt, id, 2);
    }
  }

  /** Every field id resolves to the distance of the recorded field, or to 0 when none was recorded. */
  lemma EndTableField(s: State, start: nat, s': State, t: nat, v: nat, vt: seq<byte>, id: nat)
    requires start <= t && FieldsFit(s.fields, s.maxVoffset, t)
    requires s.maxVoffset % 2 == 0 && s.maxVoffset + 2 < TWO_16
    requires vt == BuildVTable(s.fields, s.maxVoffset, t, start)
    requires Linked(s'.buf, t, v, vt)
    requires FieldId(id) && t - start < TWO_16 && |s'.buf| < TWO_31
    requires LocOf(s.fields, id).Some? ==> start <= LocOf(s.fields, id).value
    ensures LocOf(s.fields, id).Some? ==> LocOf(s.fields, id).value <= t
    ensures GetOptionalFieldOffset(s'.buf, |s'.buf| - t, id)
         == Some(match LocOf(s.fields, id) case None => 0 case Some(off) => t - off)
  {
    hide BuildVTable, GetOptionalFieldOffset, VTableAt, At;
    BuildVTableSlots(s.fields, s.maxVoffset, t, start, id);
    LocOfBound(s.fields, id, s.maxVoffset, t);
    LinkedReads(s'.buf, t, v, vt, id);
    VTableSizeCovers(s.maxVoffset);
    match LocOf(s.fields, id) {
      case None =>
      case Some(off) => SmallMod(t - off, TWO_16);
    }
  }
}
