/** Building a table from any list of members, and what reading it gives back. */
module Fields {
  import opened Wrappers
  import opened Bytes
  import opened FlatReader
  import opened BuilderModel
  import opened TableLemmas
  import opened Tables

  /** One `add_*` call of a generated table builder: an `AddElement` or an `AddOffset`. */
  datatype Add =
    | Scalar(id: nat, w: nat, value: nat, def: nat)
    | Ref(id: nat, off: nat)
  {
    function Width(): nat {
      if Scalar? then w else 4
    }
  }

  predicate IsScalarWidth(w: nat) {
    w == 1 || w == 2 || w == 4 || w == 8
  }

  predicate AddOk(a: Add, size: nat) {
    && FieldId(a.id)
    && match a
       case Scalar(_, w, value, def) => IsScalarWidth(w) && value < Pow256(w) && def < Pow256(w)
       case Ref(_, off) => off <= size
  }

  predicate AddsOk(adds: seq<Add>, size: nat) {
    forall i :: 0 <= i < |adds| ==> AddOk(adds[i], size)
  }

  predicate DistinctIds(adds: seq<Add>) {
    forall i, j :: 0 <= i < j < |adds| ==> adds[i].id != adds[j].id
  }

  function AddOne(s: State, a: Add): (r: State)
    requires AddOk(a, |s.buf|)
    ensures |s.buf| <= |r.buf|
  {
    match a
    case Scalar(id, w, value, def) => AddElement(s, id, w, value, def)
    case Ref(id, off) => AddOffset(s, id, off)
  }

  function AddAll(s: State, adds: seq<Add>): (r: State)
    requires AddsOk(adds, |s.buf|)
    ensures |s.buf| <= |r.buf|
  {
    if adds == [] then s
    else
      var last := |adds| - 1;
      AddOne(AddAll(s, adds[..last]), adds[last])
  }

  /** The whole of a generated `Create*` function. */
  function CreateTable(s: State, adds: seq<Add>): (r: (State, nat))
    requires AddsOk(adds, |s.buf|) && WellFormed(s) && NotNested(s)
  {
    var started := StartTable(s);
    AddAllKeeps(started, adds);
    EndTable(AddAll(started, adds), |s.buf|)
  }

  // ------------------------------------------------------------- one member

  /** Fields equal to their default, and null references, are not stored. */
  predicate Omitted(a: Add, force: bool) {
    match a
    case Scalar(_, _, value, def) => value == def && !force
    case Ref(_, off) => off == 0
  }

  function Stored(a: Add, o: nat): seq<byte>
    requires a.Ref? ==> a.off <= o
  {
    match a
    case Scalar(_, w, value, _) => LE(value, w)
    case Ref(_, off) => LE(o - off, 4)
  }

  predicate Inline(b: seq<byte>, start: nat, a: Add, o: nat) {
    && a.Width() > 0 && start + a.Width() <= o && Aligned(o, a.Width())
    && (a.Ref? ==> a.off <= start)
    && At(b, o, Stored(a, o))
  }

  predicate AddEffect(s: State, a: Add, s': State) {
    && Grows(s.buf, s'.buf)
    && s' == s.(buf := s'.buf, minalign := s'.minalign, fields := s'.fields, maxVoffset := s'.maxVoffset)
    && s.minalign <= s'.minalign && IsAlign(s'.minalign)
    && s'.fields == (if Omitted(a, s.forceDefaults) then s.fields else s.fields + [FieldLoc(|s'.buf|, a.id)])
    && s'.maxVoffset == (if Omitted(a, s.forceDefaults) then s.maxVoffset else Max(s.maxVoffset, a.id))
  }

  lemma AddScalarEffect(s: State, a: Add, start: nat)
    requires a.Scalar? && AddOk(a, start) && start <= |s.buf| && IsAlign(s.minalign)
    ensures AddEffect(s, a, AddOne(s, a))
    ensures var s' := AddOne(s, a);
      !Omitted(a, s.forceDefaults) ==> Inline(s'.buf, start, a, |s'.buf|) && a.w <= s'.minalign
  {
    hide PushElement, Aligned, LE, Grows, At, Pow256;
    PushElementFacts(s, a.value, a.w);
    assert Grows(s.buf, s.buf) by { GrowsPush([], s.buf); assert [] + s.buf == s.buf; }
  }

  /** A reference is stored as a scalar: the distance from the stored word to its target. */
  lemma AddRefAsScalar(s: State, a: Add) returns (al: State, r: nat)
    requires a.Ref? && 0 < a.off <= |s.buf| && |s.buf| + 8 < TWO_32 && FieldId(a.id)
    ensures al == Align(s, 4) && Grows(s.buf, al.buf) && 0 < r < TWO_32
    ensures AddOne(s, a) == AddElement(al, a.id, 4, r, 0) && r == |AddOne(s, a).buf| - a.off
  {
    al := Align(s, 4);
    GrowsPush(Zeros(PaddingBytes(|s.buf|, 4)), s.buf);
    SmallMod(|al.buf| - a.off + 4, TWO_32);
    r := Relative(|al.buf|, a.off);
    AlignedPush(al, r);
  }

  lemma AddRefEffect(s: State, a: Add, start: nat)
    requires a.Ref? && 0 < a.off && AddOk(a, start) && start <= |s.buf| && IsAlign(s.minalign)
    requires |s.buf| + 8 < TWO_32
    ensures var s' := AddOne(s, a);
      AddEffect(s, a, s') && Inline(s'.buf, start, a, |s'.buf|) && 4 <= s'.minalign
  {
    hide AddElement, At, LE, PaddingBytes;
    var al, r := AddRefAsScalar(s, a);
    Pow256Values();
    AddScalarEffect(al, Scalar(a.id, 4, r, 0), start);
    GrowsTrans(s.buf, al.buf, AddOne(s, a).buf);
  }

  lemma AlignedPush(al: State, r: nat)
    requires Aligned(|al.buf|, 4)
    ensures |PushElement(al, r, 4).buf| == |al.buf| + 4
  {
    PaddingLeast(|al.buf|, 4, 0);
  }

  lemma AddOneEffect(s: State, a: Add, start: nat)
    requires AddOk(a, start) && start <= |s.buf| && IsAlign(s.minalign)
    requires |s.buf| + 8 < TWO_32
    ensures AddEffect(s, a, AddOne(s, a))
    ensures var s' := AddOne(s, a);
      !Omitted(a, s.forceDefaults) ==> Inline(s'.buf, start, a, |s'.buf|) && a.Width() <= s'.minalign
  {
    match a
    case Scalar(_, _, _, _) => AddScalarEffect(s, a, start);
    case Ref(_, off) => if off != 0 { AddRefEffect(s, a, start); }
  }

  lemma TrackFieldKeeps(s: State, id: nat, off: nat)
    requires WellFormed(s) && FieldId(id) && off <= |s.buf|
    ensures WellFormed(TrackField(s, id, off))
  {
    hide VTablesStored, VTablesDistinct, PoolStored, PoolDistinct;
  }

  lemma AddElementKeeps(s: State, id: nat, w: nat, e: nat, def: nat)
    requires WellFormed(s) && FieldId(id) && IsAlign(w)
    ensures var s' := AddElement(s, id, w, e, def);
      WellFormed(s') && Grows(s.buf, s'.buf) && s.minalign <= s'.minalign
  {
    hide WellFormed;
    if e != def || s.forceDefaults {
      PushElementKeeps(s, e, w);
      TrackFieldKeeps(PushElement(s, e, w), id, |PushElement(s, e, w).buf|);
    }
  }

  lemma PushElementKeeps(s: State, v: nat, w: nat)
    requires WellFormed(s) && IsAlign(w)
    ensures var r := PushElement(s, v, w);
      WellFormed(r) && Grows(s.buf, r.buf) && r == s.(buf := r.buf, minalign := Max(s.minalign, w))
  {
    PushElementFacts(s, v, w);
    WellFormedGrows(s, PushElement(s, v, w).buf);
  }

  lemma AlignKeeps(s: State, k: nat)
    requires WellFormed(s) && IsAlign(k)
    ensures var s' := Align(s, k);
      WellFormed(s') && Grows(s.buf, s'.buf) && Aligned(|s'.buf|, k)
      && s' == s.(buf := s'.buf, minalign := Max(s.minalign, k))
  {
    hide PaddingBytes, Aligned, Grows;
    hide VTablesStored, VTablesDistinct, PoolStored, PoolDistinct, FieldsFit;
    GrowsPush(Zeros(PaddingBytes(|s.buf|, k)), s.buf);
    WellFormedGrows(s, Align(s, k).buf);
  }

  lemma AddOneKeeps(s: State, a: Add)
    requires WellFormed(s) && AddOk(a, |s.buf|)
    ensures var s' := AddOne(s, a);
      WellFormed(s') && Grows(s.buf, s'.buf) && s.minalign <= s'.minalign
  {
    match a
    case Scalar(id, w, value, def) => AddElementKeeps(s, id, w, value, def);
    case Ref(id, off) =>
      if off != 0 {
        AlignKeeps(s, 4);
        var al := Align(s, 4);
        AddElementKeeps(al, id, 4, Relative(|al.buf|, off), 0);
        GrowsTrans(s.buf, al.buf, AddOne(s, a).buf);
      }
  }

  lemma {:induction false} AddAllKeeps(s: State, adds: seq<Add>)
    requires WellFormed(s) && AddsOk(adds, |s.buf|)
    ensures var s' := AddAll(s, adds);
      WellFormed(s') && Grows(s.buf, s'.buf) && s.minalign <= s'.minalign
  {
    if adds != [] {
      var last := |adds| - 1;
      AddAllKeeps(s, adds[..last]);
      var r := AddAll(s, adds[..last]);
      AddOneKeeps(r, adds[last]);
      GrowsTrans(s.buf, r.buf, AddAll(s, adds).buf);
    }
  }

  // ------------------------------------------------------------ all members

  /** The member is recorded where its bytes are, or left out because it is a default. */
  predicate Placed(s: State, start: nat, a: Add) {
    match LocOf(s.fields, a.id)
    case None => Omitted(a, s.forceDefaults)
    case Some(o) => !Omitted(a, s.forceDefaults) && Inline(s.buf, start, a, o) && a.Width() <= s.minalign
  }

  lemma PlacedStays(s: State, a: Add, s': State, start: nat, other: Add)
    requires AddEffect(s, a, s') && other.id != a.id && Placed(s, start, other)
    ensures Placed(s', start, other)
  {
    LocOfAfter(s, a, s', other.id);
    if LocOf(s.fields, other.id).Some? {
      var o := LocOf(s.fields, other.id).value;
      AtGrows(s.buf, s'.buf, o, Stored(other, o));
    }
  }

  lemma LocOfAfter(s: State, a: Add, s': State, id: nat)
    requires AddEffect(s, a, s')
    ensures LocOf(s'.fields, id)
         == if id == a.id && !Omitted(a, s.forceDefaults) then Some(|s'.buf|) else LocOf(s.fields, id)
  {
    if !Omitted(a, s.forceDefaults) {
      assert s'.fields[..|s.fields|] == s.fields;
    }
  }

  lemma NewPlaced(s: State, a: Add, s': State, start: nat)
    requires AddEffect(s, a, s') && LocOf(s.fields, a.id) == None
    requires !Omitted(a, s.forceDefaults) ==> Inline(s'.buf, start, a, |s'.buf|) && a.Width() <= s'.minalign
    ensures Placed(s', start, a)
  {
    LocOfAfter(s, a, s', a.id);
  }

  predicate Unused(adds: seq<Add>, id: nat) {
    forall i :: 0 <= i < |adds| ==> adds[i].id != id
  }

  /** After any list of adds with distinct ids, every member is placed and no other id is recorded. */
  lemma {:induction false} AddAllPlaces(s: State, adds: seq<Add>, start: nat)
    requires AddsOk(adds, start) && start <= |s.buf| && IsAlign(s.minalign)
    requires DistinctIds(adds) && s.fields == []
    requires |AddAll(s, adds).buf| + 8 < TWO_32
    ensures var s' := AddAll(s, adds);
      && s'.forceDefaults == s.forceDefaults && IsAlign(s'.minalign)
      && (forall i :: 0 <= i < |adds| ==> Placed(s', start, adds[i]))
      && (forall id: nat :: Unused(adds, id) ==> LocOf(s'.fields, id) == None)
  {
    hide AddOne, Placed, Inline, Grows;
    if adds != [] {
      var last := |adds| - 1;
      var init := adds[..last];
      AddAllPlaces(s, init, start);
      var r := AddAll(s, init);
      var s' := AddAll(s, adds);
      AddOneEffect(r, adds[last], start);
      forall i | 0 <= i < last
        ensures Placed(s', start, adds[i])
      {
        assert init[i] == adds[i];
        PlacedStays(r, adds[last], s', start, adds[i]);
      }
      assert Unused(init, adds[last].id);
      NewPlaced(r, adds[last], s', start);
      forall id: nat | Unused(adds, id)
        ensures LocOf(s'.fields, id) == None
      {
        assert Unused(init, id);
        LocOfAfter(r, adds[last], s', id);
      }
    }
  }

  // ------------------------------------------------- reading a finished table

  /** A stored field lies inside the buffer, aligned to its width; `m` is the alignment tracked so far. */
  predicate FieldInside(b: seq<byte>, t: nat, id: nat, w: nat, m: nat)
    requires w > 0
  {
    var fo := GetOptionalFieldOffset(b, |b| - t, id);
    fo.Some? && (fo.value == 0 || (w <= t - fo.value && Aligned(t - fo.value, w) && w <= m))
  }

  /** The table at offset `t` reads back the member `a`: its value, its target, or its default. */
  predicate FieldHolds(b: seq<byte>, t: nat, a: Add, m: nat) {
    && IsAlign(a.Width()) && FieldInside(b, t, a.id, a.Width(), m)
    && match a
       case Scalar(id, w, value, def) => GetField(b, |b| - t, id, w, def) == Some(value)
       case Ref(id, off) =>
         && GetPointer(b, |b| - t, id) == Some(if off == 0 then None else Some(|b| - off))
         && (off != 0 ==>
              var fo := GetOptionalFieldOffset(b, |b| - t, id).value; fo != 0 && off < t - fo)
  }

  predicate TableShape(b: seq<byte>, t: nat, m: nat) {
    && Aligned(t, 4) && 4 <= t <= |b| && 4 <= m
    && var g := GetVTable(b, |b| - t);
    && g.Some? && g.value <= |b| && (|b| - g.value) % 2 == 0 && VTableAt(b, |b| - g.value).Some?
  }

  ghost predicate NoOtherFields(b: seq<byte>, t: nat, adds: seq<Add>) {
    forall id: nat :: FieldId(id) && Unused(adds, id) ==>
      GetOptionalFieldOffset(b, |b| - t, id) == Some(0)
  }

  ghost predicate TableHolds(b: seq<byte>, t: nat, adds: seq<Add>, m: nat) {
    && TableShape(b, t, m)
    && (forall i :: 0 <= i < |adds| ==> FieldHolds(b, t, adds[i], m))
    && NoOtherFields(b, t, adds)
  }

  /** A member is left out exactly when it is a default that is not forced, or the null offset. */
  predicate Sparse(b: seq<byte>, t: nat, adds: seq<Add>, force: bool) {
    forall i :: 0 <= i < |adds| ==>
      GetOptionalFieldOffset(b, |b| - t, adds[i].id).Some?
      && (GetOptionalFieldOffset(b, |b| - t, adds[i].id).value == 0 <==> Omitted(adds[i], force))
  }

  lemma ScalarReads(b: seq<byte>, t: nat, a: Add, o: nat, m: nat)
    requires a.Scalar? && IsScalarWidth(a.w) && a.value < Pow256(a.w) && a.w <= o < t <= |b| && a.w <= m
    requires GetOptionalFieldOffset(b, |b| - t, a.id) == Some(t - o)
    requires Aligned(o, a.w) && At(b, o, LE(a.value, a.w))
    ensures FieldHolds(b, t, a, m)
  {
    hide GetOptionalFieldOffset, At, LE;
    AtRead(b, o, a.value, a.w);
    SmallMod(a.value, Pow256(a.w));
  }

  lemma RefReads(b: seq<byte>, t: nat, a: Add, o: nat, m: nat)
    requires a.Ref? && 0 < a.off && a.off + 4 <= o < t <= |b| && 4 <= m && |b| < TWO_31
    requires GetOptionalFieldOffset(b, |b| - t, a.id) == Some(t - o)
    requires Aligned(o, 4) && At(b, o, LE(o - a.off, 4))
    ensures FieldHolds(b, t, a, m)
  {
    hide GetOptionalFieldOffset, At, LE;
    Pow256Values();
    AtRead(b, o, o - a.off, 4);
    SmallMod(o - a.off, TWO_32);
  }

  lemma FieldDefault(b: seq<byte>, t: nat, a: Add, size: nat, force: bool, m: nat)
    requires AddOk(a, size) && t <= |b| && Omitted(a, force)
    requires GetOptionalFieldOffset(b, |b| - t, a.id) == Some(0)
    ensures FieldHolds(b, t, a, m)
  {
  }

  /**
   * Whatever members are added, in whatever order, the finished table reads each of them back (the
   * default for those left out), has no other field, and nothing written before has changed.
   */
  lemma CreateTableHolds(s: State, adds: seq<Add>) returns (s': State, t: nat, v: nat, vt: seq<byte>)
    requires WellFormed(s) && NotNested(s) && AddsOk(adds, |s.buf|) && DistinctIds(adds)
    requires CreateTable(s, adds).1 - |s.buf| < TWO_16
    requires |CreateTable(s, adds).0.buf| < TWO_31
    ensures (s', t) == CreateTable(s, adds)
    ensures WellFormed(s') && NotNested(s') && Grows(s.buf, s'.buf)
    ensures s'.pool == s.pool && s'.dedup == s.dedup && s'.finished == s.finished
    ensures s'.forceDefaults == s.forceDefaults && s.minalign <= s'.minalign
    ensures s.vtables <= s'.vtables && v in s'.vtables && Linked(s'.buf, t, v, vt)
    ensures |s.buf| < t <= |s'.buf|
    ensures TableHolds(s'.buf, t, adds, s'.minalign)
    ensures Sparse(s'.buf, t, adds, s.forceDefaults)
  {
    var start := |s.buf|;
    var a := StartTable(s);
    AddAllKeeps(a, adds);
    AddAllFrame(a, adds);
    var f := AddAll(a, adds);
    s', t, v, vt := EndTableLinks(f, start);
    GrowsTrans(s.buf, f.buf, s'.buf);
    AddAllPlaces(a, adds, start);
    TableReads(f, adds, start, s', t, v, vt);
  }

  predicate SameBut(s: State, s': State) {
    && s'.vtables == s.vtables && s'.pool == s.pool && s'.dedup == s.dedup
    && s'.finished == s.finished && s'.forceDefaults == s.forceDefaults && s'.nested == s.nested
  }

  lemma AddElementFrame(s: State, id: nat, w: nat, e: nat, def: nat)
    requires IsAlign(w)
    ensures SameBut(s, AddElement(s, id, w, e, def))
  {
    hide PaddingBytes, Aligned, LE, Zeros, Max;
  }

  lemma AddOneFrame(s: State, a: Add)
    requires AddOk(a, |s.buf|)
    ensures SameBut(s, AddOne(s, a))
  {
    hide AddElement;
    match a
    case Scalar(id, w, value, def) => AddElementFrame(s, id, w, value, def);
    case Ref(id, off) =>
      var al := Align(s, 4);
      AddElementFrame(al, id, 4, if off == 0 then 0 else Relative(|al.buf|, off), 0);
  }

  lemma {:induction false} AddAllFrame(s: State, adds: seq<Add>)
    requires AddsOk(adds, |s.buf|)
    ensures SameBut(s, AddAll(s, adds))
  {
    if adds != [] {
      var last := |adds| - 1;
      AddAllFrame(s, adds[..last]);
      AddOneFrame(AddAll(s, adds[..last]), adds[last]);
    }
  }

  lemma TableReads(f: State, adds: seq<Add>, start: nat, s': State, t: nat, v: nat, vt: seq<byte>)
    requires WellFormed(f) && start <= |f.buf| < t <= |s'.buf| && AddsOk(adds, start)
    requires forall i :: 0 <= i < |adds| ==> Placed(f, start, adds[i])
    requires forall id: nat :: Unused(adds, id) ==> LocOf(f.fields, id) == None
    requires FieldsFit(f.fields, f.maxVoffset, t) && t - start < TWO_16 && |s'.buf| < TWO_31 && Aligned(t, 4)
    requires vt == BuildVTable(f.fields, f.maxVoffset, t, start) && Linked(s'.buf, t, v, vt) && v % 2 == 0
    requires Grows(f.buf, s'.buf) && f.minalign <= s'.minalign && 4 <= s'.minalign
    ensures TableHolds(s'.buf, t, adds, s'.minalign)
    ensures Sparse(s'.buf, t, adds, f.forceDefaults)
  {
    hide BuildVTable, FieldHolds, GetOptionalFieldOffset, Placed, At, LE, Grows;
    var b := s'.buf;
    assert TableShape(b, t, s'.minalign) by { LinkedReads(b, t, v, vt, 0); }
    forall i | 0 <= i < |adds|
      ensures FieldHolds(b, t, adds[i], s'.minalign)
      ensures GetOptionalFieldOffset(b, |b| - t, adds[i].id).Some?
      ensures GetOptionalFieldOffset(b, |b| - t, adds[i].id).value == 0 <==> Omitted(adds[i], f.forceDefaults)
    {
      MemberReads(f, adds[i], start, s', t, v, vt);
    }
    forall id: nat | FieldId(id) && Unused(adds, id)
      ensures GetOptionalFieldOffset(b, |b| - t, id) == Some(0)
    {
      EndTableField(f, start, s', t, v, vt, id);
    }
  }

  lemma MemberReads(f: State, a: Add, start: nat, s': State, t: nat, v: nat, vt: seq<byte>)
    requires FieldsFit(f.fields, f.maxVoffset, |f.buf|)
    requires f.maxVoffset % 2 == 0 && f.maxVoffset + 2 < TWO_16
    requires start <= |f.buf| < t <= |s'.buf| && AddOk(a, start) && Placed(f, start, a)
    requires FieldsFit(f.fields, f.maxVoffset, t) && t - start < TWO_16 && |s'.buf| < TWO_31
    requires vt == BuildVTable(f.fields, f.maxVoffset, t, start) && Linked(s'.buf, t, v, vt)
    requires Grows(f.buf, s'.buf) && f.minalign <= s'.minalign
    ensures FieldHolds(s'.buf, t, a, s'.minalign)
    ensures var fo := GetOptionalFieldOffset(s'.buf, |s'.buf| - t, a.id);
      fo.Some? && (fo.value == 0 <==> Omitted(a, f.forceDefaults))
  {
    hide BuildVTable, GetOptionalFieldOffset, VTableAt, FieldHolds, At, LE, Grows, Linked;
    EndTableField(f, start, s', t, v, vt, a.id);
    LocOfBound(f.fields, a.id, f.maxVoffset, |f.buf|);
    match LocOf(f.fields, a.id) {
      case None => FieldDefault(s'.buf, t, a, start, f.forceDefaults, s'.minalign);
      case Some(o) =>
        AtGrows(f.buf, s'.buf, o, Stored(a, o));
        if a.Scalar? {
          ScalarReads(s'.buf, t, a, o, s'.minalign);
        } else {
          RefReads(s'.buf, t, a, o, s'.minalign);
        }
    }
  }
}
