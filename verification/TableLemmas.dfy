/**
 * What the builder operations guarantee to a reader: every object stays readable as the buffer grows,
 * fields read back through the vtable, and vtables are stored once.
 */
module TableLemmas {
  import opened Wrappers
  import opened Bytes
  import opened FlatReader
  import opened BuilderModel

  // ----------------------------------------------------------------- growth

  /** `b` is the tail of `b'`: nothing already written has moved relative to the end, or changed. */
  predicate Grows(b: seq<byte>, b': seq<byte>) {
    |b| <= |b'| && b'[|b'| - |b|..] == b
  }

  lemma GrowsSplit(b: seq<byte>, b': seq<byte>) returns (q: seq<byte>)
    requires Grows(b, b')
    ensures b' == q + b
  {
    q := b'[..|b'| - |b|];
  }

  lemma GrowsPush(q: seq<byte>, b: seq<byte>)
    ensures Grows(b, q + b)
  {
  }

  lemma GrowsTrans(a: seq<byte>, b: seq<byte>, c: seq<byte>)
    requires Grows(a, b) && Grows(b, c)
    ensures Grows(a, c)
  {
    var p := GrowsSplit(a, b);
    var q := GrowsSplit(b, c);
    assert c == (q + p) + a;
  }

  lemma AtGrows(b: seq<byte>, b': seq<byte>, o: nat, s: seq<byte>)
    requires Grows(b, b') && At(b, o, s)
    ensures At(b', o, s)
  {
    var q := GrowsSplit(b, b');
    AtShift(q, b, o, s);
  }

  lemma SliceOfSlice(b: seq<byte>, lo: nat, hi: nat, i: nat, j: nat)
    requires i <= j && lo + j <= hi <= |b|
    ensures b[lo..hi][i..j] == b[lo + i..lo + j]
  {
    var c := b[lo..hi];
    forall k | 0 <= k < j - i
      ensures c[i..j][k] == b[lo + i..lo + j][k]
    {
      assert c[i..j][k] == c[i + k] == b[lo + (i + k)];
    }
  }

  lemma AtSub(b: seq<byte>, o: nat, s: seq<byte>, i: nat, w: nat)
    requires At(b, o, s) && i + w <= |s|
    ensures ReadU(b, |b| - o + i, w) == ReadU(s, i, w)
  {
    SliceOfSlice(b, |b| - o, |b| - o + |s|, i, i + w);
  }

  lemma PushElementFacts(s: State, v: nat, w: nat)
    requires IsAlign(w) && IsAlign(s.minalign)
    ensures var r := PushElement(s, v, w);
      && Grows(s.buf, r.buf) && |r.buf| >= |s.buf| + w
      && Aligned(|r.buf|, w) && At(r.buf, |r.buf|, LE(v, w))
      && r == s.(buf := r.buf, minalign := Max(s.minalign, w))
  {
    hide PaddingBytes, Aligned, LE, Zeros;
    var pad := Zeros(PaddingBytes(|s.buf|, w));
    var r := PushElement(s, v, w);
    assert r.buf == LE(v, w) + (pad + s.buf);
    assert r.buf == (LE(v, w) + pad) + s.buf;
    AlignedSelf(w);
    AlignedPlus(|s.buf| + |pad|, w, w);
  }

  // ---------------------------------------------------------------- vtables

  lemma WriteReadSame(b: seq<byte>, i: nat, v: nat)
    requires i + 2 <= |b|
    ensures ReadU(WriteU16(b, i, v), i, 2) == Some(v % TWO_16)
  {
    Pow256Values();
    FromLEofLE(v, 2);
    assert WriteU16(b, i, v)[i..i + 2] == LE(v, 2);
  }

  lemma WriteReadOther(b: seq<byte>, i: nat, v: nat, j: nat)
    requires i + 2 <= |b| && j + 2 <= |b| && (j + 2 <= i || i + 2 <= j)
    ensures ReadU(WriteU16(b, i, v), j, 2) == ReadU(b, j, 2)
  {
    assert WriteU16(b, i, v)[j..j + 2] == b[j..j + 2];
  }

  /** Where the field with vtable offset `id` was written, if it was. */
  function LocOf(fields: seq<FieldLoc>, id: nat): Option<nat> {
    if fields == [] then None
    else
      var last := |fields| - 1;
      if fields[last].id == id then Some(fields[last].off) else LocOf(fields[..last], id)
  }

  lemma {:induction false} LocOfBound(fields: seq<FieldLoc>, id: nat, max: nat, size: nat)
    requires FieldsFit(fields, max, size)
    ensures LocOf(fields, id).Some? ==> FieldId(id) && id <= max && LocOf(fields, id).value <= size
  {
    if fields != [] {
      LocOfBound(fields[..|fields| - 1], id, max, size);
    }
  }

  /** A vtable slot holds the distance to its field, and slots of other ids are untouched. */
  lemma {:induction false} FillVTableSlot(vt: seq<byte>, fields: seq<FieldLoc>, tableLoc: nat, id: nat)
    requires |vt| >= 4 && FieldsFit(fields, |vt| - 2, tableLoc)
    requires id % 2 == 0 && id + 2 <= |vt|
    ensures FieldsFit(fields, |vt| - 2, tableLoc)
    ensures LocOf(fields, id).Some? ==> LocOf(fields, id).value <= tableLoc
    ensures ReadU(FillVTable(vt, fields, tableLoc), id, 2)
         == match LocOf(fields, id)
            case None => ReadU(vt, id, 2)
            case Some(off) => Some((tableLoc - off) % TWO_16)
  {
    hide WriteU16, ReadU, LE;
    LocOfBound(fields, id, |vt| - 2, tableLoc);
    if fields != [] {
      var last := |fields| - 1;
      var rest := FillVTable(vt, fields[..last], tableLoc);
      var v := (tableLoc - fields[last].off) % TWO_16;
      FillVTableSlot(vt, fields[..last], tableLoc, id);
      if fields[last].id == id {
        WriteReadSame(rest, id, v);
      } else {
        WriteReadOther(rest, fields[last].id, v, id);
      }
    }
  }

  lemma ReadZeros(n: nat, i: nat)
    requires i + 2 <= n
    ensures ReadU(Zeros(n), i, 2) == Some(0)
  {
    var z := Zeros(n)[i..i + 2];
    var one: seq<byte> := [0];
    assert FromLE(one) == 0 by { assert one[1..] == []; }
    assert z == [0] + one && z[1..] == one;
  }

  function VTableHeader(size: nat, objectSize: nat): (h: seq<byte>)
    requires size >= 4
    ensures |h| == size
  {
    WriteU16(WriteU16(Zeros(size), 2, objectSize % TWO_16), 0, size % TWO_16)
  }

  lemma VTableHeaderSlots(size: nat, objectSize: nat, id: nat)
    requires 4 <= size < TWO_16
    ensures var h := VTableHeader(size, objectSize);
      && ReadU(h, 0, 2) == Some(size)
      && ReadU(h, 2, 2) == Some(objectSize % TWO_16)
      && (4 <= id && id + 2 <= size ==> ReadU(h, id, 2) == Some(0))
  {
    hide ReadU, LE;
    var v := objectSize % TWO_16;
    var inner := WriteU16(Zeros(size), 2, v);
    WriteReadSame(inner, 0, size);
    WriteReadSame(Zeros(size), 2, v);
    WriteReadOther(inner, 0, size, 2);
    if 4 <= id && id + 2 <= size {
      WriteReadOther(inner, 0, size, id);
      WriteReadOther(Zeros(size), 2, v, id);
      ReadZeros(size, id);
    }
  }

  /** The three kinds of slot of a finished vtable: its size, the table size, and one per field id. */
  lemma BuildVTableSlots(fields: seq<FieldLoc>, max: nat, tableLoc: nat, start: nat, id: nat)
    requires FieldsFit(fields, max, tableLoc) && start <= tableLoc
    requires max % 2 == 0 && max + 2 < TWO_16
    ensures LocOf(fields, id).Some? ==> LocOf(fields, id).value <= tableLoc
    ensures var vt := BuildVTable(fields, max, tableLoc, start);
      && ReadU(vt, 0, 2) == Some(|vt|)
      && ReadU(vt, 2, 2) == Some((tableLoc - start) % TWO_16)
      && (FieldId(id) && id < |vt| ==>
            ReadU(vt, id, 2) == Some(match LocOf(fields, id)
                                     case None => 0
                                     case Some(off) => (tableLoc - off) % TWO_16))
  {
    hide ReadU, LE;
    var size := VTableSize(max);
    var header := VTableHeader(size, tableLoc - start);
    LocOfBound(fields, 0, max, tableLoc);
    LocOfBound(fields, 2, max, tableLoc);
    LocOfBound(fields, id, max, tableLoc);
    FillVTableSlot(header, fields, tableLoc, 0);
    FillVTableSlot(header, fields, tableLoc, 2);
    VTableHeaderSlots(size, tableLoc - start, id);
    if FieldId(id) && id < size {
      FillVTableSlot(header, fields, tableLoc, id);
    }
  }

  /** The bytes of the vtable stored at offset `v` from the end, if there is a well-formed one. */
  function VTableAt(b: seq<byte>, v: nat): Option<seq<byte>> {
    if v > |b| then None
    else
      var n :- ReadU(b, |b| - v, 2);
      if 4 <= n <= v && n % 2 == 0 then Some(b[|b| - v..|b| - v + n]) else None
  }

  lemma VTableAtIs(b: seq<byte>, v: nat, vt: seq<byte>)
    requires At(b, v, vt) && |vt| >= 4 && |vt| % 2 == 0 && ReadU(vt, 0, 2) == Some(|vt|)
    ensures VTableAt(b, v) == Some(vt)
  {
    AtSub(b, v, vt, 0, 2);
  }

  lemma VTableAtGrows(b: seq<byte>, b': seq<byte>, v: nat)
    requires Grows(b, b') && VTableAt(b, v).Some?
    ensures VTableAt(b', v) == VTableAt(b, v)
  {
    var q := GrowsSplit(b, b');
    ReadUShift(q, b, |b| - v, 2);
    AtShift(q, b, v, VTableAt(b, v).value);
  }

  lemma {:induction false} FindVTableSound(b: seq<byte>, vtables: seq<nat>, vt: seq<byte>)
    ensures match FindVTable(b, vtables, vt)
      case Some(v) => v in vtables && At(b, v, vt)
      case None => forall i :: 0 <= i < |vtables| ==> !At(b, vtables[i], vt)
  {
    if vtables != [] && !At(b, vtables[0], vt) {
      FindVTableSound(b, vtables[1..], vt);
      if FindVTable(b, vtables[1..], vt).None? {
        forall i | 0 <= i < |vtables|
          ensures !At(b, vtables[i], vt)
        {
          assert i > 0 ==> vtables[i] == vtables[1..][i - 1];
        }
      }
    }
  }

  // ------------------------------------------------------- builder invariant

  /** The string stored at offset `o` from the end, if there is a terminated one. */
  function StringAt(b: seq<byte>, o: nat): Option<seq<byte>> {
    if o > |b| then None else StringBytes(b, |b| - o)
  }

  lemma StringAtGrows(b: seq<byte>, b': seq<byte>, o: nat)
    requires Grows(b, b') && StringAt(b, o).Some?
    ensures StringAt(b', o) == StringAt(b, o)
  {
    var q := GrowsSplit(b, b');
    StringShift(q, b, |b| - o);
  }

  /** A string a reader finds, with an aligned length word and a zero behind its characters. */
  predicate StringStored(b: seq<byte>, o: nat) {
    && Aligned(o, 4) && StringAt(b, o).Some?
    && ReadU(b, |b| - o + 4 + |StringAt(b, o).value|, 1) == Some(0)
  }

  lemma StringStoredGrows(b: seq<byte>, b': seq<byte>, o: nat)
    requires Grows(b, b') && StringStored(b, o)
    ensures StringStored(b', o) && StringAt(b', o) == StringAt(b, o)
  {
    hide StringAt, Aligned;
    StringAtGrows(b, b', o);
    var q := GrowsSplit(b, b');
    ReadUShift(q, b, |b| - o + 4 + |StringAt(b, o).value|, 1);
  }

  predicate VTablesStored(b: seq<byte>, vtables: seq<nat>) {
    forall i :: 0 <= i < |vtables| ==> vtables[i] % 2 == 0 && VTableAt(b, vtables[i]).Some?
  }

  predicate VTablesDistinct(b: seq<byte>, vtables: seq<nat>) {
    forall i, j :: 0 <= i < j < |vtables| ==> VTableAt(b, vtables[i]) != VTableAt(b, vtables[j])
  }

  predicate PoolStored(b: seq<byte>, pool: seq<nat>) {
    forall i :: 0 <= i < |pool| ==> StringStored(b, pool[i])
  }

  predicate PoolDistinct(b: seq<byte>, pool: seq<nat>) {
    forall i, j :: 0 <= i < j < |pool| ==> StringAt(b, pool[i]) != StringAt(b, pool[j])
  }

  /** What every builder operation keeps. */
  predicate WellFormed(s: State) {
    && IsAlign(s.minalign)
    && FieldsFit(s.fields, s.maxVoffset, |s.buf|)
    && s.maxVoffset % 2 == 0 && s.maxVoffset + 2 < TWO_16
    && VTablesStored(s.buf, s.vtables)
    && (s.dedup ==> VTablesDistinct(s.buf, s.vtables))
    && PoolStored(s.buf, s.pool)
    && PoolDistinct(s.buf, s.pool)
  }

  /** An operation that only puts bytes in front, without touching the scratch pad, keeps the invariant. */
  lemma WellFormedGrows(s: State, b': seq<byte>)
    requires WellFormed(s) && Grows(s.buf, b')
    ensures WellFormed(s.(buf := b'))
  {
    hide VTableAt, StringAt, StringStored;
    forall i | 0 <= i < |s.vtables|
      ensures VTableAt(b', s.vtables[i]) == VTableAt(s.buf, s.vtables[i])
    {
      VTableAtGrows(s.buf, b', s.vtables[i]);
    }
    forall i | 0 <= i < |s.pool|
      ensures StringStored(b', s.pool[i]) && StringAt(b', s.pool[i]) == StringAt(s.buf, s.pool[i])
    {
      StringStoredGrows(s.buf, b', s.pool[i]);
    }
  }
}
