/**
 * The verifier of untrusted buffers (Common/library/flatbuffers/verifier.h and table.h), without the
 * buffer-size tracking of SizeVerifier. Positions are 64-bit; a subtraction or addition that can wrap does.
 */
module FlatVerifier {
  import opened Wrappers
  import opened Bytes
  import opened FlatReader

  datatype Options = Options(maxDepth: nat, maxTables: nat, checkAlignment: bool, maxSize: nat)

  const DefaultOptions := Options(64, 1_000_000, true, 0x7FFF_FFFF)

  /** The mutable part of a verifier. */
  datatype Counters = Counters(depth: nat, tables: nat)

  const MIN_BUFFER_SIZE: nat := 12

  predicate Verify(b: seq<byte>, elem: nat, len: nat) {
    len < |b| && elem <= |b| - len
  }

  predicate VerifyAlignment(o: Options, elem: nat, align: nat)
    requires align > 0
  {
    Aligned(elem, align) || !o.checkAlignment
  }

  predicate VerifyScalar(o: Options, b: seq<byte>, elem: nat, w: nat)
    requires w > 0
  {
    VerifyAlignment(o, elem, w) && Verify(b, elem, w)
  }

  function VerifyComplexity(o: Options, c: Counters): (bool, Counters) {
    var c' := Counters(c.depth + 1, c.tables + 1);
    (c'.depth <= o.maxDepth && c'.tables <= o.maxTables, c')
  }

  /** The library's limits: 64 levels, a million tables, 2 GiB. */
  lemma DefaultLimits(c: Counters)
    ensures VerifyComplexity(DefaultOptions, c).0 <==> c.depth < 64 && c.tables < 1_000_000
    ensures DefaultOptions.checkAlignment && DefaultOptions.maxSize == TWO_31 - 1
  {
  }

  function EndTable(c: Counters): Counters
    requires c.depth > 0
  {
    c.(depth := c.depth - 1)
  }

  /** Where the vtable of the table at `table` is, computed modulo the size of a pointer. */
  function VTablePosition(b: seq<byte>, table: nat): nat
    requires table + 4 <= |b|
  {
    (table - ReadS(b, table, 4).value) % TWO_64
  }

  function VerifyTableStart(o: Options, b: seq<byte>, c: Counters, table: nat): (r: (bool, Counters))
    ensures r.0 ==> r.1.depth == c.depth + 1
  {
    if !VerifyScalar(o, b, table, 4) then (false, c)
    else
      var vtable := VTablePosition(b, table);
      var (ok, c') := VerifyComplexity(o, c);
      if !(ok && VerifyScalar(o, b, vtable, 2)) then (false, c')
      else
        var vsize := ReadU(b, vtable, 2).value;
        (VerifyAlignment(o, vsize, 2) && vsize % 2 == 0 && Verify(b, vtable, vsize), c')
  }

  /** The relative offset stored at `start`, or 0 when it is not acceptable. */
  function VerifyOffset(o: Options, b: seq<byte>, start: nat): nat {
    if !VerifyScalar(o, b, start, 4) then 0
    else
      var off := ReadU(b, start, 4).value;
      if off == 0 || off >= TWO_31 || !Verify(b, (start + off) % TWO_64, 1) then 0 else off
  }

  /** The end of the vector or string at `vec`, if it lies inside the buffer. */
  function VerifyVectorOrString(o: Options, b: seq<byte>, vec: nat, elemSize: nat): Option<nat>
    requires elemSize > 0
  {
    if !VerifyScalar(o, b, vec, 4) then None
    else
      var size := ReadU(b, vec, 4).value;
      if size >= o.maxSize / elemSize then None
      else
        var byteSize := 4 + elemSize * size;
        if Verify(b, vec, byteSize) then Some(vec + byteSize) else None
  }

  predicate VerifyString(o: Options, b: seq<byte>, str: nat) {
    var end := VerifyVectorOrString(o, b, str, 1);
    end.Some? && Verify(b, end.value, 1) && b[end.value] == 0
  }

  // ------------------------------------------- members of a verified table

  // table.h reads the vtable without further checks once VerifyTableStart has accepted the table.

  predicate VerifyField(o: Options, b: seq<byte>, table: nat, field: nat, w: nat)
    requires w > 0 && GetOptionalFieldOffset(b, table, field).Some?
  {
    var fo := GetOptionalFieldOffset(b, table, field).value;
    fo == 0 || VerifyScalar(o, b, table + fo, w)
  }

  predicate VerifyOffsetField(o: Options, b: seq<byte>, table: nat, field: nat)
    requires GetOptionalFieldOffset(b, table, field).Some?
  {
    var fo := GetOptionalFieldOffset(b, table, field).value;
    fo == 0 || VerifyOffset(o, b, table + fo) != 0
  }

  // -------------------------------------------------------------- soundness

  lemma SubtractionWraps(table: nat, s: int, size: nat)
    requires table < size < TWO_63 && -(TWO_31 as int) <= s < TWO_31
    requires (table - s) % TWO_64 < size
    ensures (table - s) % TWO_64 == table - s
  {
    if table - s < 0 {
      DivModUnique(table - s, TWO_64, -1, table - s + TWO_64);
    } else {
      SmallMod(table - s, TWO_64);
    }
  }

  lemma SoffsetRange(b: seq<byte>, p: nat)
    requires p + 4 <= |b|
    ensures -(TWO_31 as int) <= ReadS(b, p, 4).value < TWO_31
  {
    Pow256Values();
    FromLEBound(b[p..p + 4]);
  }

  /** An accepted table has a vtable inside the buffer, although the subtraction may have wrapped. */
  lemma TableStartSound(o: Options, b: seq<byte>, c: Counters, table: nat)
    requires VerifyTableStart(o, b, c, table).0 && |b| < TWO_63
    ensures forall id: nat | id % 2 == 0 :: GetOptionalFieldOffset(b, table, id).Some?
    ensures GetVTable(b, table).Some?
  {
    SoffsetRange(b, table);
    var s := ReadS(b, table, 4).value;
    SubtractionWraps(table, s, |b|);
    var vtable := VTablePosition(b, table);
    assert GetVTable(b, table) == Some(vtable);
    var vsize := ReadU(b, vtable, 2).value;
    forall id: nat | id % 2 == 0
      ensures GetOptionalFieldOffset(b, table, id).Some?
    {
      if id < vsize {
        assert id + 2 <= vsize;
        assert ReadU(b, vtable + id, 2).Some?;
      }
    }
  }

  lemma FieldSound(o: Options, b: seq<byte>, table: nat, field: nat, w: nat, def: nat)
    requires w > 0 && GetOptionalFieldOffset(b, table, field).Some? && VerifyField(o, b, table, field, w)
    ensures GetField(b, table, field, w, def).Some?
  {
  }

  lemma PointerSound(o: Options, b: seq<byte>, table: nat, field: nat)
    requires GetOptionalFieldOffset(b, table, field).Some? && VerifyOffsetField(o, b, table, field)
    requires table < |b| < TWO_63
    ensures GetPointer(b, table, field).Some?
    ensures var p := GetPointer(b, table, field).value; p.Some? ==> 0 <= p.value < |b|
  {
    var fo := GetOptionalFieldOffset(b, table, field).value;
    if fo != 0 {
      var off := VerifyOffset(o, b, table + fo);
      SmallMod(table + fo + off, TWO_64);
    }
  }

  lemma StringSound(o: Options, b: seq<byte>, str: nat)
    requires VerifyString(o, b, str)
    ensures StringBytes(b, str).Some?
    ensures ReadU(b, str + 4 + |StringBytes(b, str).value|, 1) == Some(0)
  {
    var n := ReadU(b, str, 4).value;
    var end := str + 4 + n;
    var z := b[end..end + 1];
    assert z == [b[end]] && z[1..] == [];
    assert FromLE(z) == 0;
  }

  lemma VectorSound(o: Options, b: seq<byte>, vec: nat, i: nat)
    requires VerifyVectorOrString(o, b, vec, 4).Some?
    ensures VectorSize(b, vec).Some?
    ensures i < VectorSize(b, vec).value ==> VectorGet(b, vec, i).Some? && VectorGet(b, vec, i).value >= 0
  {
  }
}
