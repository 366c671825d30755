/**
 * What a buffer must look like to be acceptable, said with positions and readers only, and that the
 * checks of verifier.h accept exactly that.
 */
module Placement {
  import opened Wrappers
  import opened Bytes
  import opened FlatReader
  import opened FlatVerifier

  /** `n` bytes at `p` inside the buffer, at a multiple of `align` from its front. */
  predicate Placed(o: Options, b: seq<byte>, p: int, align: nat, n: nat)
    requires align > 0
  {
    0 <= p && n < |b| && p + n <= |b| && (o.checkAlignment ==> p % align == 0)
  }

  predicate TablePlaced(o: Options, b: seq<byte>, p: int) {
    && Placed(o, b, p, 4, 4)
    && var vtable := GetVTable(b, p);
    && vtable.Some? && Placed(o, b, vtable.value, 2, 2)
    && var size := ReadU(b, vtable.value, 2);
    && size.Some? && size.value % 2 == 0 && Placed(o, b, vtable.value, 2, size.value)
  }

  predicate ScalarPlaced(o: Options, b: seq<byte>, p: int, field: nat, w: nat)
    requires w > 0
  {
    var fo := GetOptionalFieldOffset(b, p, field);
    fo.Some? && (fo.value != 0 ==> Placed(o, b, p + fo.value, w, w))
  }

  /** A stored offset leads forward to another place in the buffer. */
  predicate OffsetPlaced(o: Options, b: seq<byte>, start: int) {
    && Placed(o, b, start, 4, 4)
    && var off := ReadU(b, start, 4);
    && off.Some? && 0 < off.value < TWO_31 && start + off.value < |b|
  }

  predicate PointerPlaced(o: Options, b: seq<byte>, p: int, field: nat) {
    var fo := GetOptionalFieldOffset(b, p, field);
    && fo.Some? && (fo.value != 0 ==> OffsetPlaced(o, b, p + fo.value))
    && GetPointer(b, p, field).Some?
  }

  predicate VectorPlaced(o: Options, b: seq<byte>, v: int, elemSize: nat)
    requires elemSize > 0
  {
    && Placed(o, b, v, 4, 4)
    && var n := VectorSize(b, v);
    && n.Some? && n.value < o.maxSize / elemSize && Placed(o, b, v, 4, 4 + elemSize * n.value)
  }

  predicate StringPlaced(o: Options, b: seq<byte>, s: int) {
    && VectorPlaced(o, b, s, 1)
    && var end := s + 4 + VectorSize(b, s).value;
    && end < |b| && b[end] == 0
  }

  // ------------------------------------------------- each check decides its part

  lemma ScalarIff(o: Options, b: seq<byte>, p: nat, w: nat)
    requires w > 0
    ensures VerifyScalar(o, b, p, w) <==> Placed(o, b, p, w, w)
  {
  }

  /** The subtraction modulo 2^64 lands in the buffer exactly when the true difference does. */
  lemma VTableIff(o: Options, b: seq<byte>, table: nat)
    requires table + 4 <= |b| < TWO_63
    ensures GetVTable(b, table).Some?
    ensures VerifyScalar(o, b, VTablePosition(b, table), 2) <==> Placed(o, b, GetVTable(b, table).value, 2, 2)
    ensures VerifyScalar(o, b, VTablePosition(b, table), 2) ==> GetVTable(b, table).value == VTablePosition(b, table)
  {
    SoffsetRange(b, table);
    var s := ReadS(b, table, 4).value;
    if 0 <= table - s < TWO_64 {
      SmallMod(table - s, TWO_64);
    }
    if VTablePosition(b, table) < |b| {
      SubtractionWraps(table, s, |b|);
    }
  }

  lemma TableStartIff(o: Options, b: seq<byte>, c: Counters, p: nat)
    requires |b| < TWO_63
    ensures var (ok, c') := VerifyTableStart(o, b, c, p);
      && (ok <==> TablePlaced(o, b, p) && c.depth < o.maxDepth && c.tables < o.maxTables)
      && (ok ==> c' == Counters(c.depth + 1, c.tables + 1))
  {
    hide GetVTable, VTablePosition;
    ScalarIff(o, b, p, 4);
    if VerifyScalar(o, b, p, 4) {
      VTableIff(o, b, p);
    }
  }

  lemma FieldIff(o: Options, b: seq<byte>, p: nat, field: nat, w: nat)
    requires w > 0 && GetOptionalFieldOffset(b, p, field).Some?
    ensures VerifyField(o, b, p, field, w) <==> ScalarPlaced(o, b, p, field, w)
  {
    hide GetOptionalFieldOffset;
  }

  lemma OffsetIff(o: Options, b: seq<byte>, start: nat)
    requires |b| < TWO_63
    ensures VerifyOffset(o, b, start) != 0 <==> OffsetPlaced(o, b, start)
    ensures OffsetPlaced(o, b, start) ==> ReadU(b, start, 4) == Some(VerifyOffset(o, b, start))
  {
    ScalarIff(o, b, start, 4);
    if VerifyScalar(o, b, start, 4) {
      var off := ReadU(b, start, 4).value;
      if off < TWO_31 {
        SmallMod(start + off, TWO_64);
      }
    }
  }

  lemma PointerIff(o: Options, b: seq<byte>, p: nat, field: nat)
    requires |b| < TWO_63 && GetOptionalFieldOffset(b, p, field).Some?
    ensures VerifyOffsetField(o, b, p, field) <==> PointerPlaced(o, b, p, field)
  {
    hide GetOptionalFieldOffset, VerifyOffset;
    OffsetIff(o, b, p + GetOptionalFieldOffset(b, p, field).value);
  }

  lemma VectorIff(o: Options, b: seq<byte>, v: nat, elemSize: nat)
    requires elemSize > 0
    ensures VerifyVectorOrString(o, b, v, elemSize).Some? <==> VectorPlaced(o, b, v, elemSize)
  {
  }

  lemma StringIff(o: Options, b: seq<byte>, s: nat)
    ensures VerifyString(o, b, s) <==> StringPlaced(o, b, s)
  {
    VectorIff(o, b, s, 1);
  }
}
