/** The verifier as an object whose counters are updated in place, with the generated Verify methods on it. */
module VerifierClass {
  import opened Bytes
  import opened FlatReader
  import F = FlatVerifier
  import opened Messages
  import opened Placement

  class Verifier {
    const buf: seq<byte>
    const opts: F.Options
    var depth: nat
    var numTables: nat

    ghost function Abs(): F.Counters
      reads this
    {
      F.Counters(depth, numTables)
    }

    constructor (buf: seq<byte>, opts: F.Options)
      ensures this.buf == buf && this.opts == opts && Abs() == F.Counters(0, 0)
    {
      this.buf := buf;
      this.opts := opts;
      depth, numTables := 0, 0;
    }

    method VerifyComplexity() returns (ok: bool)
      modifies this
      ensures (ok, Abs()) == F.VerifyComplexity(opts, old(Abs()))
    {
      depth := depth + 1;
      numTables := numTables + 1;
      ok := depth <= opts.maxDepth && numTables <= opts.maxTables;
    }

    method EndTable()
      requires depth > 0
      modifies this
      ensures Abs() == F.EndTable(old(Abs()))
    {
      depth := depth - 1;
    }

    method VerifyTableStart(table: nat) returns (ok: bool)
      modifies this
      ensures (ok, Abs()) == F.VerifyTableStart(opts, buf, old(Abs()), table)
      ensures |buf| < TWO_63 ==>
        (ok <==> TablePlaced(opts, buf, table) && old(depth) < opts.maxDepth && old(numTables) < opts.maxTables)
    {
      if |buf| < TWO_63 {
        TableStartIff(opts, buf, Abs(), table);
      }
      hide TablePlaced;
      if !F.VerifyScalar(opts, buf, table, 4) {
        return false;
      }
      var vtable := F.VTablePosition(buf, table);
      ok := VerifyComplexity();
      if !ok || !F.VerifyScalar(opts, buf, vtable, 2) {
        return false;
      }
      var vsize := ReadU(buf, vtable, 2).value;
      ok := F.VerifyAlignment(opts, vsize, 2) && vsize % 2 == 0 && F.Verify(buf, vtable, vsize);
    }

    /** INVENTORY_SLOT::Verify. */
    method VerifySlot(p: nat) returns (ok: bool)
      requires |buf| < TWO_63
      modifies this
      ensures (ok, Abs()) == Messages.VerifySlot(opts, buf, old(Abs()), p)
    {
      hide F.VerifyTableStart, VerifyStringField, F.VerifyField, GetOptionalFieldOffset;
      ghost var c := Abs();
      ok := VerifyTableStart(p);
      if !ok {
        return false;
      }
      F.TableStartSound(opts, buf, c, p);
      ok := VerifyStringField(opts, buf, p, VT_GUID) && F.VerifyField(opts, buf, p, VT_ITEM_SEED, 8)
            && F.VerifyField(opts, buf, p, VT_COUNT, 4);
      if ok {
        EndTable();
      }
    }

    /** VerifyVectorOfTables. */
    method VerifySlots(vec: nat) returns (ok: bool)
      requires |buf| < TWO_63 && F.VerifyVectorOrString(opts, buf, vec, 4).Some?
      modifies this
      ensures (ok, Abs()) == Messages.VerifySlots(opts, buf, old(Abs()), vec, 0)
    {
      hide Messages.VerifySlot, F.VerifyVectorOrString;
      var i := 0;
      F.VectorSound(opts, buf, vec, 0);
      while i < VectorSize(buf, vec).value
        invariant 0 <= i <= VectorSize(buf, vec).value
        invariant Messages.VerifySlots(opts, buf, Abs(), vec, i) == Messages.VerifySlots(opts, buf, old(Abs()), vec, 0)
      {
        F.VectorSound(opts, buf, vec, i);
        ok := VerifySlot(VectorGet(buf, vec, i).value);
        if !ok {
          return false;
        }
        i := i + 1;
      }
      ok := true;
    }

    /** NOTICE_INVENTORY::Verify. */
    method VerifyNotice(p: nat) returns (ok: bool)
      requires |buf| < TWO_63
      modifies this
      ensures (ok, Abs()) == Messages.VerifyNotice(opts, buf, old(Abs()), p)
    {
      hide F.VerifyTableStart, F.VerifyOffsetField, F.VerifyField, GetOptionalFieldOffset, GetPointer;
      hide F.VerifyVectorOrString, Messages.VerifySlots;
      ghost var c := Abs();
      ok := VerifyTableStart(p);
      if !ok {
        return false;
      }
      F.TableStartSound(opts, buf, c, p);
      if !F.VerifyOffsetField(opts, buf, p, VT_INVENTORY_SLOTS) {
        return false;
      }
      F.PointerSound(opts, buf, p, VT_INVENTORY_SLOTS);
      var vec := GetPointer(buf, p, VT_INVENTORY_SLOTS).value;
      if vec.Some? {
        if F.VerifyVectorOrString(opts, buf, vec.value, 4).None? {
          return false;
        }
        F.VectorSound(opts, buf, vec.value, 0);
        ok := VerifySlots(vec.value);
        if !ok {
          return false;
        }
      }
      ok := F.VerifyField(opts, buf, p, VT_INVENTORY_TOTAL_COUNT, 4);
      if ok {
        EndTable();
      }
    }

    /** VerifyBuffer<NOTICE_INVENTORY>, on a new verifier. */
    method VerifyBuffer() returns (ok: bool)
      requires |buf| < TWO_63 && Abs() == F.Counters(0, 0)
      modifies this
      ensures (ok, Abs()) == VerifyNoticeBuffer(opts, buf)
      ensures ok ==> ReadNoticeBuffer(buf).Some? && depth == 0 && numTables <= opts.maxTables
      ensures ok <==> NoticeBufferPlaced(opts, buf) && 1 + SlotTables(buf) <= opts.maxTables
                      && (if SlotTables(buf) == 0 then 1 else 2) <= opts.maxDepth
    {
      hide Messages.VerifyNotice, F.VerifyOffset, ReadNoticeBuffer, NoticeBufferPlaced, SlotTables;
      NoticeBufferSound(opts, buf);
      NoticeBufferIff(opts, buf);
      if |buf| < F.MIN_BUFFER_SIZE {
        return false;
      }
      var o := F.VerifyOffset(opts, buf, 0);
      if o == 0 {
        return false;
      }
      ok := VerifyNotice(o);
    }
  }
}
