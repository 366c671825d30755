/**
 * Common/library/flatbuffers/flatbuffer_builder.h as a class over a VectorDownward. Every method is
 * proved to compute the function of the same name in BuilderModel on the abstract state.
 */
module FlatBufferBuilderModule {
  import opened Wrappers
  import opened Bytes
  import opened VectorDownwardModule
  import opened ScratchCodec
  import M = BuilderModel
  import opened TableLemmas
  import opened Fields
  import opened Tables
  import opened Objects
  import F = FinishLemmas

  class FlatBufferBuilder {
    const buf: VectorDownward
    var numFieldLoc: nat
    var maxVoffset: nat
    var nested: bool
    var finished: bool
    var minalign: nat
    var forceDefaults: bool
    var dedup: bool
    var stringPool: seq<nat>

    /** The two parts of the scratch pad, decoded. */
    ghost var vtables: seq<nat>
    ghost var fields: seq<M.FieldLoc>

    ghost function Abs(): M.State
      requires buf.Valid()
      reads this, buf, buf.data
    {
      M.State(buf.Back(), vtables, fields, maxVoffset, nested, finished, minalign, forceDefaults, dedup, stringPool)
    }

    ghost predicate Valid()
      reads this, buf, buf.data
    {
      && buf.Valid() && buf.size < TWO_31
      && buf.Scratch() == EncodeScratch(vtables, fields) && numFieldLoc == |fields|
      && WellFormed(Abs())
    }

    constructor (initialSize: nat)
      ensures Valid() && fresh(buf) && fresh(buf.data) && Abs() == M.Initial
    {
      buf := new VectorDownward(initialSize, 8);
      numFieldLoc, maxVoffset := 0, 0;
      nested, finished := false, false;
      minalign := 1;
      forceDefaults, dedup := false, true;
      stringPool := [];
      vtables, fields := [], [];
    }

    method Align(k: nat)
      requires Valid() && IsAlign(k) && |M.Align(Abs(), k).buf| < TWO_31
      modifies this, buf, buf.data
      ensures Valid() && (buf.data == old(buf.data) || fresh(buf.data))
      ensures Abs() == M.Align(old(Abs()), k)
    {
      hide PaddingBytes, Aligned, WellFormed, EncodeScratch;
      AlignKeeps(Abs(), k);
      if k > minalign {
        minalign := k;
      }
      buf.Fill(PaddingBytes(buf.size, k));
    }

    method PreAlign(len: nat, k: nat)
      requires Valid() && IsAlign(k) && |M.PreAlign(Abs(), len, k).buf| < TWO_31
      modifies this, buf, buf.data
      ensures Valid() && (buf.data == old(buf.data) || fresh(buf.data))
      ensures Abs() == M.PreAlign(old(Abs()), len, k)
    {
      hide PaddingBytes, Aligned, WellFormed, EncodeScratch;
      PreAlignKeepsAll(Abs(), len, k);
      if len == 0 {
        return;
      }
      if k > minalign {
        minalign := k;
      }
      buf.Fill(PaddingBytes(buf.size + len, k));
    }

    method PushBytes(bytes: seq<byte>)
      requires Valid() && buf.size + |bytes| < TWO_31
      modifies this, buf, buf.data
      ensures Valid() && (buf.data == old(buf.data) || fresh(buf.data))
      ensures Abs() == M.PushBytes(old(Abs()), bytes)
    {
      hide WellFormed, EncodeScratch, Grows;
      GrowsPush(bytes, buf.Back());
      WellFormedGrows(Abs(), bytes + buf.Back());
      buf.Push(bytes);
    }

    method Pad(n: nat)
      requires Valid() && buf.size + n < TWO_31
      modifies this, buf, buf.data
      ensures Valid() && (buf.data == old(buf.data) || fresh(buf.data))
      ensures Abs() == M.PushBytes(old(Abs()), Zeros(n))
    {
      hide WellFormed, EncodeScratch, Grows, Zeros;
      GrowsPush(Zeros(n), buf.Back());
      WellFormedGrows(Abs(), Zeros(n) + buf.Back());
      buf.Fill(n);
    }

    method PushElement(v: nat, w: nat)
      requires Valid() && IsAlign(w) && |M.PushElement(Abs(), v, w).buf| < TWO_31
      modifies this, buf, buf.data
      ensures Valid() && (buf.data == old(buf.data) || fresh(buf.data))
      ensures Abs() == M.PushElement(old(Abs()), v, w)
    {
      hide PaddingBytes, Aligned, WellFormed, EncodeScratch, Zeros, LE;
      Align(w);
      PushBytes(LE(v, w));
    }

    /** PushElement of an offset: stores it relative to where it is stored. */
    method PushOffset(off: nat)
      requires Valid() && 0 < off <= buf.size && |M.PushOffset(Abs(), off).buf| < TWO_31
      modifies this, buf, buf.data
      ensures Valid() && (buf.data == old(buf.data) || fresh(buf.data))
      ensures Abs() == M.PushOffset(old(Abs()), off)
    {
      hide WellFormed, EncodeScratch, M.PushElement, M.Align;
      PushOffsetStages(Abs(), off);
      Align(4);
      PushElement(M.Relative(buf.size, off), 4);
    }

    method TrackField(id: nat, off: nat)
      requires Valid() && M.FieldId(id) && off <= buf.size
      modifies this, buf, buf.data
      ensures Valid() && (buf.data == old(buf.data) || fresh(buf.data))
      ensures Abs() == M.TrackField(old(Abs()), id, off)
    {
      hide WellFormed, EncodeScratch, LE, Zeros;
      TrackFieldKeeps(Abs(), id, off);
      PushScratchField(vtables, fields, M.FieldLoc(off, id));
      buf.ScratchPushSmall(EncodeField(M.FieldLoc(off, id)));
      fields := fields + [M.FieldLoc(off, id)];
      numFieldLoc := numFieldLoc + 1;
      if id > maxVoffset {
        maxVoffset := id;
      }
    }

    method AddElement(id: nat, w: nat, e: nat, def: nat)
      requires Valid() && M.FieldId(id) && IsAlign(w) && |M.AddElement(Abs(), id, w, e, def).buf| < TWO_31
      modifies this, buf, buf.data
      ensures Valid() && (buf.data == old(buf.data) || fresh(buf.data))
      ensures Abs() == M.AddElement(old(Abs()), id, w, e, def)
    {
      hide WellFormed, EncodeScratch, M.PushElement;
      if e == def && !forceDefaults {
        return;
      }
      PushElement(e, w);
      TrackField(id, buf.size);
    }

    method AddOffset(id: nat, off: nat)
      requires Valid() && M.FieldId(id) && off <= buf.size && |M.AddOffset(Abs(), id, off).buf| < TWO_31
      modifies this, buf, buf.data
      ensures Valid() && (buf.data == old(buf.data) || fresh(buf.data))
      ensures Abs() == M.AddOffset(old(Abs()), id, off)
    {
      hide WellFormed, EncodeScratch, M.AddElement, M.Align;
      if off == 0 {
        return;
      }
      AddOffsetStages(Abs(), id, off);
      Align(4);
      AddElement(id, 4, M.Relative(buf.size, off), 0);
    }

    method StartTable() returns (start: nat)
      requires Valid() && M.NotNested(Abs())
      modifies this
      ensures Valid() && buf.data == old(buf.data) && start == buf.size
      ensures Abs() == M.StartTable(old(Abs()))
    {
      nested := true;
      start := buf.size;
    }

    /** The `i`-th of the field locations on top of the scratch pad. */
    method ReadFieldLoc(i: nat) returns (off: nat, id: nat)
      requires buf.Valid() && buf.Scratch() == EncodeScratch(vtables, fields) && numFieldLoc == |fields|
      requires i < |fields| && fields[i].off < TWO_32 && fields[i].id < TWO_16
      ensures fields[i] == M.FieldLoc(off, id)
    {
      hide FromLE, EncodeScratch;
      var it := buf.scratch - numFieldLoc * 8 + i * 8;
      ScratchField(vtables, fields, i);
      var offBytes := buf.ReadScratch(it, 4);
      var idBytes := buf.ReadScratch(it + 4, 2);
      off := FromLE(offBytes);
      id := FromLE(idBytes);
    }

    /** The loop that copies every recorded field location into its vtable slot. */
    method FillVTable(tableLoc: nat, ghost vt: seq<byte>, ghost tail: seq<byte>)
      requires buf.Valid() && buf.Scratch() == EncodeScratch(vtables, fields) && numFieldLoc == |fields|
      requires buf.Back() == vt + tail && |vt| >= 4 && M.FieldsFit(fields, |vt| - 2, tableLoc)
      requires tableLoc < TWO_32 && |vt| < TWO_16
      modifies buf.data
      ensures buf.Valid() && buf.Scratch() == old(buf.Scratch())
      ensures buf.Back() == M.FillVTable(vt, fields, tableLoc) + tail
    {
      hide LE, FromLE, EncodeScratch;
      var i := 0;
      assert fields[..0] == [];
      while i < numFieldLoc
        invariant 0 <= i <= numFieldLoc && buf.Valid() && buf.Scratch() == old(buf.Scratch())
        invariant M.FieldsFit(fields[..i], |vt| - 2, tableLoc)
        invariant buf.Back() == M.FillVTable(vt, fields[..i], tableLoc) + tail
      {
        var off, id := ReadFieldLoc(i);
        FillStep(vt, fields, i, tableLoc, tail);
        buf.Write(id, LE((tableLoc - off) % TWO_16, 2));
        i := i + 1;
      }
      assert fields[..numFieldLoc] == fields;
    }

    /** Compares the vtable stored at `offset` with the one at the front: sizes first, then bytes. */
    method SameVTable(offset: nat, vt1Size: nat, ghost vt: seq<byte>) returns (same: bool)
      requires buf.Valid() && IsVTable(vt) && vt1Size == |vt| <= buf.size && buf.Back()[..|vt|] == vt
      requires offset <= buf.size && VTableAt(buf.Back(), offset).Some?
      ensures same == At(buf.Back(), offset, vt)
    {
      hide FromLE, At;
      var bytes2 := buf.Read(buf.size - offset, 2);
      CompareVTables(buf.Back(), offset, vt, FromLE(bytes2));
      if vt1Size != FromLE(bytes2) {
        return false;
      }
      var vt1 := buf.Read(0, vt1Size);
      var vt2 := buf.Read(buf.size - offset, vt1Size);
      same := vt2 == vt1;
    }

    /** The search for a vtable equal to the one at the front. */
    method FindVTable(ghost vt: seq<byte>, ghost tail: seq<byte>) returns (found: Option<nat>)
      requires buf.Valid() && buf.Scratch() == EncodeScratch(vtables, []) && numFieldLoc == 0
      requires buf.Back() == vt + tail && IsVTable(vt) && buf.size < TWO_32
      requires VTablesStored(buf.Back(), vtables)
      ensures found == M.FindVTable(buf.Back(), vtables, vt)
    {
      hide FromLE, EncodeScratch, At, VTableAt;
      VTableSizeRead(buf.Back(), vt, tail);
      var bytes1 := buf.Read(0, 2);
      var vt1Size := FromLE(bytes1);
      var i := 0;
      assert vtables[0..] == vtables;
      while 4 * i < buf.scratch
        invariant 0 <= i <= |vtables|
        invariant M.FindVTable(buf.Back(), vtables, vt) == M.FindVTable(buf.Back(), vtables[i..], vt)
      {
        VTableOffsetBound(buf.Back(), vtables, i);
        ScratchOffset(vtables, [], i);
        var entry := buf.ReadScratch(4 * i, 4);
        var offset := FromLE(entry);
        var same := SameVTable(offset, vt1Size, vt);
        if same {
          return Some(offset);
        }
        assert vtables[i..][1..] == vtables[i + 1..];
        i := i + 1;
      }
      return None;
    }

    /** A zeroed vtable with its two size slots filled in, in front of the table. */
    method WriteVTableHeader(objectSize: nat)
      requires buf.Valid() && 4 <= maxVoffset
      modifies buf, buf.data
      ensures buf.Valid() && (buf.data == old(buf.data) || fresh(buf.data))
      ensures buf.Scratch() == old(buf.Scratch())
      ensures buf.Back() == VTableHeader(maxVoffset, objectSize) + old(buf.Back())
    {
      hide LE, Zeros, M.WriteU16;
      ghost var tail := buf.Back();
      buf.Fill(maxVoffset);
      WriteInFront(Zeros(maxVoffset), tail, 2, objectSize % TWO_16);
      buf.Write(2, LE(objectSize % TWO_16, 2));
      WriteInFront(M.WriteU16(Zeros(maxVoffset), 2, objectSize % TWO_16), tail, 0, maxVoffset % TWO_16);
      buf.Write(0, LE(maxVoffset % TWO_16, 2));
    }

    /** Writes the vtable of the table at `tableLoc` in front of it. */
    method WriteVTable(start: nat, tableLoc: nat)
      requires buf.Valid() && buf.Scratch() == EncodeScratch(vtables, fields) && numFieldLoc == |fields|
      requires tableLoc == buf.size < TWO_31 && start <= tableLoc
      requires M.FieldsFit(fields, maxVoffset, tableLoc) && maxVoffset + 2 < TWO_16
      modifies this`maxVoffset, buf, buf.data
      ensures buf.Valid() && (buf.data == old(buf.data) || fresh(buf.data))
      ensures buf.Scratch() == old(buf.Scratch())
      ensures buf.Back() == M.BuildVTable(fields, old(maxVoffset), tableLoc, start) + old(buf.Back())
    {
      hide EncodeScratch, M.FillVTable, M.WriteU16;
      ghost var tail := buf.Back();
      maxVoffset := Max((maxVoffset + 2) % TWO_16, 4);
      WriteVTableHeader(tableLoc - start);
      FillVTable(tableLoc, VTableHeader(maxVoffset, tableLoc - start), tail);
    }

    method ClearOffsets()
      requires buf.Valid() && buf.Scratch() == EncodeScratch(vtables, fields) && numFieldLoc == |fields|
      modifies this`numFieldLoc, this`maxVoffset, this`fields, buf
      ensures buf.Valid() && buf.data == old(buf.data) && buf.Back() == old(buf.Back())
      ensures buf.Scratch() == EncodeScratch(vtables, []) && numFieldLoc == 0 && maxVoffset == 0 && fields == []
    {
      hide EncodeOffsets, EncodeFields;
      PopScratchFields(vtables, fields);
      buf.ScratchPop(numFieldLoc * 8);
      numFieldLoc := 0;
      maxVoffset := 0;
      fields := [];
    }

    /** Finds a stored vtable equal to the new one and drops the new bytes, or remembers the new one. */
    method ChooseVTable(tableLoc: nat, ghost table: seq<byte>, ghost vt: seq<byte>)
      returns (vtUse: nat, ghost front: seq<byte>)
      requires buf.Valid() && buf.Scratch() == EncodeScratch(vtables, []) && numFieldLoc == 0
      requires buf.Back() == vt + table && IsVTable(vt) && buf.size < TWO_32 && |table| == tableLoc
      requires VTablesStored(buf.Back(), vtables)
      modifies this`vtables, buf, buf.data
      ensures buf.Valid() && (buf.data == old(buf.data) || fresh(buf.data))
      ensures buf.Scratch() == EncodeScratch(vtables, [])
      ensures var full := vt + table;
        var found := if dedup then M.FindVTable(full, old(vtables), vt) else None;
        var popped := if found.Some? then table else full;
        && vtUse == (if found.Some? then found.value else |full|)
        && front == (if found.Some? then [] else vt) && buf.Back() == front + table
        && vtables == (if vtUse == |popped| then old(vtables) + [vtUse] else old(vtables))
    {
      hide LE, EncodeScratch, At, VTableAt, IsVTable, M.FindVTable, VTablesStored;
      vtUse, front := buf.size, vt;
      if dedup {
        var found := FindVTable(vt, table);
        if found.Some? {
          vtUse, front := found.value, [];
          buf.Pop(buf.size - tableLoc);
        }
      }
      if vtUse == buf.size {
        PushScratchOffset(vtables, vtUse);
        buf.ScratchPushSmall(LE(vtUse, 4));
        vtables := vtables + [vtUse];
      }
    }

    /** Fills in the vtable offset reserved at the start of the table. */
    method LinkTable(tableLoc: nat, vtUse: nat, ghost front: seq<byte>, ghost table: seq<byte>)
      requires buf.Valid() && buf.Back() == front + table && 4 <= tableLoc == |table|
      modifies buf.data
      ensures buf.Valid() && buf.Scratch() == old(buf.Scratch())
      ensures buf.Back() == front + M.WithSoffset(table, vtUse)
    {
      hide LE, Unsigned;
      var i := buf.size - tableLoc;
      assert (front + table)[..i] == front && (front + table)[i + 4..] == table[4..];
      buf.Write(i, LE(Unsigned(vtUse - tableLoc, 4), 4));
      assert front + M.WithSoffset(table, vtUse)
          == front + LE(Unsigned(vtUse - tableLoc, 4), 4) + table[4..];
    }

    /** Links the table at `tableLoc` to an equal stored vtable, or to the new one in front of it. */
    method AttachVTable(tableLoc: nat, ghost t: M.State, ghost vt: seq<byte>)
      requires buf.Valid() && buf.Scratch() == EncodeScratch(vtables, fields) && numFieldLoc == |fields|
      requires buf.Back() == vt + t.buf && IsVTable(vt) && buf.size < TWO_32 && 4 <= |t.buf| == tableLoc
      requires VTablesStored(buf.Back(), vtables)
      requires t == M.State(t.buf, vtables, t.fields, t.maxVoffset, t.nested, finished, minalign,
                            forceDefaults, dedup, stringPool)
      modifies this`numFieldLoc, this`maxVoffset, this`fields, this`vtables, this`nested, buf, buf.data
      ensures buf.Valid() && (buf.data == old(buf.data) || fresh(buf.data))
      ensures buf.Scratch() == EncodeScratch(vtables, []) && numFieldLoc == 0 && fields == []
      ensures Abs() == M.AttachVTable(t, vt)
    {
      hide LE, EncodeScratch, M.WithSoffset, IsVTable, M.FindVTable, VTablesStored;
      ClearOffsets();
      var vtUse;
      ghost var front;
      vtUse, front := ChooseVTable(tableLoc, t.buf, vt);
      LinkTable(tableLoc, vtUse, front, t.buf);
      assert [] + M.WithSoffset(t.buf, vtUse) == M.WithSoffset(t.buf, vtUse);
      nested := false;
    }

    method EndTable(start: nat) returns (tableLoc: nat)
      requires Valid() && start <= buf.size && |M.EndTable(Abs(), start).0.buf| < TWO_31
      modifies this, buf, buf.data
      ensures Valid() && (buf.data == old(buf.data) || fresh(buf.data))
      ensures (Abs(), tableLoc) == M.EndTable(old(Abs()), start)
    {
      hide LE, EncodeScratch, M.PushElement, M.BuildVTable, M.AttachVTable, VTablesStored, IsVTable, WellFormed;
      ghost var s := Abs();
      ghost var vt := EndTableFits(s, start);
      PushElement(0, 4);
      tableLoc := buf.size;
      ghost var t := Abs();
      WriteVTable(start, tableLoc);
      AttachVTable(tableLoc, t, vt);
    }

    // -------------------------------------------------- strings and vectors

    method CreateString(str: seq<byte>) returns (off: nat)
      requires Valid() && M.NotNested(Abs()) && |M.CreateString(Abs(), str).0.buf| < TWO_31
      modifies this, buf, buf.data
      ensures Valid() && (buf.data == old(buf.data) || fresh(buf.data))
      ensures (Abs(), off) == M.CreateString(old(Abs()), str)
    {
      hide WellFormed, EncodeScratch, LE, Zeros, M.PushElement, M.PreAlign;
      CreateStringStages(Abs(), str);
      PreAlign(|str| + 1, 4);
      Pad(1);
      PushBytes(str);
      PushElement(|str| % TWO_32, 4);
      off := buf.size;
    }

    /** The lookup in the pool: the entry that the pool's ordering does not tell apart from `str`. */
    method FindString(str: seq<byte>) returns (found: Option<nat>)
      requires buf.Valid() && |str| < TWO_31
      requires forall i :: 0 <= i < |stringPool| ==> stringPool[i] <= buf.size
      ensures found == M.FindString(buf.Back(), stringPool, str)
    {
      hide LE;
      var i := 0;
      assert stringPool[0..] == stringPool;
      while i < |stringPool|
        invariant 0 <= i <= |stringPool|
        invariant M.FindString(buf.Back(), stringPool, str) == M.FindString(buf.Back(), stringPool[i..], str)
      {
        var off := stringPool[i];
        var entry := LE(|str| % TWO_32, 4) + str;
        if |entry| <= off {
          var stored := buf.Read(buf.size - off, |entry|);
          if stored == entry {
            return Some(off);
          }
        }
        assert stringPool[i..][1..] == stringPool[i + 1..];
        i := i + 1;
      }
      return None;
    }

    /** Takes back everything written since the buffer had `n` bytes. */
    method PopTo(n: nat)
      requires Valid() && n <= buf.size && WellFormed(Abs().(buf := buf.Back()[buf.size - n..]))
      modifies this, buf
      ensures Valid() && buf.data == old(buf.data)
      ensures Abs() == old(Abs()).(buf := old(buf.Back())[old(buf.size) - n..])
    {
      hide WellFormed, EncodeScratch;
      buf.Pop(buf.size - n);
    }

    method Remember(off: nat)
      requires Valid() && WellFormed(Abs().(pool := stringPool + [off]))
      modifies this`stringPool
      ensures Valid() && Abs() == old(Abs()).(pool := old(stringPool) + [off])
    {
      hide WellFormed, EncodeScratch;
      stringPool := stringPool + [off];
    }

    /** Serializes first, then looks the string up and takes it back if it was already there. */
    method CreateSharedString(str: seq<byte>) returns (off: nat)
      requires Valid() && M.NotNested(Abs()) && |M.CreateString(Abs(), str).0.buf| < TWO_31
      modifies this, buf, buf.data
      ensures Valid() && (buf.data == old(buf.data) || fresh(buf.data))
      ensures (Abs(), off) == M.CreateSharedString(old(Abs()), str)
    {
      hide EncodeScratch, M.CreateString, M.FindString, WellFormed;
      ghost var s := Abs();
      var sizeBefore := buf.size;
      off := CreateString(str);
      PoolInside(s, Abs(), str);
      var found := FindString(str);
      if found.Some? {
        PopTo(sizeBefore);
        off := found.value;
      } else {
        Remember(off);
      }
    }

    /** The elements of a vector, pushed last to first. */
    method PushOffsets(offs: seq<nat>)
      requires Valid() && M.OffsetsOk(offs, buf.size) && |M.PushOffsets(Abs(), offs).buf| < TWO_31
      modifies this, buf, buf.data
      ensures Valid() && (buf.data == old(buf.data) || fresh(buf.data))
      ensures Abs() == M.PushOffsets(old(Abs()), offs)
    {
      hide WellFormed, EncodeScratch, M.PushOffset;
      var i := |offs|;
      assert offs[..i] == offs;
      while i > 0
        invariant 0 <= i <= |offs| && Valid() && (buf.data == old(buf.data) || fresh(buf.data))
        invariant M.OffsetsOk(offs[..i], buf.size)
        invariant M.PushOffsets(Abs(), offs[..i]) == M.PushOffsets(old(Abs()), offs)
      {
        i := i - 1;
        assert offs[..i + 1][..i] == offs[..i];
        PushOffsetsFits(Abs(), offs[..i + 1]);
        PushOffset(offs[i]);
      }
    }

    method SetNested(b: bool)
      requires Valid()
      modifies this`nested
      ensures Valid() && Abs() == old(Abs()).(nested := b)
    {
      hide EncodeScratch, VTablesStored, VTablesDistinct, PoolStored, PoolDistinct, M.FieldsFit;
      nested := b;
    }

    method CreateVector(offs: seq<nat>) returns (off: nat)
      requires Valid() && M.NotNested(Abs()) && M.OffsetsOk(offs, buf.size)
      requires |M.CreateVector(Abs(), offs).0.buf| < TWO_31
      modifies this, buf, buf.data
      ensures Valid() && (buf.data == old(buf.data) || fresh(buf.data))
      ensures (Abs(), off) == M.CreateVector(old(Abs()), offs)
    {
      hide WellFormed, EncodeScratch, M.PreAlign, M.PushOffsets, M.PushElement;
      CreateVectorFits(Abs(), offs);
      SetNested(true);
      PreAlign(|offs| * 4, 4);
      PreAlign(|offs| * 4, 4);
      PushOffsets(offs);
      SetNested(false);
      PushElement(|offs| % TWO_32, 4);
      off := buf.size;
    }

    /** Drops the scratch pad and tracks the alignment of the size prefix. */
    method DropScratch(prefix: nat)
      requires Valid() && M.NotNested(Abs()) && (prefix == 0 || prefix == 4)
      modifies this, buf
      ensures Valid() && buf.data == old(buf.data) && IsAlign(minalign)
      ensures Abs() == M.TrackMinAlign(old(Abs()).(vtables := []), prefix)
    {
      hide EncodeOffsets, EncodeFields, WellFormed;
      NoVTables(Abs(), prefix);
      buf.ClearScratch();
      vtables := [];
      EmptyScratch();
      if prefix > minalign {
        minalign := prefix;
      }
    }

    /** Pads so that the header to come ends on the buffer's alignment, then writes the identifier. */
    method PadForRoot(identifier: Option<seq<byte>>, sized: bool)
      requires Valid() && M.NotNested(Abs())
      requires IsAlign(minalign) && |F.Padded(Abs(), identifier, sized).buf| < TWO_31
      modifies this, buf, buf.data
      ensures Valid() && (buf.data == old(buf.data) || fresh(buf.data))
      ensures Abs() == F.Padded(old(Abs()), identifier, sized)
    {
      hide EncodeScratch, M.PreAlign, WellFormed;
      var prefix := if sized then 4 else 0;
      var id := if identifier.Some? then identifier.value else [];
      DropScratch(prefix);
      PadStages(Abs(), prefix + 4 + |id|, id);
      PreAlign(prefix + 4 + |id|, minalign);
      PushBytes(id);
    }

    method WriteRoot(root: nat, sized: bool)
      requires Valid() && 0 < root <= buf.size && |F.WithRoot(Abs(), root, sized).buf| < TWO_31
      modifies this, buf, buf.data
      ensures Valid() && (buf.data == old(buf.data) || fresh(buf.data))
      ensures Abs() == F.WithRoot(old(Abs()), root, sized)
    {
      hide WellFormed, EncodeScratch, M.PushOffset, M.PushElement;
      RootStages(Abs(), root, sized);
      PushOffset(root);
      if sized {
        PushElement(buf.size % TWO_32, 4);
      }
    }

    /** Writes the root offset; the whole buffer ends up a multiple of the largest alignment used. */
    method Finish(root: nat, identifier: Option<seq<byte>>, sized: bool)
      requires Valid() && M.NotNested(Abs()) && !finished && 0 < root <= buf.size
      requires identifier.Some? ==> |identifier.value| == 4
      requires |M.Finish(Abs(), root, identifier, sized).buf| < TWO_31
      modifies this, buf, buf.data
      ensures Valid() && (buf.data == old(buf.data) || fresh(buf.data))
      ensures Abs() == M.Finish(old(Abs()), root, identifier, sized)
    {
      hide EncodeScratch, F.Padded, F.WithRoot, M.Finish;
      hide VTablesStored, VTablesDistinct, PoolStored, PoolDistinct, M.FieldsFit;
      F.FinishIs(Abs(), root, identifier, sized);
      WithRootGrows(F.Padded(Abs(), identifier, sized), root, sized);
      PadForRoot(identifier, sized);
      WriteRoot(root, sized);
      finished := true;
    }
  }

  lemma PushOffsetStages(s: M.State, off: nat)
    requires 0 < off <= |s.buf|
    ensures |s.buf| <= |M.Align(s, 4).buf| <= |M.PushOffset(s, off).buf|
  {
    hide PaddingBytes, Zeros, LE, Aligned;
  }

  lemma AddOffsetStages(s: M.State, id: nat, off: nat)
    requires 0 < off <= |s.buf|
    ensures |s.buf| <= |M.Align(s, 4).buf| <= |M.AddOffset(s, id, off).buf|
  {
    hide PaddingBytes, Zeros, LE, Aligned;
  }

  lemma FillStep(vt: seq<byte>, fields: seq<M.FieldLoc>, i: nat, tableLoc: nat, tail: seq<byte>)
    requires |vt| >= 4 && M.FieldsFit(fields, |vt| - 2, tableLoc) && i < |fields|
    ensures M.FieldsFit(fields[..i], |vt| - 2, tableLoc) && M.FieldsFit(fields[..i + 1], |vt| - 2, tableLoc)
    ensures var b := M.FillVTable(vt, fields[..i], tableLoc) + tail;
      var id := fields[i].id;
      id + 2 <= |vt| && M.FillVTable(vt, fields[..i + 1], tableLoc) + tail
      == b[..id] + LE((tableLoc - fields[i].off) % TWO_16, 2) + b[id + 2..]
  {
    hide LE;
    var f := fields[..i + 1];
    assert f[..i] == fields[..i] && f[i] == fields[i] && |f| - 1 == i;
    var x := M.FillVTable(vt, fields[..i], tableLoc);
    var v := (tableLoc - fields[i].off) % TWO_16;
    WriteInFront(x, tail, fields[i].id, v);
  }

  lemma WriteInFront(x: seq<byte>, tail: seq<byte>, i: nat, v: nat)
    requires i + 2 <= |x|
    ensures M.WriteU16(x, i, v) + tail == (x + tail)[..i] + LE(v, 2) + (x + tail)[i + 2..]
  {
    hide LE;
    assert (x + tail)[..i] == x[..i];
    assert (x + tail)[i + 2..] == x[i + 2..] + tail;
  }

  lemma PreAlignKeepsAll(s: M.State, len: nat, k: nat)
    requires WellFormed(s) && IsAlign(k)
    ensures WellFormed(M.PreAlign(s, len, k))
  {
    hide M.PreAlign, VTablesStored, VTablesDistinct, PoolStored, PoolDistinct, M.FieldsFit;
    PreAlignFacts(s, len, k);
    var r := M.PreAlign(s, len, k);
    WellFormedMinalign(s, r.buf, r.minalign);
  }

  lemma VTableSizeRead(b: seq<byte>, vt: seq<byte>, tail: seq<byte>)
    requires b == vt + tail && IsVTable(vt)
    ensures FromLE(b[0..2]) == |vt| && b[..|vt|] == vt
  {
    assert b[0..2] == vt[0..2];
  }

  lemma VTableOffsetBound(b: seq<byte>, vtables: seq<nat>, i: nat)
    requires VTablesStored(b, vtables) && i < |vtables|
    ensures 4 <= vtables[i] <= |b| && VTableAt(b, vtables[i]).Some?
  {
    var v := VTableAt(b, vtables[i]);
  }

  /** Equal sizes and equal bytes is the same as storing exactly the bytes of `vt`. */
  lemma CompareVTables(b: seq<byte>, v: nat, vt: seq<byte>, size: nat)
    requires VTableAt(b, v).Some? && IsVTable(vt) && v <= |b|
    requires ReadU(b, |b| - v, 2) == Some(size)
    ensures size <= v
    ensures At(b, v, vt) <==> size == |vt| && b[|b| - v..|b| - v + |vt|] == vt
  {
    if At(b, v, vt) {
      AtSub(b, v, vt, 0, 2);
    }
  }

  /** What EndTable's steps rely on. */
  lemma EndTableFits(s: M.State, start: nat) returns (vt: seq<byte>)
    requires WellFormed(s) && start <= |s.buf| && |M.EndTable(s, start).0.buf| < TWO_31
    ensures var t := M.PushElement(s, 0, 4);
      && t == s.(buf := t.buf, minalign := t.minalign) && |s.buf| + 4 <= |t.buf| < TWO_31
      && M.FieldsFit(s.fields, s.maxVoffset, |t.buf|) && s.maxVoffset + 2 < TWO_16
      && vt == M.BuildVTable(s.fields, s.maxVoffset, |t.buf|, start) && IsVTable(vt) && |vt| < TWO_16
      && VTablesStored(vt + t.buf, s.vtables)
      && M.EndTable(s, start) == (M.AttachVTable(t, vt), |t.buf|)
      && WellFormed(M.AttachVTable(t, vt)) && |M.AttachVTable(t, vt).buf| < TWO_31
  {
    hide M.PushElement, M.BuildVTable, M.AttachVTable, IsVTable, Linked, M.EndTable, VTableAt;
    vt := EndTableStarts(s, start);
    var s', loc, v, vt' := EndTableLinks(s, start);
    var t := M.PushElement(s, 0, 4);
    GrowsPush(vt, t.buf);
    forall i | 0 <= i < |s.vtables|
      ensures VTableAt(vt + t.buf, s.vtables[i]).Some?
    {
      VTableAtGrows(s.buf, t.buf, s.vtables[i]);
      VTableAtGrows(t.buf, vt + t.buf, s.vtables[i]);
    }
  }

  lemma CreateStringStages(s: M.State, str: seq<byte>)
    ensures var p := M.PreAlign(s, |str| + 1, 4);
      |s.buf| <= |p.buf| && |p.buf| + 1 + |str| <= |M.CreateString(s, str).0.buf|
  {
    hide PaddingBytes, Zeros, LE, Aligned;
  }

  lemma PoolBounded(s: M.State)
    requires WellFormed(s)
    ensures forall i :: 0 <= i < |s.pool| ==> s.pool[i] <= |s.buf|
  {
    hide VTablesStored, VTablesDistinct, PoolDistinct, M.FieldsFit;
    forall i | 0 <= i < |s.pool|
      ensures s.pool[i] <= |s.buf|
    {
      assert StringStored(s.buf, s.pool[i]);
    }
  }

  lemma PoolInside(s: M.State, c: M.State, str: seq<byte>)
    requires WellFormed(s) && c == M.CreateString(s, str).0 && |c.buf| < TWO_31
    ensures forall i :: 0 <= i < |s.pool| ==> s.pool[i] <= |c.buf|
    ensures |str| < TWO_31 && |s.buf| <= |c.buf| && c.buf[|c.buf| - |s.buf|..] == s.buf
    ensures c == s.(buf := c.buf, minalign := c.minalign)
    ensures WellFormed(M.CreateSharedString(s, str).0)
  {
    hide M.CreateString, M.CreateSharedString, WellFormed;
    var c', o := CreateStringHolds(s, str);
    StringHoldsLength(c'.buf, o, str, c'.minalign);
    var s', o' := CreateSharedStringHolds(s, str);
    PoolBounded(s);
  }

  lemma StringHoldsLength(b: seq<byte>, o: nat, str: seq<byte>, m: nat)
    requires StringHolds(b, o, str, m)
    ensures |str| < TWO_31
  {
  }

  lemma PushOffsetsFits(s: M.State, offs: seq<nat>)
    requires M.OffsetsOk(offs, |s.buf|) && offs != []
    ensures |s.buf| <= |M.PushOffset(s, offs[|offs| - 1]).buf| <= |M.PushOffsets(s, offs).buf|
  {
    hide M.PushOffset;
    var last := |offs| - 1;
    PushOffsetGrows(s, offs[last]);
    PushOffsetsLength(M.PushOffset(s, offs[last]), offs[..last]);
  }

  lemma PushOffsetGrows(s: M.State, off: nat)
    requires 0 < off <= |s.buf|
    ensures |s.buf| <= |M.PushOffset(s, off).buf|
  {
    hide PaddingBytes, Zeros, LE, Aligned;
  }

  lemma CreateVectorFits(s: M.State, offs: seq<nat>)
    requires WellFormed(s) && M.OffsetsOk(offs, |s.buf|)
    ensures var n := s.(nested := true);
      var p := M.PreAlign(n, |offs| * 4, 4);
      var q := M.PreAlign(p, |offs| * 4, 4);
      && |s.buf| <= |p.buf| <= |q.buf|
      && |q.buf| <= |M.PushOffsets(q, offs).buf| <= |M.CreateVector(s, offs).0.buf|
      && M.CreateVector(s, offs).0 == M.PushElement(M.PushOffsets(q, offs).(nested := false), |offs| % TWO_32, 4)
  {
    hide PaddingBytes, Zeros, LE, Aligned, M.PushOffsets;
    var q := M.PreAlign(M.PreAlign(s.(nested := true), |offs| * 4, 4), |offs| * 4, 4);
    PushOffsetsLength(q, offs);
  }

  lemma EmptyScratch()
    ensures EncodeScratch([], []) == []
  {
  }

  lemma NoVTables(s: M.State, prefix: nat)
    requires WellFormed(s) && (prefix == 0 || prefix == 4)
    ensures WellFormed(M.TrackMinAlign(s.(vtables := []), prefix))
    ensures IsAlign(M.TrackMinAlign(s.(vtables := []), prefix).minalign)
  {
    hide PoolStored, PoolDistinct, M.FieldsFit;
  }

  lemma PadStages(a: M.State, len: nat, id: seq<byte>)
    requires WellFormed(a)
    ensures var p := M.PreAlign(a, len, a.minalign);
      && |a.buf| <= |p.buf| && WellFormed(p) && WellFormed(M.PushBytes(p, id))
  {
    hide M.PreAlign, VTablesStored, VTablesDistinct, PoolStored, PoolDistinct, M.FieldsFit;
    PreAlignKeepsAll(a, len, a.minalign);
    var p := M.PreAlign(a, len, a.minalign);
    PreAlignFacts(a, len, a.minalign);
    GrowsPush(id, p.buf);
    WellFormedGrows(p, id + p.buf);
  }

  lemma RootStages(p: M.State, root: nat, sized: bool)
    requires 0 < root <= |p.buf|
    ensures |p.buf| <= |M.PushOffset(p, root).buf| <= |F.WithRoot(p, root, sized).buf|
  {
    hide M.PushElement, M.PushOffset;
    PushOffsetGrows(p, root);
    var c := M.PushOffset(p, root);
    PushElementLength(c, |c.buf| % TWO_32, 4);
  }

  lemma WithRootGrows(p: M.State, root: nat, sized: bool)
    requires 0 < root <= |p.buf|
    ensures |p.buf| <= |F.WithRoot(p, root, sized).buf|
  {
    hide F.WithRoot;
    RootStages(p, root, sized);
  }
}
