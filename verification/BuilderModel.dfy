/**
 * The state of a 32-bit FlatBufferBuilder as a value, and each of its operations as a function on it
 * (Common/library/flatbuffers/flatbuffer_builder.h). The class in FlatBufferBuilder.dfy is proved to
 * compute exactly these functions; what they guarantee is proved in TableLemmas.dfy.
 */
module BuilderModel {
  import opened Wrappers
  import opened Bytes

  /** Where a member of the table under construction was written, as an offset from the buffer end. */
  datatype FieldLoc = FieldLoc(off: nat, id: nat)

  /**
   * `buf` is the finished part of the buffer in memory order (the builder grows it at the front);
   * `vtables` and `fields` are the two parts of the scratch pad; `pool` are the shared strings.
   */
  datatype State = State(
    buf: seq<byte>,
    vtables: seq<nat>,
    fields: seq<FieldLoc>,
    maxVoffset: nat,
    nested: bool,
    finished: bool,
    minalign: nat,
    forceDefaults: bool,
    dedup: bool,
    pool: seq<nat>)

  const Initial := State([], [], [], 0, false, false, 1, false, true, [])

  predicate NotNested(s: State) {
    !s.nested && s.fields == []
  }

  // ----------------------------------------------------- alignment, scalars

  function TrackMinAlign(s: State, k: nat): State {
    if k > s.minalign then s.(minalign := k) else s
  }

  function Align(s: State, k: nat): State
    requires IsAlign(k)
  {
    TrackMinAlign(s, k).(buf := Zeros(PaddingBytes(|s.buf|, k)) + s.buf)
  }

  function PreAlign(s: State, len: nat, k: nat): State
    requires IsAlign(k)
  {
    if len == 0 then s
    else TrackMinAlign(s, k).(buf := Zeros(PaddingBytes(|s.buf| + len, k)) + s.buf)
  }

  function PushBytes(s: State, bytes: seq<byte>): State {
    s.(buf := bytes + s.buf)
  }

  function PushElement(s: State, v: nat, w: nat): State
    requires IsAlign(w)
  {
    PushBytes(Align(s, w), LE(v, w))
  }

  /** Turns an offset from the buffer end into one relative to where it is about to be stored. */
  function Relative(size: nat, off: nat): (r: nat)
    requires off <= size
  {
    (size - off + 4) % TWO_32
  }

  function PushOffset(s: State, off: nat): State
    requires 0 < off <= |s.buf|
  {
    var a := Align(s, 4);
    PushElement(a, Relative(|a.buf|, off), 4)
  }

  // ----------------------------------------------------------------- tables

  function TrackField(s: State, id: nat, off: nat): State {
    s.(fields := s.fields + [FieldLoc(off, id)], maxVoffset := Max(s.maxVoffset, id))
  }

  function AddElement(s: State, id: nat, w: nat, e: nat, def: nat): State
    requires IsAlign(w)
  {
    if e == def && !s.forceDefaults then s
    else
      var p := PushElement(s, e, w);
      TrackField(p, id, |p.buf|)
  }

  function AddOffset(s: State, id: nat, off: nat): State
    requires off <= |s.buf|
  {
    if off == 0 then s
    else
      var a := Align(s, 4);
      AddElement(a, id, 4, Relative(|a.buf|, off), 0)
  }

  function StartTable(s: State): State {
    s.(nested := true)
  }

  function WriteU16(b: seq<byte>, i: nat, v: nat): (r: seq<byte>)
    requires i + 2 <= |b|
    ensures |r| == |b|
  {
    b[..i] + LE(v, 2) + b[i + 2..]
  }

  /** Vtable byte offsets of members are even, lie after the two size slots and leave room for their own slot. */
  predicate FieldId(id: nat) {
    4 <= id && id % 2 == 0 && id + 2 < TWO_16
  }

  predicate FieldsFit(fields: seq<FieldLoc>, max: nat, size: nat) {
    forall i :: 0 <= i < |fields| ==> FieldId(fields[i].id) && fields[i].id <= max && fields[i].off <= size
  }

  function FillVTable(vt: seq<byte>, fields: seq<FieldLoc>, tableLoc: nat): (r: seq<byte>)
    requires |vt| >= 4 && FieldsFit(fields, |vt| - 2, tableLoc)
    ensures |r| == |vt|
  {
    if fields == [] then vt
    else
      var last := |fields| - 1;
      var rest := FillVTable(vt, fields[..last], tableLoc);
      WriteU16(rest, fields[last].id, (tableLoc - fields[last].off) % TWO_16)
  }

  /** The size of a vtable is itself a 16-bit number. */
  function VTableSize(maxVoffset: nat): nat {
    Max((maxVoffset + 2) % TWO_16, 4)
  }

  /** A vtable: its own size, the size of the table, then one slot per field id. */
  function BuildVTable(fields: seq<FieldLoc>, maxVoffset: nat, tableLoc: nat, start: nat): (vt: seq<byte>)
    requires FieldsFit(fields, maxVoffset, tableLoc) && start <= tableLoc
    requires maxVoffset + 2 < TWO_16
    ensures |vt| == VTableSize(maxVoffset)
  {
    var size := VTableSize(maxVoffset);
    var header := WriteU16(WriteU16(Zeros(size), 2, (tableLoc - start) % TWO_16), 0, size % TWO_16);
    FillVTable(header, fields, tableLoc)
  }

  /** The first remembered vtable that is byte for byte `vt`. */
  function FindVTable(b: seq<byte>, vtables: seq<nat>, vt: seq<byte>): Option<nat> {
    if vtables == [] then None
    else if At(b, vtables[0], vt) then Some(vtables[0])
    else FindVTable(b, vtables[1..], vt)
  }

  /** Overwrites the vtable offset reserved at the front of a table. */
  function WithSoffset(table: seq<byte>, vtUse: int): (r: seq<byte>)
    requires |table| >= 4
    ensures |r| == |table| && r[4..] == table[4..]
  {
    LE(Unsigned(vtUse - |table|, 4), 4) + table[4..]
  }

  /**
   * Attaches `vt` to the table at the front of the buffer. An equal vtable already stored is used
   * instead and the new bytes are dropped; otherwise the new one is remembered.
   */
  function AttachVTable(t: State, vt: seq<byte>): State
    requires |t.buf| >= 4
  {
    var full := vt + t.buf;
    var found := if t.dedup then FindVTable(full, t.vtables, vt) else None;
    var vtUse := if found.Some? then found.value else |full|;
    var popped := if found.Some? then t.buf else full;
    var vtables := if vtUse == |popped| then t.vtables + [vtUse] else t.vtables;
    var table := WithSoffset(t.buf, vtUse);
    t.(buf := if found.Some? then table else vt + table,
       vtables := vtables, fields := [], maxVoffset := 0, nested := false)
  }

  /** Ends the table started when the buffer had `start` bytes; its offset is the size before any vtable. */
  function EndTable(s: State, start: nat): (r: (State, nat))
    requires FieldsFit(s.fields, s.maxVoffset, |s.buf|) && start <= |s.buf|
    requires s.maxVoffset + 2 < TWO_16
  {
    var t := PushElement(s, 0, 4);
    (AttachVTable(t, BuildVTable(s.fields, s.maxVoffset, |t.buf|, start)), |t.buf|)
  }

  // ------------------------------------------------------ strings, vectors

  function CreateString(s: State, str: seq<byte>): (r: (State, nat))
  {
    var a := PushBytes(PreAlign(s, |str| + 1, 4), Zeros(1));
    var r := PushElement(PushBytes(a, str), |str| % TWO_32, 4);
    (r, |r.buf|)
  }

  /** The pool entry whose contents are `str`. */
  function FindString(b: seq<byte>, pool: seq<nat>, str: seq<byte>): Option<nat> {
    if pool == [] then None
    else if At(b, pool[0], LE(|str| % TWO_32, 4) + str) then Some(pool[0])
    else FindString(b, pool[1..], str)
  }

  function CreateSharedString(s: State, str: seq<byte>): (r: (State, nat))
  {
    var (created, off) := CreateString(s, str);
    var found := FindString(created.buf, s.pool, str);
    if found.Some? then (created.(buf := s.buf), found.value)
    else (created.(pool := s.pool + [off]), off)
  }

  predicate OffsetsOk(offs: seq<nat>, size: nat) {
    forall i :: 0 <= i < |offs| ==> 0 < offs[i] <= size
  }

  /** Elements are pushed last to first, so that they end up in order. */
  function PushOffsets(s: State, offs: seq<nat>): (r: State)
    requires OffsetsOk(offs, |s.buf|)
    decreases |offs|
  {
    if offs == [] then s
    else PushOffsets(PushOffset(s, offs[|offs| - 1]), offs[..|offs| - 1])
  }

  function CreateVector(s: State, offs: seq<nat>): (r: (State, nat))
    requires OffsetsOk(offs, |s.buf|)
  {
    var started := PreAlign(PreAlign(s.(nested := true), |offs| * 4, 4), |offs| * 4, 4);
    var filled := PushOffsets(started, offs);
    var r := PushElement(filled, |offs| % TWO_32, 4).(nested := false);
    (r, |r.buf|)
  }

  // ----------------------------------------------------------------- finish

  /** `identifier` is the optional file identifier, four bytes; `sized` asks for a size prefix. */
  function Finish(s: State, root: nat, identifier: Option<seq<byte>>, sized: bool): State
    requires 0 < root <= |s.buf| && IsAlign(s.minalign)
    requires identifier.Some? ==> |identifier.value| == 4
  {
    var prefix := if sized then 4 else 0;
    var id := if identifier.Some? then identifier.value else [];
    var a := TrackMinAlign(s.(vtables := []), prefix);
    var b := PushBytes(PreAlign(a, prefix + 4 + |id|, a.minalign), id);
    var c := PushOffset(b, root);
    var d := if sized then PushElement(c, |c.buf| % TWO_32, 4) else c;
    d.(finished := true)
  }
}
