/** Whole runs of a builder: any sequence of strings, shared strings, tables and vectors. */
module Runs {
  import opened Wrappers
  import opened Bytes
  import opened FlatReader
  import opened BuilderModel
  import opened TableLemmas
  import opened Tables
  import opened Fields
  import opened Objects

  datatype Command =
    | MakeString(str: seq<byte>)
    | MakeShared(str: seq<byte>)
    | MakeTable(adds: seq<Add>)
    | MakeVector(offs: seq<nat>)

  predicate Ready(s: State) {
    WellFormed(s) && NotNested(s)
  }

  /** The library's own assertions: earlier objects only, each field once, small tables, a small buffer. */
  predicate CanRun(s: State, c: Command)
    requires Ready(s)
  {
    && (match c
        case MakeString(_) => true
        case MakeShared(str) => |CreateString(s, str).0.buf| < TWO_31
        case MakeTable(adds) =>
          AddsOk(adds, |s.buf|) && DistinctIds(adds) && CreateTable(s, adds).1 - |s.buf| < TWO_16
        case MakeVector(offs) => OffsetsOk(offs, |s.buf|))
    && |Apply(s, c).0.buf| < TWO_31
  }

  function Apply(s: State, c: Command): (State, nat)
    requires Ready(s)
  {
    match c
    case MakeString(str) => CreateString(s, str)
    case MakeShared(str) => CreateSharedString(s, str)
    case MakeTable(adds) => if AddsOk(adds, |s.buf|) then CreateTable(s, adds) else (s, 0)
    case MakeVector(offs) => if OffsetsOk(offs, |s.buf|) then CreateVector(s, offs) else (s, 0)
  }

  /** What a reader finds at the offset that a command returned; `m` is the largest alignment used. */
  ghost predicate ReadsBack(b: seq<byte>, o: nat, c: Command, m: nat) {
    match c
    case MakeString(str) => StringHolds(b, o, str, m)
    case MakeShared(str) => StringHolds(b, o, str, m)
    case MakeTable(adds) => TableHolds(b, o, adds, m)
    case MakeVector(offs) => VectorHolds(b, o, offs, m)
  }

  /** The same in an unfinished builder, which also remembers shared strings and vtables. */
  ghost predicate Describes(s: State, o: nat, c: Command) {
    && o <= |s.buf| && ReadsBack(s.buf, o, c, s.minalign)
    && (c.MakeShared? ==> InPool(s, o, c.str))
    && (c.MakeTable? ==> UsesVTable(s, o))
  }

  /** The table's vtable is one of the remembered ones. */
  predicate UsesVTable(s: State, o: nat) {
    o <= |s.buf| &&
    var g := GetVTable(s.buf, |s.buf| - o);
    g.Some? && g.value <= |s.buf| && (|s.buf| - g.value) in s.vtables
  }

  // ---------------------------------------------------------------- one step

  /** The part of the state that objects already made depend on only grows. */
  predicate Extends(s: State, s': State) {
    && Grows(s.buf, s'.buf) && s.minalign <= s'.minalign
    && s.vtables <= s'.vtables && s.pool <= s'.pool && s'.dedup == s.dedup
  }

  lemma LinkedUses(s: State, t: nat, v: nat, vt: seq<byte>)
    requires Linked(s.buf, t, v, vt) && |s.buf| < TWO_31 && v in s.vtables
    ensures UsesVTable(s, t)
  {
    hide GetVTable;
    LinkedReads(s.buf, t, v, vt, 0);
  }

  lemma TableStep(s: State, adds: seq<Add>)
    requires Ready(s) && CanRun(s, MakeTable(adds))
    ensures var (s', o) := Apply(s, MakeTable(adds));
      Ready(s') && Extends(s, s') && Describes(s', o, MakeTable(adds))
  {
    hide TableHolds, CreateTable, Grows, Linked, UsesVTable;
    hide VTablesStored, VTablesDistinct, PoolStored, PoolDistinct, FieldsFit;
    var s', t, v, vt := CreateTableHolds(s, adds);
    LinkedUses(s', t, v, vt);
  }

  lemma StringStep(s: State, str: seq<byte>)
    requires Ready(s) && CanRun(s, MakeString(str))
    ensures var (s', o) := Apply(s, MakeString(str));
      Ready(s') && Extends(s, s') && Describes(s', o, MakeString(str))
  {
    hide StringHolds, CreateString, Grows;
    hide VTablesStored, VTablesDistinct, PoolStored, PoolDistinct, FieldsFit;
    var s', o := CreateStringHolds(s, str);
  }

  lemma SharedStep(s: State, str: seq<byte>)
    requires Ready(s) && CanRun(s, MakeShared(str))
    ensures var (s', o) := Apply(s, MakeShared(str));
      Ready(s') && Extends(s, s') && Describes(s', o, MakeShared(str))
  {
    hide CreateString, CreateSharedString, Grows;
    hide VTablesStored, VTablesDistinct, PoolStored, PoolDistinct, FieldsFit;
    var s', o := CreateSharedStringHolds(s, str);
  }

  lemma VectorStep(s: State, offs: seq<nat>)
    requires Ready(s) && CanRun(s, MakeVector(offs))
    ensures var (s', o) := Apply(s, MakeVector(offs));
      Ready(s') && Extends(s, s') && Describes(s', o, MakeVector(offs))
  {
    hide VectorHolds, CreateVector, Grows;
    hide VTablesStored, VTablesDistinct, PoolStored, PoolDistinct, FieldsFit;
    var s', o := CreateVectorHolds(s, offs);
  }

  lemma Step(s: State, c: Command)
    requires Ready(s) && CanRun(s, c)
    ensures var (s', o) := Apply(s, c);
      Ready(s') && Extends(s, s') && Describes(s', o, c)
  {
    hide *;
    match c
    case MakeString(str) => StringStep(s, str);
    case MakeShared(str) => SharedStep(s, str);
    case MakeTable(adds) => TableStep(s, adds);
    case MakeVector(offs) => VectorStep(s, offs);
  }

  // ------------------------------------------------------- objects are stable

  lemma TableShapeStays(b: seq<byte>, b': seq<byte>, t: nat, m: nat, m': nat)
    requires Grows(b, b') && m <= m' && TableShape(b, t, m)
    ensures TableShape(b', t, m')
    ensures GetVTable(b', |b'| - t) == Some(|b'| - |b| + GetVTable(b, |b| - t).value)
  {
    hide VTableAt, Aligned;
    var q := GrowsSplit(b, b');
    ReadUShift(q, b, |b| - t, 4);
    VTableAtGrows(b, b', |b| - GetVTable(b, |b| - t).value);
  }

  lemma FieldStays(b: seq<byte>, b': seq<byte>, t: nat, a: Add, m: nat, m': nat)
    requires Grows(b, b') && m <= m' && t <= |b| && FieldHolds(b, t, a, m)
    ensures FieldHolds(b', t, a, m')
  {
    hide GetOptionalFieldOffset, GetField, GetPointer, Aligned;
    var q := GrowsSplit(b, b');
    FieldOffsetShift(q, b, |b| - t, a.id);
    if a.Scalar? {
      FieldShift(q, b, |b| - t, a.id, a.w, a.def);
    } else {
      PointerShift(q, b, |b| - t, a.id);
    }
  }

  lemma TableStays(b: seq<byte>, b': seq<byte>, t: nat, adds: seq<Add>, m: nat, m': nat)
    requires Grows(b, b') && m <= m' && TableHolds(b, t, adds, m)
    ensures TableHolds(b', t, adds, m')
  {
    hide GetOptionalFieldOffset, FieldHolds, GetVTable;
    TableShapeStays(b, b', t, m, m');
    forall i | 0 <= i < |adds|
      ensures FieldHolds(b', t, adds[i], m')
    {
      FieldStays(b, b', t, adds[i], m, m');
    }
    var q := GrowsSplit(b, b');
    forall id: nat | FieldId(id) && Unused(adds, id)
      ensures GetOptionalFieldOffset(b', |b'| - t, id) == Some(0)
    {
      FieldOffsetShift(q, b, |b| - t, id);
    }
  }

  lemma SparseStays(b: seq<byte>, b': seq<byte>, t: nat, adds: seq<Add>, force: bool)
    requires Grows(b, b') && t <= |b| && Sparse(b, t, adds, force)
    ensures Sparse(b', t, adds, force)
  {
    hide GetOptionalFieldOffset, Omitted;
    var q := GrowsSplit(b, b');
    forall i | 0 <= i < |adds|
      ensures GetOptionalFieldOffset(b', |b'| - t, adds[i].id) == GetOptionalFieldOffset(b, |b| - t, adds[i].id)
    {
      FieldOffsetShift(q, b, |b| - t, adds[i].id);
    }
  }

  lemma VectorStays(b: seq<byte>, b': seq<byte>, o: nat, offs: seq<nat>, m: nat, m': nat)
    requires Grows(b, b') && m <= m' && VectorHolds(b, o, offs, m)
    ensures VectorHolds(b', o, offs, m')
  {
    hide ReadU, Aligned;
    var q := GrowsSplit(b, b');
    ReadUShift(q, b, |b| - o, 4);
    forall i | 0 <= i < |offs|
      ensures VectorGet(b', |b'| - o, i) == Some(|b'| - offs[i])
    {
      assert VectorGet(b, |b| - o, i) == Some(|b| - offs[i]);
      VectorGetShift(q, b, |b| - o, i);
    }
  }

  lemma UsesStays(s: State, s': State, o: nat)
    requires Extends(s, s') && UsesVTable(s, o)
    ensures UsesVTable(s', o)
  {
    var q := GrowsSplit(s.buf, s'.buf);
    ReadUShift(q, s.buf, |s.buf| - o, 4);
  }

  /** An object made earlier reads the same whatever is put in front of it. */
  lemma ReadsBackStays(b: seq<byte>, b': seq<byte>, o: nat, c: Command, m: nat, m': nat)
    requires Grows(b, b') && m <= m' && ReadsBack(b, o, c, m)
    ensures ReadsBack(b', o, c, m')
  {
    hide TableHolds, VectorHolds, StringHolds;
    match c
    case MakeString(str) => StringHoldsGrows(b, b', o, str, m, m');
    case MakeShared(str) => StringHoldsGrows(b, b', o, str, m, m');
    case MakeTable(adds) => TableStays(b, b', o, adds, m, m');
    case MakeVector(offs) => VectorStays(b, b', o, offs, m, m');
  }

  /** And while the builder is unfinished, it stays in its pool or keeps its remembered vtable. */
  lemma DescribesStays(s: State, s': State, o: nat, c: Command)
    requires Extends(s, s') && Describes(s, o, c)
    ensures Describes(s', o, c)
  {
    hide ReadsBack, UsesVTable, StringAt;
    ReadsBackStays(s.buf, s'.buf, o, c, s.minalign, s'.minalign);
    if c.MakeShared? {
      StringAtGrows(s.buf, s'.buf, o);
    }
    if c.MakeTable? {
      UsesStays(s, s', o);
    }
  }

  // -------------------------------------------------------------------- runs

  /** Every command of the run meets the library's assertions when its turn comes. */
  predicate CanRunAll(cmds: seq<Command>)
    decreases |cmds|, 0
  {
    cmds == [] ||
    (CanRunAll(cmds[..|cmds| - 1]) && CanRun(Run(cmds[..|cmds| - 1]).0, cmds[|cmds| - 1]))
  }

  /** The state after the run from a new builder, and the offset each command returned. */
  function Run(cmds: seq<Command>): (r: (State, seq<nat>))
    requires CanRunAll(cmds)
    ensures |r.1| == |cmds| && Ready(r.0)
    decreases |cmds|, 1
  {
    if cmds == [] then (Initial, [])
    else
      var (s, offs) := Run(cmds[..|cmds| - 1]);
      Step(s, cmds[|cmds| - 1]);
      var (s', o) := Apply(s, cmds[|cmds| - 1]);
      (s', offs + [o])
  }

  /**
   * After any run, every object the run made still reads back what it was made from, through the
   * vtables remembered, which are pairwise distinct, as are the shared strings.
   */
  lemma {:induction false} RunHolds(cmds: seq<Command>)
    requires CanRunAll(cmds)
    ensures var (s, offs) := Run(cmds);
      && s.dedup && VTablesDistinct(s.buf, s.vtables) && PoolDistinct(s.buf, s.pool)
      && forall i :: 0 <= i < |cmds| ==> Describes(s, offs[i], cmds[i])
  {
    hide Describes, Apply, CanRun, VTablesDistinct, PoolDistinct, Grows;
    if cmds != [] {
      var last := |cmds| - 1;
      RunHolds(cmds[..last]);
      var (s, offs) := Run(cmds[..last]);
      Step(s, cmds[last]);
      var (s', o) := Apply(s, cmds[last]);
      forall i | 0 <= i < last
        ensures Describes(s', offs[i], cmds[i])
      {
        assert cmds[..last][i] == cmds[i];
        DescribesStays(s, s', offs[i], cmds[i]);
      }
    }
  }
}
