/**
 * Whole runs through Finish: whatever is chosen as the root, every object made by the run reads back in
 * the finished buffer and lies at an index divisible by its own alignment.
 */
module FinishedRuns {
  import opened Wrappers
  import opened Bytes
  import opened FlatReader
  import opened BuilderModel
  import opened TableLemmas
  import opened Fields
  import opened Objects
  import opened Runs
  import opened FinishLemmas

  // ----------------------------------------------------- alignment from the front

  lemma FromFront(b: seq<byte>, m: nat, off: nat, k: nat)
    requires IsAlign(m) && Aligned(|b|, m) && IsAlign(k) && k <= m && Aligned(off, k) && off <= |b|
    ensures Aligned(|b| - off, k)
  {
    hide Aligned;
    AlignDivides(|b|, m, k);
    AlignedPlus(|b|, k, off);
  }

  /** A stored field starts at a multiple of its width. */
  predicate FieldInFront(b: seq<byte>, p: nat, a: Add)
    requires a.Width() > 0
  {
    var fo := GetOptionalFieldOffset(b, p, a.id);
    fo.Some? && (fo.value == 0 || Aligned(p + fo.value, a.Width()))
  }

  /**
   * Length words, elements, table starts, vtables and stored fields are at indices, counted from the
   * front of the buffer, that are multiples of their own size.
   */
  predicate InFront(b: seq<byte>, o: nat, c: Command)
    requires o <= |b|
  {
    var p := |b| - o;
    match c
    case MakeString(_) => Aligned(p, 4)
    case MakeShared(_) => Aligned(p, 4)
    case MakeVector(offs) => Aligned(p, 4) && forall i :: 0 <= i < |offs| ==> Aligned(ElementIndex(p, i), 4)
    case MakeTable(adds) =>
      && Aligned(p, 4)
      && GetVTable(b, p).Some? && Aligned(GetVTable(b, p).value, 2)
      && forall i :: 0 <= i < |adds| ==> adds[i].Width() > 0 && FieldInFront(b, p, adds[i])
  }

  function ElementIndex(p: nat, i: nat): nat {
    p + 4 + 4 * i
  }

  lemma FieldAligned(b: seq<byte>, t: nat, a: Add, m: nat)
    requires IsAlign(m) && Aligned(|b|, m) && t <= |b| && FieldHolds(b, t, a, m)
    ensures a.Width() > 0 && FieldInFront(b, |b| - t, a)
  {
    hide Aligned, GetOptionalFieldOffset, GetField, GetPointer;
    var fo := GetOptionalFieldOffset(b, |b| - t, a.id).value;
    if fo != 0 {
      FromFront(b, m, t - fo, a.Width());
      assert |b| - t + fo == |b| - (t - fo);
    }
  }

  lemma VTableAligned(b: seq<byte>, t: nat, m: nat)
    requires IsAlign(m) && Aligned(|b|, m) && TableShape(b, t, m)
    ensures Aligned(|b| - t, 4) && GetVTable(b, |b| - t).Some? && Aligned(GetVTable(b, |b| - t).value, 2)
  {
    hide VTableAt, GetVTable;
    var g := GetVTable(b, |b| - t).value;
    FromFront(b, m, t, 4);
    VTableInside(b, t, m);
    FromFront(b, m, |b| - g, 2);
    assert |b| - (|b| - g) == g;
  }

  lemma VTableInside(b: seq<byte>, t: nat, m: nat)
    requires TableShape(b, t, m)
    ensures 0 <= |b| - GetVTable(b, |b| - t).value <= |b|
  {
    hide GetVTable;
  }

  lemma TableAligned(b: seq<byte>, t: nat, adds: seq<Add>, m: nat)
    requires IsAlign(m) && Aligned(|b|, m) && t <= |b| && TableHolds(b, t, adds, m)
    ensures InFront(b, t, MakeTable(adds))
  {
    hide TableShape, FieldHolds, NoOtherFields, Aligned, FieldInFront, GetVTable;
    VTableAligned(b, t, m);
    forall i | 0 <= i < |adds|
      ensures adds[i].Width() > 0 && FieldInFront(b, |b| - t, adds[i])
    {
      FieldAligned(b, t, adds[i], m);
    }
  }

  lemma VectorAligned(b: seq<byte>, o: nat, offs: seq<nat>, m: nat)
    requires IsAlign(m) && Aligned(|b|, m) && o <= |b| && VectorHolds(b, o, offs, m)
    ensures InFront(b, o, MakeVector(offs))
  {
    hide Aligned, VectorGet, VectorSize;
    var p := |b| - o;
    FromFront(b, m, o, 4);
    AlignedSelf(4);
    forall i | 0 <= i < |offs|
      ensures Aligned(ElementIndex(p, i), 4)
    {
      Multiple4(i);
      AlignedPlus(p, 4, 4);
      AlignedPlus(p + 4, 4, i * 4);
    }
  }

  /** In a buffer that is a multiple of the largest alignment, whatever reads back is aligned. */
  lemma ReadsBackAligned(b: seq<byte>, o: nat, c: Command, m: nat)
    requires IsAlign(m) && Aligned(|b|, m) && o <= |b| && ReadsBack(b, o, c, m)
    ensures InFront(b, o, c)
  {
    hide Aligned, StringHolds, VectorHolds, TableHolds;
    match c
    case MakeString(str) => StringAligned(b, o, str, m);
    case MakeShared(str) => StringAligned(b, o, str, m);
    case MakeVector(offs) => VectorAligned(b, o, offs, m);
    case MakeTable(adds) => TableAligned(b, o, adds, m);
  }

  lemma StringAligned(b: seq<byte>, o: nat, str: seq<byte>, m: nat)
    requires IsAlign(m) && Aligned(|b|, m) && o <= |b| && StringHolds(b, o, str, m)
    ensures Aligned(|b| - o, 4)
  {
    hide Aligned, At;
    FromFront(b, m, o, 4);
  }

  // -------------------------------------------------------------- finished runs

  lemma RootInside(s: State, o: nat, c: Command)
    requires Ready(s) && Describes(s, o, c)
    ensures 0 < o <= |s.buf| && IsAlign(s.minalign) && 4 <= s.minalign
  {
    hide Aligned, VTableAt, GetVTable, FieldHolds, NoOtherFields, VectorGet;
    if c.MakeString? || c.MakeShared? {
      StringHoldsReads(s.buf, o, c.str, s.minalign);
    }
  }

  /** The buffer of a run finished with the object of the `r`th command as its root. */
  function FinishedBuffer(cmds: seq<Command>, r: nat, identifier: Option<seq<byte>>, sized: bool): seq<byte>
    requires CanRunAll(cmds) && r < |cmds| && (identifier.Some? ==> |identifier.value| == 4)
  {
    var (s, offs) := Run(cmds);
    RunHolds(cmds);
    RootInside(s, offs[r], cmds[r]);
    Finish(s, offs[r], identifier, sized).buf
  }

  /** A reader that starts at the front, behind the size prefix if there is one, arrives at the root. */
  predicate RootLeads(b: seq<byte>, root: nat, sized: bool) {
    && ReadU(b, PrefixSize(sized), 4) == Some(|b| - root - PrefixSize(sized))
    && (sized ==> ReadU(b, 0, 4) == Some(|b| - 4))
    && (!sized ==> GetRoot(b) == Some(|b| - root))
  }

  /**
   * After any run and Finish, with any object made as the root: every object reads back what it was made
   * from, everything is aligned from the front of the buffer, and the root offset leads to the root.
   */
  lemma RunFinished(cmds: seq<Command>, r: nat, identifier: Option<seq<byte>>, sized: bool)
    requires CanRunAll(cmds) && r < |cmds| && (identifier.Some? ==> |identifier.value| == 4)
    requires |FinishedBuffer(cmds, r, identifier, sized)| < TWO_31
    ensures var (s, offs) := Run(cmds); var b := FinishedBuffer(cmds, r, identifier, sized);
      && RootLeads(b, offs[r], sized)
      && forall i :: 0 <= i < |cmds| ==>
           offs[i] <= |b| && ReadsBack(b, offs[i], cmds[i], s.minalign) && InFront(b, offs[i], cmds[i])
  {
    hide CanRunAll, Run, ReadsBack, InFront, Finish, Aligned, WellFormed, Grows, InPool, UsesVTable;
    var (s, offs) := Run(cmds);
    var b := FinishedBuffer(cmds, r, identifier, sized);
    RunHolds(cmds);
    RootInside(s, offs[r], cmds[r]);
    FinishHolds(s, offs[r], identifier, sized);
    GrowsLength(s.buf, b);
    forall i | 0 <= i < |cmds|
      ensures offs[i] <= |b| && ReadsBack(b, offs[i], cmds[i], s.minalign) && InFront(b, offs[i], cmds[i])
    {
      assert Describes(s, offs[i], cmds[i]);
      ReadsBackStays(s.buf, b, offs[i], cmds[i], s.minalign, s.minalign);
      ReadsBackAligned(b, offs[i], cmds[i], s.minalign);
    }
  }
}
