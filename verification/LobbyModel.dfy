/**
 * The packets of Common/src/lobby/LobbyProtocol.cpp as values: what NoticeInventory and
 * ResponseItemBreak build, what reading it gives back, and that the verifier accepts it.
 */
module LobbyModel {
  import opened Wrappers
  import opened Bytes
  import opened FlatReader
  import opened BuilderModel
  import opened TableLemmas
  import opened Tables
  import opened Fields
  import opened Objects
  import opened Runs
  import opened Keeps
  import opened FinishLemmas
  import opened Completeness
  import V = FlatVerifier
  import opened Messages

  /** InventorySlotData: any bytes, a 64-bit seed and a 32-bit count. */
  datatype Item = Item(guid: seq<byte>, seed: int, count: int)

  predicate InRange(i: int, w: nat) {
    -(Pow256(w) as int) <= 2 * i < Pow256(w)
  }

  predicate ItemOk(item: Item) {
    InRange(item.seed, 8) && InRange(item.count, 4)
  }

  predicate ItemsOk(items: seq<Item>) {
    forall i :: 0 <= i < |items| ==> ItemOk(items[i])
  }

  /** The add_* calls of CreateINVENTORY_SLOT, in its order. */
  function SlotAdds(item: Item, guid: nat): (adds: seq<Add>)
    ensures DistinctIds(adds)
  {
    [Scalar(VT_ITEM_SEED, 8, Unsigned(item.seed, 8), 0),
     Scalar(VT_COUNT, 4, Unsigned(item.count, 4), 0),
     Ref(VT_GUID, guid)]
  }

  function NoticeAdds(count: nat, slots: nat): (adds: seq<Add>)
    ensures DistinctIds(adds)
  {
    [Scalar(VT_INVENTORY_TOTAL_COUNT, 4, Unsigned(count, 4), 0),
     Ref(VT_INVENTORY_SLOTS, slots)]
  }

  lemma SlotAddsOk(item: Item, guid: nat, size: nat)
    requires guid <= size
    ensures AddsOk(SlotAdds(item, guid), size)
  {
    Pow256Values();
  }

  lemma NoticeAddsOk(count: nat, slots: nat, size: nat)
    requires slots <= size
    ensures AddsOk(NoticeAdds(count, slots), size)
  {
    Pow256Values();
  }

  /** One turn of the loop: the guid, then the slot table that refers to it. */
  function BuildSlot(s: State, item: Item): (r: (State, nat))
    requires Ready(s)
    ensures Kept(s, r.0) && Ready(r.0) && |s.buf| < r.1 <= |r.0.buf|
  {
    CreateStringKeeps(s, item.guid);
    var (s1, guid) := CreateString(s, item.guid);
    SlotAddsOk(item, guid, |s1.buf|);
    CreateTableKeeps(s1, SlotAdds(item, guid));
    KeptTrans(s, s1, CreateTable(s1, SlotAdds(item, guid)).0);
    CreateTable(s1, SlotAdds(item, guid))
  }

  lemma SlotsExtend(s: State, s1: State, offs: seq<nat>, s2: State, o: nat)
    requires Kept(s, s1) && OffsetsOk(offs, |s1.buf|) && Kept(s1, s2) && |s1.buf| < o <= |s2.buf|
    ensures Kept(s, s2) && OffsetsOk(offs + [o], |s2.buf|)
  {
    hide WellFormed, Grows;
    KeptTrans(s, s1, s2);
  }

  /** The state and slot offsets after the loop over `items`. */
  function BuildSlots(s: State, items: seq<Item>): (r: (State, seq<nat>))
    requires Ready(s)
    ensures Kept(s, r.0) && Ready(r.0) && |r.1| == |items| && OffsetsOk(r.1, |r.0.buf|)
  {
    if items == [] then
      GrowsSame(s.buf);
      (s, [])
    else
      hide BuildSlot, Kept, OffsetsOk;
      var last := |items| - 1;
      var (s1, offs) := BuildSlots(s, items[..last]);
      var (s2, o) := BuildSlot(s1, items[last]);
      SlotsExtend(s, s1, offs, s2, o);
      (s2, offs + [o])
  }

  /** Everything NoticeInventory builds before Finish, and the root. */
  function NoticeRoot(items: seq<Item>): (r: (State, nat))
    ensures Ready(r.0) && 0 < r.1 <= |r.0.buf| && !r.0.finished
  {
    var (s, offs) := BuildSlots(Initial, items);
    CreateVectorKeeps(s, offs);
    var (s1, vec) := CreateVector(s, offs);
    NoticeAddsOk(|items|, vec, |s1.buf|);
    CreateTableKeeps(s1, NoticeAdds(|items|, vec));
    CreateTable(s1, NoticeAdds(|items|, vec))
  }

  /** The packet body of NoticeInventory. */
  function NoticeInventory(items: seq<Item>): seq<byte> {
    var (s, root) := NoticeRoot(items);
    Finish(s, root, None, false).buf
  }

  /** What the accessors should return for one item. */
  function SlotOf(item: Item): Slot {
    Slot(Some(item.guid), item.seed, item.count)
  }

  function SlotsOf(items: seq<Item>): (r: seq<Slot>)
    ensures |r| == |items|
  {
    seq(|items|, i requires 0 <= i < |items| => SlotOf(items[i]))
  }

  // --------------------------------------------------------------- one slot

  /** A slot table at offset `t` that refers to its guid, both aligned. */
  ghost predicate SlotHolds(b: seq<byte>, t: nat, item: Item, m: nat) {
    exists g: nat :: HeldWith(b, t, item, m, g)
  }

  ghost predicate HeldWith(b: seq<byte>, t: nat, item: Item, m: nat, g: nat) {
    && StringHolds(b, g, item.guid, m) && 0 < g && TableHolds(b, t, SlotAdds(item, g), m)
    && Sparse(b, t, SlotAdds(item, g), false)
  }

  lemma SlotStays(b: seq<byte>, b': seq<byte>, t: nat, item: Item, m: nat, m': nat)
    requires SlotHolds(b, t, item, m) && Grows(b, b') && m <= m'
    ensures SlotHolds(b', t, item, m')
  {
    hide StringHolds, TableHolds, Grows;
    var g: nat :| HeldWith(b, t, item, m, g);
    StringHoldsGrows(b, b', g, item.guid, m, m');
    TableStays(b, b', t, SlotAdds(item, g), m, m');
    TableHasShape(b, t, SlotAdds(item, g), m);
    SparseStays(b, b', t, SlotAdds(item, g), false);
    hide Sparse;
    assert HeldWith(b', t, item, m', g);
  }

  lemma BuildSlotHolds(s: State, item: Item)
    requires Ready(s) && !s.forceDefaults && |BuildSlot(s, item).0.buf| < TWO_31
    ensures var (s', t) := BuildSlot(s, item); SlotHolds(s'.buf, t, item, s'.minalign)
  {
    hide StringHolds, TableHolds, CreateString, CreateTable, Grows, Linked;
    hide VTablesStored, VTablesDistinct, PoolStored, PoolDistinct, FieldsFit;
    CreateStringKeeps(s, item.guid);
    var s1, g := CreateString(s, item.guid).0, CreateString(s, item.guid).1;
    SlotAddsOk(item, g, |s1.buf|);
    CreateTableKeeps(s1, SlotAdds(item, g));
    var c, o := CreateStringHolds(s, item.guid);
    TableIsSmall(s1, SlotAdds(item, g));
    var s', t, v, vt := CreateTableHolds(s1, SlotAdds(item, g));
    StringHoldsGrows(s1.buf, s'.buf, g, item.guid, s1.minalign, s'.minalign);
    hide Sparse;
    assert HeldWith(s'.buf, t, item, s'.minalign, g);
  }

  lemma SlotReads(b: seq<byte>, t: nat, item: Item, m: nat)
    requires SlotHolds(b, t, item, m) && ItemOk(item)
    ensures ReadSlot(b, |b| - t) == Some(SlotOf(item))
  {
    hide GetField, GetPointer, StringHolds, TableShape, NoOtherFields, StringBytes, FieldInside;
    var g: nat :| HeldWith(b, t, item, m, g);
    var adds := SlotAdds(item, g);
    assert FieldHolds(b, t, adds[0], m) && FieldHolds(b, t, adds[1], m) && FieldHolds(b, t, adds[2], m);
    StringHoldsReads(b, g, item.guid, m);
    SignedOfUnsigned(item.seed, 8);
    SignedOfUnsigned(item.count, 4);
  }

  /** The position of the vtable leaves room for the root offset in front. */
  predicate VTableClear(b: seq<byte>, t: nat) {
    var g := GetVTable(b, |b| - t);
    g.Some? && g.value >= 4
  }

  lemma SlotVerifies(o: V.Options, b: seq<byte>, c: V.Counters, t: nat, item: Item, m: nat)
    requires Whole(o, b, m) && SlotHolds(b, t, item, m) && VTableClear(b, t)
    requires c.depth < o.maxDepth && c.tables < o.maxTables
    ensures t <= |b| && VerifySlot(o, b, c, |b| - t) == (true, V.Counters(c.depth, c.tables + 1))
  {
    hide Whole, StringHolds, GetVTable, NoOtherFields, StringAt;
    var g: nat :| HeldWith(b, t, item, m, g);
    var adds := SlotAdds(item, g);
    TableStartComplete(o, b, c, t, m);
    StringHoldsReads(b, g, item.guid, m);
    SlotFields(o, b, t, item, g, m);
  }

  /** The member checks of INVENTORY_SLOT::Verify. */
  predicate MembersVerify(o: V.Options, b: seq<byte>, p: nat) {
    && p < |b| < TWO_63
    && GetOptionalFieldOffset(b, p, VT_GUID).Some? && GetOptionalFieldOffset(b, p, VT_ITEM_SEED).Some?
    && GetOptionalFieldOffset(b, p, VT_COUNT).Some?
    && VerifyStringField(o, b, p, VT_GUID)
    && V.VerifyField(o, b, p, VT_ITEM_SEED, 8) && V.VerifyField(o, b, p, VT_COUNT, 4)
  }

  lemma SlotFields(o: V.Options, b: seq<byte>, t: nat, item: Item, g: nat, m: nat)
    requires Whole(o, b, m) && TableHolds(b, t, SlotAdds(item, g), m) && StringHolds(b, g, item.guid, m)
    requires t <= |b|
    ensures MembersVerify(o, b, |b| - t)
  {
    hide FieldHolds, StringHolds, NoOtherFields, GetOptionalFieldOffset, V.VerifyField, VerifyStringField;
    assert 0 < t && |b| < TWO_63;
    var adds := SlotAdds(item, g);
    assert FieldHolds(b, t, adds[0], m) && FieldHolds(b, t, adds[1], m) && FieldHolds(b, t, adds[2], m);
    ScalarFieldComplete(o, b, t, adds[0], m);
    ScalarFieldComplete(o, b, t, adds[1], m);
    StringFieldComplete(o, b, t, adds[2], item.guid, m);
    FieldFound(b, t, adds[0], m);
    FieldFound(b, t, adds[1], m);
    FieldFound(b, t, adds[2], m);
  }

  lemma FieldFound(b: seq<byte>, t: nat, a: Add, m: nat)
    requires t <= |b| && FieldHolds(b, t, a, m)
    ensures GetOptionalFieldOffset(b, |b| - t, a.id).Some?
  {
    hide GetOptionalFieldOffset;
  }

  lemma ScalarFieldComplete(o: V.Options, b: seq<byte>, t: nat, a: Add, m: nat)
    requires Whole(o, b, m) && t <= |b| && a.Scalar? && IsScalarWidth(a.w) && FieldHolds(b, t, a, m)
    ensures V.VerifyField(o, b, |b| - t, a.id, a.w)
  {
    hide GetOptionalFieldOffset, Whole, GetField;
    FieldComplete(o, b, t, a.id, a.w, m);
  }

  lemma StringFieldComplete(o: V.Options, b: seq<byte>, t: nat, a: Add, str: seq<byte>, m: nat)
    requires Whole(o, b, m) && 0 < t <= |b| && a.Ref? && FieldHolds(b, t, a, m)
    requires StringHolds(b, a.off, str, m)
    ensures VerifyStringField(o, b, |b| - t, a.id)
  {
    hide GetOptionalFieldOffset, StringHolds, StringAt, Aligned;
    OffsetComplete(o, b, t, a, m);
    StringHoldsReads(b, a.off, str, m);
    StringComplete(o, b, a.off, str, m);
  }

  // -------------------------------------------------------------- all slots

  ghost predicate SlotsHold(b: seq<byte>, offs: seq<nat>, items: seq<Item>, m: nat) {
    |offs| == |items| && forall i :: 0 <= i < |offs| ==> SlotHolds(b, offs[i], items[i], m)
  }

  lemma SlotsStay(b: seq<byte>, b': seq<byte>, offs: seq<nat>, items: seq<Item>, m: nat, m': nat)
    requires SlotsHold(b, offs, items, m) && Grows(b, b') && m <= m'
    ensures SlotsHold(b', offs, items, m')
  {
    hide SlotHolds;
    forall i | 0 <= i < |offs|
      ensures SlotHolds(b', offs[i], items[i], m')
    {
      SlotStays(b, b', offs[i], items[i], m, m');
    }
  }

  lemma {:induction false} BuildSlotsHold(s: State, items: seq<Item>)
    requires Ready(s) && !s.forceDefaults && |BuildSlots(s, items).0.buf| < TWO_31
    ensures var (s', offs) := BuildSlots(s, items); SlotsHold(s'.buf, offs, items, s'.minalign)
  {
    hide SlotHolds, BuildSlot, Grows, WellFormed;
    if items != [] {
      var last := |items| - 1;
      var init := items[..last];
      var s1, offs := BuildSlots(s, init).0, BuildSlots(s, init).1;
      var s2, t := BuildSlot(s1, items[last]).0, BuildSlot(s1, items[last]).1;
      BuildSlotsHold(s, init);
      BuildSlotHolds(s1, items[last]);
      SlotsStay(s1.buf, s2.buf, offs, init, s1.minalign, s2.minalign);
      forall i | 0 <= i < last
        ensures SlotHolds(s2.buf, offs[i], items[i], s2.minalign)
      {
        assert init[i] == items[i];
      }
    }
  }

  lemma {:induction false} SlotsRead(b: seq<byte>, v: nat, offs: seq<nat>, items: seq<Item>, m: nat, i: nat)
    requires VectorHolds(b, v, offs, m) && SlotsHold(b, offs, items, m) && ItemsOk(items) && i <= |items|
    ensures ReadSlots(b, |b| - v, i, |items|) == Some(SlotsOf(items)[i..])
    decreases |items| - i
  {
    hide SlotHolds, ReadSlot, ReadU;
    if i == |items| {
      assert SlotsOf(items)[i..] == [];
    } else {
      assert 0 < offs[i] && VectorGet(b, |b| - v, i) == Some(|b| - offs[i]);
      SlotReads(b, offs[i], items[i], m);
      SlotsRead(b, v, offs, items, m, i + 1);
      assert SlotsOf(items)[i..] == [SlotOf(items[i])] + SlotsOf(items)[i + 1..];
    }
  }

  lemma {:induction false} SlotsVerify(
    o: V.Options, b: seq<byte>, c: V.Counters, v: nat, offs: seq<nat>, items: seq<Item>, m: nat, i: nat)
    requires Whole(o, b, m) && VectorHolds(b, v, offs, m) && SlotsHold(b, offs, items, m) && i <= |items|
    requires forall k :: 0 <= k < |offs| ==> VTableClear(b, offs[k])
    requires V.VerifyVectorOrString(o, b, |b| - v, 4).Some?
    requires c.depth < o.maxDepth && c.tables + (|items| - i) <= o.maxTables
    ensures VerifySlots(o, b, c, |b| - v, i) == (true, V.Counters(c.depth, c.tables + (|items| - i)))
    decreases |items| - i
  {
    hide SlotHolds, VerifySlot, ReadU, V.VerifyVectorOrString, VTableClear, Whole;
    if i < |items| {
      assert 0 < offs[i] && VectorGet(b, |b| - v, i) == Some(|b| - offs[i]);
      SlotVerifies(o, b, c, offs[i], items[i], m);
      SlotsVerify(o, b, V.Counters(c.depth, c.tables + 1), v, offs, items, m, i + 1);
    }
  }

  // ---------------------------------------------------------- the whole packet

  /** Where everything is in a finished NoticeInventory packet. */
  ghost predicate Packet(b: seq<byte>, items: seq<Item>, offs: seq<nat>, vec: nat, t: nat, m: nat) {
    && IsAlign(m) && 4 <= m && Aligned(|b|, m) && V.MIN_BUFFER_SIZE <= |b|
    && 0 < vec && SlotsHold(b, offs, items, m) && VectorHolds(b, vec, offs, m)
    && TableHolds(b, t, NoticeAdds(|items|, vec), m) && Sparse(b, t, NoticeAdds(|items|, vec), false)
    && VTableClear(b, t) && (forall i :: 0 <= i < |offs| ==> VTableClear(b, offs[i]))
    && ReadU(b, 0, 4) == Some(|b| - t)
  }

  /** The same before Finish. */
  ghost predicate Unfinished(s: State, items: seq<Item>, offs: seq<nat>, vec: nat, t: nat) {
    && SlotsHold(s.buf, offs, items, s.minalign) && VectorHolds(s.buf, vec, offs, s.minalign)
    && TableHolds(s.buf, t, NoticeAdds(|items|, vec), s.minalign) && 4 <= vec && vec + 4 <= t
    && Sparse(s.buf, t, NoticeAdds(|items|, vec), false)
  }

  /** After CreateVector: the slots and the vector of them are readable. */
  lemma SlotsAndVector(items: seq<Item>) returns (s: State, offs: seq<nat>, vec: nat)
    requires Ready(Initial)
    requires OffsetsOk(BuildSlots(Initial, items).1, |BuildSlots(Initial, items).0.buf|)
    requires |CreateVector(BuildSlots(Initial, items).0, BuildSlots(Initial, items).1).0.buf| < TWO_31
    ensures offs == BuildSlots(Initial, items).1
    ensures (s, vec) == CreateVector(BuildSlots(Initial, items).0, offs)
    ensures Ready(s) && 0 < vec <= |s.buf| && 4 + 4 * |offs| <= vec && 4 <= s.minalign && !s.forceDefaults
    ensures SlotsHold(s.buf, offs, items, s.minalign) && VectorHolds(s.buf, vec, offs, s.minalign)
  {
    hide BuildSlots, CreateVector, SlotsHold, VectorHolds, Grows;
    hide VTablesStored, VTablesDistinct, PoolStored, PoolDistinct, FieldsFit;
    var s0;
    s0, offs := BuildSlots(Initial, items).0, BuildSlots(Initial, items).1;
    CreateVectorKeeps(s0, offs);
    BuildSlotsHold(Initial, items);
    s, vec := CreateVectorHolds(s0, offs);
    VectorSizeBound(s.buf, vec, offs, s.minalign);
    SlotsStay(s0.buf, s.buf, offs, items, s0.minalign, s.minalign);
  }

  lemma NoticeUnfinished(items: seq<Item>) returns (s: State, offs: seq<nat>, vec: nat, t: nat)
    requires |NoticeRoot(items).0.buf| < TWO_31
    ensures (s, t) == NoticeRoot(items) && Unfinished(s, items, offs, vec, t)
    ensures IsAlign(s.minalign) && 4 <= s.minalign
  {
    hide BuildSlots, CreateTable, CreateVector, SlotsHold, TableHolds, VectorHolds, Grows, Linked;
    hide VTablesStored, VTablesDistinct, PoolStored, PoolDistinct, FieldsFit;
    hide NoticeRoot, NoticeAdds, AddsOk, Kept;
    NoticeStages(items);
    var s1;
    s1, offs, vec := SlotsAndVector(items);
    var adds := NoticeAdds(|items|, vec);
    assert |adds| == 2 by { NoticeAddsTwo(|items|, vec); }
    TableIsSmall(s1, adds);
    var v, vt;
    s, t, v, vt := CreateTableHolds(s1, adds);
    TableAbove(s1, s, adds, t);
    SlotsStay(s1.buf, s.buf, offs, items, s1.minalign, s.minalign);
    VectorStays(s1.buf, s.buf, vec, offs, s1.minalign, s.minalign);
  }

  lemma InitialReady()
    ensures Ready(Initial)
  {
  }

  lemma NoticeAddsTwo(count: nat, slots: nat)
    ensures |NoticeAdds(count, slots)| == 2
  {
  }

  /** The buffer only grows from stage to stage. */
  lemma NoticeStages(items: seq<Item>)
    ensures Ready(Initial)
    ensures var (s0, offs) := BuildSlots(Initial, items);
      && OffsetsOk(offs, |s0.buf|)
      && var (s1, vec) := CreateVector(s0, offs);
      && |s1.buf| <= |NoticeRoot(items).0.buf|
      && Ready(s1) && AddsOk(NoticeAdds(|items|, vec), |s1.buf|)
      && NoticeRoot(items) == CreateTable(s1, NoticeAdds(|items|, vec))
  {
    InitialReady();
    hide BuildSlots, CreateTable, CreateVector;
    hide VTablesStored, VTablesDistinct, PoolStored, PoolDistinct, FieldsFit;
    var s0, offs := BuildSlots(Initial, items).0, BuildSlots(Initial, items).1;
    CreateVectorKeeps(s0, offs);
    var s1, vec := CreateVector(s0, offs).0, CreateVector(s0, offs).1;
    NoticeAddsOk(|items|, vec, |s1.buf|);
    CreateTableKeeps(s1, NoticeAdds(|items|, vec));
  }

  lemma VectorSizeBound(b: seq<byte>, vec: nat, offs: seq<nat>, m: nat)
    requires VectorHolds(b, vec, offs, m)
    ensures 4 + 4 * |offs| <= vec && 4 <= m
  {
  }

  /** A table starts with its vtable offset, after everything before it. */
  lemma TableAbove(s1: State, s: State, adds: seq<Add>, t: nat)
    requires Ready(s1) && AddsOk(adds, |s1.buf|) && (s, t) == CreateTable(s1, adds)
    ensures |s1.buf| + 4 <= t
  {
    hide AddAll, EndTable, Grows, Linked;
    hide VTablesStored, VTablesDistinct, PoolStored, PoolDistinct, FieldsFit;
    var a := StartTable(s1);
    AddAllKeeps(a, adds);
    var f := AddAll(a, adds);
    GrowsLonger(s1.buf, f.buf);
    var s', t', v, vt := EndTableLinks(f, |s1.buf|);
  }

  lemma TableClear(b: seq<byte>, b': seq<byte>, t: nat, m: nat)
    requires Grows(b, b') && |b| + 4 <= |b'| && TableShape(b, t, m)
    ensures VTableClear(b', t)
  {
    hide Grows, GetVTable, Aligned;
    TableShapeStays(b, b', t, m, m);
    assert VTableAt(b, |b| - GetVTable(b, |b| - t).value).Some?;
  }

  lemma SlotClear(b: seq<byte>, b': seq<byte>, t: nat, item: Item, m: nat)
    requires Grows(b, b') && |b| + 4 <= |b'| && SlotHolds(b, t, item, m)
    ensures VTableClear(b', t)
  {
    hide Grows, TableShape, StringHolds, VTableClear;
    var g: nat :| HeldWith(b, t, item, m, g);
    TableClear(b, b', t, m);
  }

  lemma NoticePacket(items: seq<Item>) returns (offs: seq<nat>, vec: nat, t: nat, m: nat)
    requires |NoticeInventory(items)| < TWO_31
    ensures Packet(NoticeInventory(items), items, offs, vec, t, m)
  {
    hide NoticeRoot, Finish, SlotHolds, TableHolds, VectorHolds, Grows, VTableClear, Aligned;
    var b := NoticeInventory(items);
    var s0, t0 := NoticeRoot(items).0, NoticeRoot(items).1;
    FinishGrows(s0, t0);
    var s;
    s, offs, vec, t := NoticeUnfinished(items);
    FinishHolds(s, t, None, false);
    m := s.minalign;
    SlotsStay(s.buf, b, offs, items, m, m);
    VectorStays(s.buf, b, vec, offs, m, m);
    TableStays(s.buf, b, t, NoticeAdds(|items|, vec), m, m);
    SparseStays(s.buf, b, t, NoticeAdds(|items|, vec), false);
    assert TableShape(s.buf, t, m) by { TableHasShape(s.buf, t, NoticeAdds(|items|, vec), m); }
    TableClear(s.buf, b, t, m);
    forall i | 0 <= i < |offs|
      ensures VTableClear(b, offs[i])
    {
      SlotClear(s.buf, b, offs[i], items[i], m);
    }
  }

  lemma TableHasShape(b: seq<byte>, t: nat, adds: seq<Add>, m: nat)
    requires TableHolds(b, t, adds, m)
    ensures TableShape(b, t, m) && t <= |b|
  {
  }

  lemma FinishGrows(s: State, root: nat)
    requires 0 < root <= |s.buf| && IsAlign(s.minalign)
    ensures |Finish(s, root, None, false).buf| >= |s.buf| + 4
  {
    hide PaddingBytes, Zeros, LE;
  }

  /**
   * For every list of items, the empty one included, reading the finished packet from its root gives
   * back the same guids, seeds and counts in the same order, and the length of the list.
   */
  lemma NoticeRoundTrip(items: seq<Item>)
    requires ItemsOk(items) && |NoticeInventory(items)| < TWO_31
    ensures ReadNoticeBuffer(NoticeInventory(items)) == Some(Notice(Some(SlotsOf(items)), |items|))
  {
    hide NoticeInventory, SlotHolds, VTableClear, Aligned, ReadU, GetField, GetPointer, ReadSlots;
    var b := NoticeInventory(items);
    var offs, vec, t, m := NoticePacket(items);
    var adds := NoticeAdds(|items|, vec);
    assert FieldHolds(b, t, adds[0], m) && FieldHolds(b, t, adds[1], m);
    SlotsRead(b, vec, offs, items, m, 0);
    assert SlotsOf(items)[0..] == SlotsOf(items);
    Pow256Values();
    SignedOfUnsigned(|items|, 4);
  }

  /** A slot's zero fields take no room; its guid is always stored. */
  predicate SlotSparse(b: seq<byte>, p: int, item: Item) {
    var guid, seed, count := GetOptionalFieldOffset(b, p, 4), GetOptionalFieldOffset(b, p, 6),
      GetOptionalFieldOffset(b, p, 8);
    && guid.Some? && guid.value != 0
    && seed.Some? && (seed.value == 0 <==> item.seed == 0)
    && count.Some? && (count.value == 0 <==> item.count == 0)
  }

  lemma ZeroBits(i: int, w: nat)
    requires InRange(i, w) && Pow256(w) >= 1
    ensures Unsigned(i, w) == 0 <==> i == 0
  {
    SignedOfUnsigned(i, w);
  }

  lemma SlotLeavesOut(b: seq<byte>, t: nat, item: Item, m: nat)
    requires SlotHolds(b, t, item, m) && ItemOk(item)
    ensures SlotSparse(b, |b| - t, item)
  {
    hide GetOptionalFieldOffset, StringHolds, TableHolds;
    var g: nat :| HeldWith(b, t, item, m, g);
    var adds := SlotAdds(item, g);
    Pow256Values();
    ZeroBits(item.seed, 8);
    ZeroBits(item.count, 4);
    assert adds[0].id == VT_ITEM_SEED && adds[1].id == VT_COUNT && adds[2].id == VT_GUID;
  }

  /** Nothing is stored for a seed or a count of zero, nor for the length of the empty list. */
  lemma NoticeLeavesOut(items: seq<Item>)
    requires ItemsOk(items) && |NoticeInventory(items)| < TWO_31
    ensures var b := NoticeInventory(items);
      && GetRoot(b).Some?
      && var total := GetOptionalFieldOffset(b, GetRoot(b).value, 6);
      && total.Some? && (total.value == 0 <==> items == [])
      && var vec := GetPointer(b, GetRoot(b).value, 4);
      && vec.Some? && vec.value.Some?
      && forall i :: 0 <= i < |items| ==>
        var p := VectorGet(b, vec.value.value, i); p.Some? && SlotSparse(b, p.value, items[i])
  {
    hide NoticeInventory, SlotHolds, VTableClear, Aligned, GetOptionalFieldOffset, ReadU, SlotSparse;
    var b := NoticeInventory(items);
    var offs, vec, t, m := NoticePacket(items);
    var adds := NoticeAdds(|items|, vec);
    assert FieldHolds(b, t, adds[0], m) && FieldHolds(b, t, adds[1], m);
    assert adds[0].id == VT_INVENTORY_TOTAL_COUNT && adds[0].value == Unsigned(|items|, 4);
    Pow256Values();
    VectorSizeBound(b, vec, offs, m);
    assert |items| < TWO_31;
    SmallMod(|items|, TWO_32);
    var v := |b| - vec;
    assert GetPointer(b, |b| - t, VT_INVENTORY_SLOTS) == Some(Some(v));
    forall i | 0 <= i < |items|
      ensures var p := VectorGet(b, v, i); p.Some? && SlotSparse(b, p.value, items[i])
    {
      assert VectorGet(b, v, i) == Some(|b| - offs[i]);
      SlotLeavesOut(b, offs[i], items[i], m);
    }
  }

  /**
   * The generated verifier, alignment checks included, accepts every such packet within its limits,
   * having visited the root table and one table for each item.
   */
  lemma NoticeVerifies(o: V.Options, items: seq<Item>)
    requires |NoticeInventory(items)| < TWO_31 && |NoticeInventory(items)| <= o.maxSize
    requires 2 <= o.maxDepth && |items| + 1 <= o.maxTables
    ensures VerifyNoticeBuffer(o, NoticeInventory(items)) == (true, V.Counters(0, |items| + 1))
  {
    hide NoticeInventory, SlotHolds, Aligned, V.VerifyScalar, VerifyNotice;
    var b := NoticeInventory(items);
    var offs, vec, t, m := NoticePacket(items);
    RootVerifies(o, b, t, m);
    NoticeTableVerifies(o, b, items, offs, vec, t, m);
  }

  lemma RootVerifies(o: V.Options, b: seq<byte>, t: nat, m: nat)
    requires Whole(o, b, m) && ReadU(b, 0, 4) == Some(|b| - t) && 0 < t < |b|
    ensures RootOffset(o, b) == |b| - t
  {
    hide ReadU;
    SmallMod(|b| - t, TWO_64);
    assert Aligned(0, 4);
  }

  lemma NoticeTableVerifies(
    o: V.Options, b: seq<byte>, items: seq<Item>, offs: seq<nat>, vec: nat, t: nat, m: nat)
    requires Whole(o, b, m) && Packet(b, items, offs, vec, t, m)
    requires 2 <= o.maxDepth && |items| + 1 <= o.maxTables
    ensures t < |b| && VerifyNotice(o, b, V.Counters(0, 0), |b| - t) == (true, V.Counters(0, |items| + 1))
  {
    hide SlotsHold, FieldHolds, NoOtherFields, GetOptionalFieldOffset, GetPointer, VectorHolds, VerifySlots;
    hide V.VerifyVectorOrString, V.VerifyOffsetField, V.VerifyField, V.VerifyTableStart, Aligned;
    var adds := NoticeAdds(|items|, vec);
    assert FieldHolds(b, t, adds[0], m) && FieldHolds(b, t, adds[1], m);
    TableStartComplete(o, b, V.Counters(0, 0), t, m);
    ScalarFieldComplete(o, b, t, adds[0], m);
    OffsetComplete(o, b, t, adds[1], m);
    RefTarget(b, t, adds[1], m);
    VectorComplete(o, b, vec, offs, m);
    SlotsVerify(o, b, V.Counters(1, 1), vec, offs, items, m, 0);
  }

  lemma RefTarget(b: seq<byte>, t: nat, a: Add, m: nat)
    requires a.Ref? && 0 < a.off && t <= |b| && FieldHolds(b, t, a, m)
    ensures GetPointer(b, |b| - t, a.id) == Some(Some(|b| - a.off)) && a.off < |b|
  {
    hide GetPointer, GetOptionalFieldOffset;
  }
}
