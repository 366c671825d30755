/** How large the lobby packets are, in terms of what they are made from. */
module LobbySizes {
  import opened Wrappers
  import opened Bytes
  import opened BuilderModel
  import opened TableLemmas
  import opened Fields
  import opened Runs
  import opened Keeps
  import opened Messages
  import V = FlatVerifier
  import L = LobbyModel
  import B = ItemBreakModel

  // ------------------------------------------------------------- single objects

  lemma StringSize(s: State, str: seq<byte>)
    ensures var r := CreateString(s, str).0; |r.buf| <= |s.buf| + |str| + 12 && r.maxVoffset == s.maxVoffset
  {
    hide PaddingBytes, Aligned, Zeros, LE;
  }

  predicate IdsBelow(adds: seq<Add>, max: nat) {
    forall i :: 0 <= i < |adds| ==> adds[i].id <= max
  }

  lemma AddOneVoffset(s: State, a: Add)
    requires AddOk(a, |s.buf|)
    ensures AddOne(s, a).maxVoffset <= Max(s.maxVoffset, a.id)
  {
    hide PaddingBytes, Aligned, Zeros, LE;
  }

  lemma {:induction false} AddAllVoffset(s: State, adds: seq<Add>, max: nat)
    requires AddsOk(adds, |s.buf|) && IdsBelow(adds, max) && s.maxVoffset <= max
    ensures AddAll(s, adds).maxVoffset <= max
  {
    hide AddOne;
    if adds != [] {
      var last := |adds| - 1;
      AddAllVoffset(s, adds[..last], max);
      AddOneVoffset(AddAll(s, adds[..last]), adds[last]);
    }
  }

  lemma AttachSize(t: State, vt: seq<byte>)
    requires |t.buf| >= 4
    ensures var r := AttachVTable(t, vt); |r.buf| <= |t.buf| + |vt| && r.maxVoffset == 0
  {
    hide FindVTable, WithSoffset;
  }

  lemma PushSoffset(s: State)
    ensures var t := PushElement(s, 0, 4);
      |s.buf| + 4 <= |t.buf| && t == s.(buf := t.buf, minalign := t.minalign)
  {
    hide PaddingBytes, Aligned, Zeros, LE;
  }

  lemma EndTableSize(s: State, start: nat)
    requires FieldsFit(s.fields, s.maxVoffset, |s.buf|) && start <= |s.buf| && s.maxVoffset + 2 < TWO_16
    ensures var r := EndTable(s, start).0; |r.buf| <= |s.buf| + 12 + s.maxVoffset && r.maxVoffset == 0
  {
    hide PushElement, BuildVTable, AttachVTable;
    PushElementBound(s, 0, 4);
    PushSoffset(s);
    var t := PushElement(s, 0, 4);
    AttachSize(t, BuildVTable(s.fields, s.maxVoffset, |t.buf|, start));
  }

  /** A table of a new run of members takes 16 bytes for each and a vtable. */
  lemma TableSize(s: State, adds: seq<Add>, max: nat)
    requires Ready(s) && AddsOk(adds, |s.buf|) && IdsBelow(adds, max) && s.maxVoffset == 0 && max + 2 < TWO_16
    ensures var r := CreateTable(s, adds).0; |r.buf| <= |s.buf| + 16 * |adds| + 12 + max && r.maxVoffset == 0
  {
    hide AddAll, EndTable, VTablesStored, VTablesDistinct, PoolStored, PoolDistinct;
    var a := StartTable(s);
    AddAllKeeps(a, adds);
    AddAllBound(a, adds);
    AddAllVoffset(a, adds, max);
    EndTableSize(AddAll(a, adds), |s.buf|);
  }

  lemma PushOffsetSize(s: State, off: nat)
    requires 0 < off <= |s.buf|
    ensures var r := PushOffset(s, off); |r.buf| <= |s.buf| + 12 && r.maxVoffset == s.maxVoffset
  {
    hide PaddingBytes, Aligned, Zeros, LE;
  }

  lemma {:induction false} PushOffsetsSize(s: State, offs: seq<nat>)
    requires OffsetsOk(offs, |s.buf|)
    ensures var r := PushOffsets(s, offs); |r.buf| <= |s.buf| + 12 * |offs| && r.maxVoffset == s.maxVoffset
    decreases |offs|
  {
    hide PushOffset;
    if offs != [] {
      var last := |offs| - 1;
      PushOffsetSize(s, offs[last]);
      PushOffsetGrowing(s, offs[last]);
      PushOffsetsSize(PushOffset(s, offs[last]), offs[..last]);
    }
  }

  lemma PushOffsetGrowing(s: State, off: nat)
    requires 0 < off <= |s.buf|
    ensures |s.buf| <= |PushOffset(s, off).buf|
  {
    hide PaddingBytes, Aligned, Zeros, LE;
  }

  lemma PreAlignSize(s: State, len: nat, k: nat)
    requires IsAlign(k)
    ensures var r := PreAlign(s, len, k);
      |s.buf| <= |r.buf| < |s.buf| + k && r.maxVoffset == s.maxVoffset
  {
    hide PaddingBytes, Aligned, Zeros;
  }

  lemma VectorSize(s: State, offs: seq<nat>)
    requires OffsetsOk(offs, |s.buf|)
    ensures var r := CreateVector(s, offs).0; |r.buf| <= |s.buf| + 12 * |offs| + 16 && r.maxVoffset == s.maxVoffset
  {
    hide PreAlign, PushOffsets, PushElement;
    var n := s.(nested := true);
    PreAlignSize(n, |offs| * 4, 4);
    var p := PreAlign(n, |offs| * 4, 4);
    PreAlignSize(p, |offs| * 4, 4);
    var q := PreAlign(p, |offs| * 4, 4);
    PushOffsetsSize(q, offs);
    var f := PushOffsets(q, offs);
    PushElementBound(f, |offs| % TWO_32, 4);
    PushElementVoffset(f, |offs| % TWO_32);
  }

  lemma PushElementVoffset(s: State, v: nat)
    ensures PushElement(s, v, 4).maxVoffset == s.maxVoffset
  {
    hide PaddingBytes, Aligned, Zeros, LE;
  }

  lemma FinishSize(s: State, root: nat)
    requires 0 < root <= |s.buf| && IsAlign(s.minalign)
    ensures |Finish(s, root, None, false).buf| <= |s.buf| + 44
  {
    hide PaddingBytes, Aligned, Zeros, LE;
  }

  // ------------------------------------------------------------ NoticeInventory

  /** What one item takes at most: its string, its table and its place in the vector. */
  function ItemBound(item: L.Item): nat {
    |item.guid| + 92
  }

  function ItemsBound(items: seq<L.Item>): nat {
    if items == [] then 0 else ItemsBound(items[..|items| - 1]) + ItemBound(items[|items| - 1])
  }

  function NoticeBound(items: seq<L.Item>): nat {
    ItemsBound(items) + 110
  }

  lemma SlotSize(s: State, item: L.Item)
    requires Ready(s) && s.maxVoffset == 0
    ensures var r := L.BuildSlot(s, item).0; |r.buf| <= |s.buf| + |item.guid| + 80 && r.maxVoffset == 0
  {
    hide CreateString, CreateTable, WellFormed, Grows;
    CreateStringKeeps(s, item.guid);
    StringSize(s, item.guid);
    var s1, guid := CreateString(s, item.guid).0, CreateString(s, item.guid).1;
    L.SlotAddsOk(item, guid, |s1.buf|);
    CreateTableKeeps(s1, L.SlotAdds(item, guid));
    TableSize(s1, L.SlotAdds(item, guid), VT_COUNT);
  }

  lemma {:induction false} SlotsSize(items: seq<L.Item>)
    requires Ready(Initial)
    ensures var r := L.BuildSlots(Initial, items).0;
      |r.buf| + 12 * |items| <= ItemsBound(items) && r.maxVoffset == 0
    decreases |items|
  {
    hide L.BuildSlot, WellFormed, Grows;
    if items != [] {
      var last := |items| - 1;
      SlotsSize(items[..last]);
      SlotSize(L.BuildSlots(Initial, items[..last]).0, items[last]);
    }
  }

  /** The packet is no larger than its items account for. */
  lemma NoticeSize(items: seq<L.Item>)
    ensures |L.NoticeInventory(items)| <= NoticeBound(items)
  {
    hide L.BuildSlots, CreateVector, CreateTable, Finish, L.NoticeRoot, WellFormed, OffsetsOk;
    L.NoticeStages(items);
    SlotsSize(items);
    var s0, offs := L.BuildSlots(Initial, items).0, L.BuildSlots(Initial, items).1;
    VectorSize(s0, offs);
    var s1, vec := CreateVector(s0, offs).0, CreateVector(s0, offs).1;
    TableSize(s1, L.NoticeAdds(|items|, vec), VT_INVENTORY_TOTAL_COUNT);
    var s, root := L.NoticeRoot(items).0, L.NoticeRoot(items).1;
    ReadyAlign(s);
    FinishSize(s, root);
  }

  lemma ReadyAlign(s: State)
    requires Ready(s)
    ensures IsAlign(s.minalign)
  {
  }

  /**
   * Every list of items whose characters and entries stay below the library's limit is delivered: its
   * packet is accepted and reads back as the list.
   */
  lemma NoticeDelivered(o: V.Options, items: seq<L.Item>)
    requires L.ItemsOk(items) && NoticeBound(items) < TWO_31 && NoticeBound(items) <= o.maxSize
    requires 2 <= o.maxDepth && |items| + 1 <= o.maxTables
    ensures var b := L.NoticeInventory(items);
      && |b| < TWO_31 && VerifyNoticeBuffer(o, b) == (true, V.Counters(0, |items| + 1))
      && ReadNoticeBuffer(b) == Some(Notice(Some(L.SlotsOf(items)), |items|))
  {
    hide L.NoticeInventory, VerifyNoticeBuffer, ReadNoticeBuffer;
    NoticeSize(items);
    L.NoticeRoundTrip(items);
    L.NoticeVerifies(o, items);
  }

  /** A packet of acceptable size is accepted exactly when its tables are within their limit. */
  lemma NoticeAcceptedIff(o: V.Options, items: seq<L.Item>)
    requires L.ItemsOk(items) && NoticeBound(items) < TWO_31 && NoticeBound(items) <= o.maxSize && 2 <= o.maxDepth
    ensures |L.NoticeInventory(items)| < TWO_31
    ensures VerifyNoticeBuffer(o, L.NoticeInventory(items)).0 <==> |items| + 1 <= o.maxTables
  {
    hide L.NoticeInventory, VerifyNoticeBuffer, ReadNoticeBuffer;
    NoticeSize(items);
    L.NoticeRoundTrip(items);
    NoticeBufferSound(o, L.NoticeInventory(items));
    if |items| + 1 <= o.maxTables {
      L.NoticeVerifies(o, items);
    }
  }

  /** With the limits the library sets by default, a packet holds fewer than a million items. */
  lemma NoticeAcceptedByDefault(items: seq<L.Item>)
    requires L.ItemsOk(items) && NoticeBound(items) < TWO_31
    ensures |L.NoticeInventory(items)| < TWO_31
    ensures VerifyNoticeBuffer(V.DefaultOptions, L.NoticeInventory(items)).0 <==> |items| < 1_000_000
  {
    hide L.NoticeInventory, VerifyNoticeBuffer;
    NoticeAcceptedIff(V.DefaultOptions, items);
  }

  // ---------------------------------------------------------- ResponseItemBreak

  lemma BreakSize(feedback: bool, guid: seq<byte>, money: int, removed: int)
    ensures |B.ResponseItemBreak(feedback, guid, money, removed)| <= |guid| + 142
  {
    hide CreateString, CreateTable, Finish, WellFormed, Grows;
    L.InitialReady();
    CreateStringKeeps(Initial, guid);
    StringSize(Initial, guid);
    var s, g := CreateString(Initial, guid).0, CreateString(Initial, guid).1;
    B.BreakAddsOk(feedback, g, money, removed, |s.buf|);
    var adds := B.BreakAdds(feedback, g, money, removed);
    CreateTableKeeps(s, adds);
    TableSize(s, adds, VT_REMOVE_COUNT);
    var r, root := B.BreakRoot(feedback, guid, money, removed).0, B.BreakRoot(feedback, guid, money, removed).1;
    ReadyAlign(r);
    FinishSize(r, root);
  }

  /** Every answer about an item with a guid of reasonable length is delivered. */
  lemma BreakDelivered(o: V.Options, feedback: bool, guid: seq<byte>, money: int, removed: int)
    requires L.InRange(money, 4) && L.InRange(removed, 4)
    requires |guid| + 142 < TWO_31 && |guid| + 142 <= o.maxSize && 1 <= o.maxDepth && 1 <= o.maxTables
    ensures var b := B.ResponseItemBreak(feedback, guid, money, removed);
      && |b| < TWO_31 && VerifyItemBreakBuffer(o, b) == (true, V.Counters(0, 1))
      && ReadItemBreakBuffer(b) == Some(ItemBreak(feedback, Some(guid), money, removed))
  {
    hide B.ResponseItemBreak, VerifyItemBreakBuffer, ReadItemBreakBuffer;
    BreakSize(feedback, guid, money, removed);
    B.BreakRoundTrip(feedback, guid, money, removed);
    B.BreakVerifies(o, feedback, guid, money, removed);
  }
}
