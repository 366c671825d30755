/**
 * The packet builders of Common/src/lobby/LobbyProtocol.cpp and the generated Create* functions they
 * call, on a real builder; each is proved to produce the bytes that LobbyModel and ItemBreakModel describe.
 */
module LobbyProtocol {
  import opened Wrappers
  import opened Bytes
  import M = BuilderModel
  import opened TableLemmas
  import opened Fields
  import opened Tables
  import opened Runs
  import opened Keeps
  import opened FlatBufferBuilderModule
  import opened Messages
  import L = LobbyModel
  import B = ItemBreakModel

  const RESPONSE_ITEM_BREAK_CONTENT: nat := 11

  class PacketOutput {
    var buffer: seq<byte>
    var bodySize: int
    var contentsType: nat

    constructor ()
    {
      buffer, bodySize, contentsType := [], 0, 0;
    }
  }

  // ------------------------------------------------- unrolling straight code

  lemma AddOneStep(s: M.State, adds: seq<Add>, i: nat)
    requires AddsOk(adds, |s.buf|) && i < |adds|
    ensures AddsOk(adds[..i], |s.buf|) && AddsOk(adds[..i + 1], |s.buf|)
    ensures AddOk(adds[i], |AddAll(s, adds[..i]).buf|)
    ensures AddAll(s, adds[..i + 1]) == AddOne(AddAll(s, adds[..i]), adds[i])
    ensures |AddAll(s, adds[..i + 1]).buf| <= |AddAll(s, adds).buf|
  {
    hide AddOne;
    assert adds[..i + 1][..i] == adds[..i];
    AddAllPrefix(s, adds, i + 1);
  }

  lemma {:induction false} AddAllPrefix(s: M.State, adds: seq<Add>, i: nat)
    requires AddsOk(adds, |s.buf|) && i <= |adds|
    ensures |AddAll(s, adds[..i]).buf| <= |AddAll(s, adds).buf|
  {
    hide AddOne;
    if i == |adds| {
      assert adds[..i] == adds;
    } else {
      var last := |adds| - 1;
      AddAllPrefix(s, adds[..last], i);
      assert adds[..last][..i] == adds[..i];
    }
  }

  /** The buffer of an unfinished table never exceeds that of the finished one. */
  lemma TableGrows(s: M.State, adds: seq<Add>)
    requires Ready(s) && AddsOk(adds, |s.buf|)
    ensures var f := AddAll(M.StartTable(s), adds);
      && WellFormed(f) && |s.buf| <= |f.buf| <= |CreateTable(s, adds).0.buf|
      && CreateTable(s, adds) == M.EndTable(f, |s.buf|)
  {
    hide AddAll, Linked, M.EndTable, VTablesStored, VTablesDistinct, PoolStored, PoolDistinct, M.FieldsFit;
    var a := M.StartTable(s);
    AddAllKeeps(a, adds);
    var f := AddAll(a, adds);
    var s', t, v, vt := EndTableLinks(f, |s.buf|);
  }

  // --------------------------------------------------------- generated code

  method CreateInventorySlot(builder: FlatBufferBuilder, guid: nat, item: L.Item) returns (slot: nat)
    requires builder.Valid() && M.NotNested(builder.Abs()) && AddsOk(L.SlotAdds(item, guid), builder.buf.size)
    requires |CreateTable(builder.Abs(), L.SlotAdds(item, guid)).0.buf| < TWO_31
    modifies builder, builder.buf, builder.buf.data
    ensures builder.Valid() && (builder.buf.data == old(builder.buf.data) || fresh(builder.buf.data))
    ensures (builder.Abs(), slot) == CreateTable(old(builder.Abs()), L.SlotAdds(item, guid))
  {
    hide WellFormed, M.AddElement, M.AddOffset, M.EndTable, AddAll, Unsigned, CreateTable, AddsOk;
    ghost var adds := L.SlotAdds(item, guid);
    TableGrows(builder.Abs(), adds);
    var start := builder.StartTable();
    ghost var a := builder.Abs();
    Unroll(a, adds);
    AddOneStep(a, adds, 0);
    builder.AddElement(VT_ITEM_SEED, 8, Unsigned(item.seed, 8), 0);
    AddOneStep(a, adds, 1);
    builder.AddElement(VT_COUNT, 4, Unsigned(item.count, 4), 0);
    AddOneStep(a, adds, 2);
    builder.AddOffset(VT_GUID, guid);
    slot := builder.EndTable(start);
  }

  method CreateNoticeInventory(builder: FlatBufferBuilder, slots: nat, total: nat) returns (notice: nat)
    requires builder.Valid() && M.NotNested(builder.Abs()) && AddsOk(L.NoticeAdds(total, slots), builder.buf.size)
    requires |CreateTable(builder.Abs(), L.NoticeAdds(total, slots)).0.buf| < TWO_31
    modifies builder, builder.buf, builder.buf.data
    ensures builder.Valid() && (builder.buf.data == old(builder.buf.data) || fresh(builder.buf.data))
    ensures (builder.Abs(), notice) == CreateTable(old(builder.Abs()), L.NoticeAdds(total, slots))
  {
    hide WellFormed, M.AddElement, M.AddOffset, M.EndTable, AddAll, Unsigned, CreateTable, AddsOk;
    ghost var adds := L.NoticeAdds(total, slots);
    TableGrows(builder.Abs(), adds);
    var start := builder.StartTable();
    ghost var a := builder.Abs();
    Unroll(a, adds);
    AddOneStep(a, adds, 0);
    builder.AddElement(VT_INVENTORY_TOTAL_COUNT, 4, Unsigned(total, 4), 0);
    AddOneStep(a, adds, 1);
    builder.AddOffset(VT_INVENTORY_SLOTS, slots);
    notice := builder.EndTable(start);
  }

  method CreateResponseItemBreak(builder: FlatBufferBuilder, feedback: bool, guid: nat, money: int, removed: int)
    returns (response: nat)
    requires builder.Valid() && M.NotNested(builder.Abs())
    requires AddsOk(B.BreakAdds(feedback, guid, money, removed), builder.buf.size)
    requires |CreateTable(builder.Abs(), B.BreakAdds(feedback, guid, money, removed)).0.buf| < TWO_31
    modifies builder, builder.buf, builder.buf.data
    ensures builder.Valid() && (builder.buf.data == old(builder.buf.data) || fresh(builder.buf.data))
    ensures (builder.Abs(), response)
         == CreateTable(old(builder.Abs()), B.BreakAdds(feedback, guid, money, removed))
  {
    hide WellFormed, M.AddElement, M.AddOffset, M.EndTable, AddAll, Unsigned, CreateTable, AddsOk, B.BreakAdds;
    ghost var adds := B.BreakAdds(feedback, guid, money, removed);
    TableGrows(builder.Abs(), adds);
    var start := builder.StartTable();
    ghost var s1, s2, s3 := BreakSteps(builder.Abs(), feedback, guid, money, removed);
    builder.AddElement(VT_REMOVE_COUNT, 4, Unsigned(removed, 4), 0);
    builder.AddElement(VT_MONEY_REWARD, 4, Unsigned(money, 4), 0);
    builder.AddOffset(VT_BREAK_GUID, guid);
    builder.AddElement(VT_FEEDBACK, 1, if feedback then 1 else 0, 0);
    response := builder.EndTable(start);
  }

  lemma BreakSteps(a: M.State, feedback: bool, guid: nat, money: int, removed: int)
    returns (s1: M.State, s2: M.State, s3: M.State)
    requires AddsOk(B.BreakAdds(feedback, guid, money, removed), |a.buf|)
    ensures s1 == M.AddElement(a, VT_REMOVE_COUNT, 4, Unsigned(removed, 4), 0)
    ensures s2 == M.AddElement(s1, VT_MONEY_REWARD, 4, Unsigned(money, 4), 0)
    ensures guid <= |s2.buf| && s3 == M.AddOffset(s2, VT_BREAK_GUID, guid)
    ensures var s4 := M.AddElement(s3, VT_FEEDBACK, 1, if feedback then 1 else 0, 0);
      && s4 == AddAll(a, B.BreakAdds(feedback, guid, money, removed))
      && |s1.buf| <= |s4.buf| && |s2.buf| <= |s4.buf| && |s3.buf| <= |s4.buf|
  {
    hide M.AddElement, M.AddOffset, AddAll, Unsigned;
    var adds := B.BreakAdds(feedback, guid, money, removed);
    Unroll(a, adds);
    AddOneStep(a, adds, 0);
    AddOneStep(a, adds, 1);
    AddOneStep(a, adds, 2);
    AddOneStep(a, adds, 3);
    s1, s2, s3 := AddAll(a, adds[..1]), AddAll(a, adds[..2]), AddAll(a, adds[..3]);
  }

  lemma Unroll(a: M.State, adds: seq<Add>)
    requires AddsOk(adds, |a.buf|)
    ensures AddAll(a, adds[..0]) == a && adds[..|adds|] == adds
  {
  }

  // ----------------------------------------------------------------- packets

  /** The sizes on the way: a slot is never larger than the finished packet. */
  lemma {:induction false} SlotsPrefix(s: M.State, items: seq<L.Item>, i: nat)
    requires Ready(s) && i <= |items|
    ensures |L.BuildSlots(s, items[..i]).0.buf| <= |L.BuildSlots(s, items).0.buf|
  {
    hide L.BuildSlot, WellFormed, Grows;
    if i == |items| {
      assert items[..i] == items;
    } else {
      var last := |items| - 1;
      SlotsPrefix(s, items[..last], i);
      assert items[..last][..i] == items[..i];
    }
  }

  /** One turn of the loop, and its size against the whole. */
  lemma SlotTurn(items: seq<L.Item>, i: nat)
    requires i < |items|
    ensures Ready(M.Initial)
    ensures var (s, offs) := L.BuildSlots(M.Initial, items[..i]);
      var (s', o) := L.BuildSlot(s, items[i]);
      && L.BuildSlots(M.Initial, items[..i + 1]) == (s', offs + [o])
      && |s'.buf| <= |L.BuildSlots(M.Initial, items).0.buf|
  {
    L.InitialReady();
    hide L.BuildSlot, WellFormed, Grows;
    assert items[..i + 1][..i] == items[..i];
    SlotsPrefix(M.Initial, items, i + 1);
  }

  lemma SlotStages(s: M.State, item: L.Item)
    requires Ready(s)
    ensures var (s1, guid) := M.CreateString(s, item.guid);
      && Ready(s1) && guid <= |s1.buf| <= |L.BuildSlot(s, item).0.buf|
      && AddsOk(L.SlotAdds(item, guid), |s1.buf|)
      && L.BuildSlot(s, item) == CreateTable(s1, L.SlotAdds(item, guid))
  {
    hide M.CreateString, CreateTable, WellFormed, Grows, L.SlotAdds;
    CreateStringKeeps(s, item.guid);
    var s1, guid := M.CreateString(s, item.guid).0, M.CreateString(s, item.guid).1;
    L.SlotAddsOk(item, guid, |s1.buf|);
    CreateTableKeeps(s1, L.SlotAdds(item, guid));
  }

  lemma PacketSizes(items: seq<L.Item>)
    ensures |L.BuildSlots(M.Initial, items).0.buf| <= |L.NoticeRoot(items).0.buf| <= |L.NoticeInventory(items)|
  {
    hide M.Finish, M.CreateVector, L.NoticeRoot, CreateTable, L.BuildSlots, WellFormed;
    var r := L.NoticeRoot(items);
    assert IsAlign(r.0.minalign) by { ReadyAligned(r.0); }
    L.FinishGrows(r.0, r.1);
    L.NoticeStages(items);
    CreateVectorKeeps(L.BuildSlots(M.Initial, items).0, L.BuildSlots(M.Initial, items).1);
  }

  lemma ReadyAligned(s: M.State)
    requires Ready(s)
    ensures IsAlign(s.minalign) && M.NotNested(s)
  {
  }

  /** One turn of the loop body on the builder. */
  method BuildSlot(builder: FlatBufferBuilder, item: L.Item) returns (slot: nat)
    requires builder.Valid() && Ready(builder.Abs()) && |L.BuildSlot(builder.Abs(), item).0.buf| < TWO_31
    modifies builder, builder.buf, builder.buf.data
    ensures builder.Valid() && (builder.buf.data == old(builder.buf.data) || fresh(builder.buf.data))
    ensures (builder.Abs(), slot) == L.BuildSlot(old(builder.Abs()), item)
  {
    hide WellFormed, M.CreateString, CreateTable, L.SlotAdds, L.BuildSlot;
    SlotStages(builder.Abs(), item);
    var guid := builder.CreateString(item.guid);
    slot := CreateInventorySlot(builder, guid, item);
  }

  /** The loop of NoticeInventory. */
  method BuildSlots(builder: FlatBufferBuilder, items: seq<L.Item>) returns (slotOffsets: seq<nat>)
    requires builder.Valid() && builder.Abs() == M.Initial && Ready(M.Initial)
    requires |L.BuildSlots(M.Initial, items).0.buf| < TWO_31
    modifies builder, builder.buf, builder.buf.data
    ensures builder.Valid() && (builder.buf.data == old(builder.buf.data) || fresh(builder.buf.data))
    ensures (builder.Abs(), slotOffsets) == L.BuildSlots(M.Initial, items)
  {
    hide WellFormed, L.BuildSlot;
    slotOffsets := [];
    var i := 0;
    while i < |items|
      invariant 0 <= i <= |items| && builder.Valid()
      invariant builder.buf.data == old(builder.buf.data) || fresh(builder.buf.data)
      invariant (builder.Abs(), slotOffsets) == L.BuildSlots(M.Initial, items[..i])
    {
      SlotTurn(items, i);
      var slot := BuildSlot(builder, items[i]);
      slotOffsets := slotOffsets + [slot];
      i := i + 1;
    }
    assert items[..|items|] == items;
  }

  /** Everything before Finish. */
  method BuildNotice(builder: FlatBufferBuilder, items: seq<L.Item>) returns (root: nat)
    requires builder.Valid() && builder.Abs() == M.Initial && Ready(M.Initial)
    requires |L.NoticeInventory(items)| < TWO_31
    modifies builder, builder.buf, builder.buf.data
    ensures builder.Valid() && (builder.buf.data == old(builder.buf.data) || fresh(builder.buf.data))
    ensures (builder.Abs(), root) == L.NoticeRoot(items)
  {
    hide WellFormed, L.BuildSlots, M.CreateVector, CreateTable, L.NoticeAdds, L.NoticeRoot, L.NoticeInventory;
    PacketSizes(items);
    L.NoticeStages(items);
    var slotOffsets := BuildSlots(builder, items);
    var slotVector := builder.CreateVector(slotOffsets);
    root := CreateNoticeInventory(builder, slotVector, |items|);
  }

  /**
   * Common::Lobby::NoticeInventory. The body and its size are set; the content type is left as it was.
   */
  method NoticeInventory(items: seq<L.Item>, outPacket: PacketOutput)
    requires |L.NoticeInventory(items)| < TWO_31
    modifies outPacket
    ensures outPacket.buffer == L.NoticeInventory(items) && outPacket.bodySize == |L.NoticeInventory(items)|
    ensures outPacket.contentsType == old(outPacket.contentsType)
  {
    hide WellFormed, M.Finish, L.NoticeRoot;
    L.InitialReady();
    var builder := new FlatBufferBuilder(1024);
    var root := BuildNotice(builder, items);
    ReadyAligned(L.NoticeRoot(items).0);
    FinishPacket(builder, root, outPacket);
  }

  /** Everything ResponseItemBreak builds before Finish. */
  method BuildResponse(builder: FlatBufferBuilder, feedback: bool, guid: seq<byte>, money: int, removed: int)
    returns (root: nat)
    requires builder.Valid() && builder.Abs() == M.Initial && Ready(M.Initial)
    requires |B.ResponseItemBreak(feedback, guid, money, removed)| < TWO_31
    modifies builder, builder.buf, builder.buf.data
    ensures builder.Valid() && (builder.buf.data == old(builder.buf.data) || fresh(builder.buf.data))
    ensures (builder.Abs(), root) == B.BreakRoot(feedback, guid, money, removed)
  {
    hide WellFormed, M.CreateString, CreateTable, B.BreakAdds, B.BreakRoot, M.Finish;
    ghost var r := B.BreakRoot(feedback, guid, money, removed);
    ReadyAligned(r.0);
    L.FinishGrows(r.0, r.1);
    ghost var s, g := B.BreakStages(feedback, guid, money, removed);
    var guidOffset := builder.CreateString(guid);
    root := CreateResponseItemBreak(builder, feedback, guidOffset, money, removed);
  }

  /** Common::Lobby::ResponseItemBreak. */
  method ResponseItemBreak(feedback: bool, guid: seq<byte>, money: int, removed: int, outPacket: PacketOutput)
    requires |B.ResponseItemBreak(feedback, guid, money, removed)| < TWO_31
    modifies outPacket
    ensures outPacket.buffer == B.ResponseItemBreak(feedback, guid, money, removed)
    ensures outPacket.bodySize == |outPacket.buffer| && outPacket.contentsType == 11
  {
    hide WellFormed, M.Finish, B.BreakRoot;
    L.InitialReady();
    var builder := new FlatBufferBuilder(1024);
    var root := BuildResponse(builder, feedback, guid, money, removed);
    ReadyAligned(B.BreakRoot(feedback, guid, money, removed).0);
    FinishPacket(builder, root, outPacket);
    outPacket.contentsType := RESPONSE_ITEM_BREAK_CONTENT;
  }

  /** Finish and the assignments to the packet. */
  method FinishPacket(builder: FlatBufferBuilder, root: nat, outPacket: PacketOutput)
    requires builder.Valid() && M.NotNested(builder.Abs()) && !builder.finished && 0 < root <= builder.buf.size
    requires IsAlign(builder.minalign) && |M.Finish(builder.Abs(), root, None, false).buf| < TWO_31
    modifies builder, builder.buf, builder.buf.data, outPacket
    ensures outPacket.buffer == M.Finish(old(builder.Abs()), root, None, false).buf
    ensures outPacket.bodySize == |outPacket.buffer| && outPacket.contentsType == old(outPacket.contentsType)
  {
    builder.Finish(root, None, false);
    outPacket.bodySize := builder.buf.size;
    outPacket.buffer := builder.buf.data[builder.buf.cur..];
  }
}
