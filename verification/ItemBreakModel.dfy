/** ResponseItemBreak of Common/src/lobby/LobbyProtocol.cpp as a value, its round trip and its acceptance. */
module ItemBreakModel {
  import opened Wrappers
  import opened Bytes
  import opened FlatReader
  import opened BuilderModel
  import opened TableLemmas
  import opened Tables
  import opened Fields
  import opened Objects
  import opened Runs
  import opened Keeps
  import opened FinishLemmas
  import opened Completeness
  import V = FlatVerifier
  import opened Messages
  import L = LobbyModel

  /** The add_* calls of CreateRESPONSE_ITEM_BREAK, in its order. */
  function BreakAdds(feedback: bool, guid: nat, money: int, removed: int): (adds: seq<Add>)
    ensures DistinctIds(adds)
  {
    [Scalar(VT_REMOVE_COUNT, 4, Unsigned(removed, 4), 0),
     Scalar(VT_MONEY_REWARD, 4, Unsigned(money, 4), 0),
     Ref(VT_BREAK_GUID, guid),
     Scalar(VT_FEEDBACK, 1, if feedback then 1 else 0, 0)]
  }

  lemma BreakAddsOk(feedback: bool, guid: nat, money: int, removed: int, size: nat)
    requires guid <= size
    ensures AddsOk(BreakAdds(feedback, guid, money, removed), size)
    ensures |BreakAdds(feedback, guid, money, removed)| == 4
  {
    Pow256Values();
  }

  function BreakRoot(feedback: bool, guid: seq<byte>, money: int, removed: int): (r: (State, nat))
    ensures Ready(r.0) && 0 < r.1 <= |r.0.buf| && !r.0.finished
  {
    L.InitialReady();
    CreateStringKeeps(Initial, guid);
    var (s, g) := CreateString(Initial, guid);
    BreakAddsOk(feedback, g, money, removed, |s.buf|);
    CreateTableKeeps(s, BreakAdds(feedback, g, money, removed));
    CreateTable(s, BreakAdds(feedback, g, money, removed))
  }

  /** The packet body of ResponseItemBreak. */
  function ResponseItemBreak(feedback: bool, guid: seq<byte>, money: int, removed: int): seq<byte> {
    var (s, root) := BreakRoot(feedback, guid, money, removed);
    Finish(s, root, None, false).buf
  }

  ghost predicate Packet(b: seq<byte>, guid: seq<byte>, adds: seq<Add>, g: nat, t: nat, m: nat) {
    && IsAlign(m) && 4 <= m && Aligned(|b|, m) && V.MIN_BUFFER_SIZE <= |b|
    && StringHolds(b, g, guid, m) && TableHolds(b, t, adds, m) && L.VTableClear(b, t)
    && Sparse(b, t, adds, false) && 0 < g
    && ReadU(b, 0, 4) == Some(|b| - t) && t + 4 <= |b|
  }

  lemma BreakStages(feedback: bool, guid: seq<byte>, money: int, removed: int) returns (s: State, g: nat)
    ensures Ready(Initial) && (s, g) == CreateString(Initial, guid) && Ready(s) && g == |s.buf|
    ensures AddsOk(BreakAdds(feedback, g, money, removed), |s.buf|)
    ensures BreakRoot(feedback, guid, money, removed) == CreateTable(s, BreakAdds(feedback, g, money, removed))
    ensures |s.buf| <= |BreakRoot(feedback, guid, money, removed).0.buf|
  {
    L.InitialReady();
    hide CreateString, CreateTable, BreakAdds;
    hide VTablesStored, VTablesDistinct, PoolStored, PoolDistinct, FieldsFit;
    CreateStringKeeps(Initial, guid);
    s, g := CreateString(Initial, guid).0, CreateString(Initial, guid).1;
    BreakAddsOk(feedback, g, money, removed, |s.buf|);
    CreateTableKeeps(s, BreakAdds(feedback, g, money, removed));
  }

  lemma BreakPacket(feedback: bool, guid: seq<byte>, money: int, removed: int) returns (g: nat, t: nat, m: nat)
    requires |ResponseItemBreak(feedback, guid, money, removed)| < TWO_31
    ensures Packet(ResponseItemBreak(feedback, guid, money, removed), guid,
                   BreakAdds(feedback, g, money, removed), g, t, m)
  {
    hide CreateString, CreateTable, BreakRoot, BreakAdds, Finish, StringHolds, TableHolds, Grows, Aligned;
    hide VTablesStored, VTablesDistinct, PoolStored, PoolDistinct, FieldsFit, Linked, L.VTableClear, AddsOk;
    var b := ResponseItemBreak(feedback, guid, money, removed);
    var r := BreakRoot(feedback, guid, money, removed);
    L.FinishGrows(r.0, r.1);
    var s1;
    s1, g := BreakStages(feedback, guid, money, removed);
    var adds := BreakAdds(feedback, g, money, removed);
    BreakAddsOk(feedback, g, money, removed, |s1.buf|);
    var c, o := CreateStringHolds(Initial, guid);
    TableIsSmall(s1, adds);
    var s, v, vt;
    s, t, v, vt := CreateTableHolds(s1, adds);
    m := s.minalign;
    L.TableAbove(s1, s, adds, t);
    StringHoldsReads(s1.buf, g, guid, s1.minalign);
    StringHoldsGrows(s1.buf, s.buf, g, guid, s1.minalign, m);
    L.TableHasShape(s.buf, t, adds, m);
    FinishHolds(s, t, None, false);
    StringHoldsGrows(s.buf, b, g, guid, m, m);
    TableStays(s.buf, b, t, adds, m, m);
    SparseStays(s.buf, b, t, adds, false);
    L.TableClear(s.buf, b, t, m);
  }

  /** Every response reads back as what was answered. */
  lemma BreakRoundTrip(feedback: bool, guid: seq<byte>, money: int, removed: int)
    requires L.InRange(money, 4) && L.InRange(removed, 4)
    requires |ResponseItemBreak(feedback, guid, money, removed)| < TWO_31
    ensures ReadItemBreakBuffer(ResponseItemBreak(feedback, guid, money, removed))
         == Some(ItemBreak(feedback, Some(guid), money, removed))
  {
    hide ResponseItemBreak, GetField, GetPointer, StringHolds, TableShape, NoOtherFields;
    hide StringBytes, FieldInside, L.VTableClear, Aligned, ReadU;
    var b := ResponseItemBreak(feedback, guid, money, removed);
    var g, t, m := BreakPacket(feedback, guid, money, removed);
    var adds := BreakAdds(feedback, g, money, removed);
    assert FieldHolds(b, t, adds[0], m) && FieldHolds(b, t, adds[1], m);
    assert FieldHolds(b, t, adds[2], m) && FieldHolds(b, t, adds[3], m);
    StringHoldsReads(b, g, guid, m);
    SignedOfUnsigned(money, 4);
    SignedOfUnsigned(removed, 4);
  }

  /** Fields that are false or zero are not stored. */
  lemma BreakLeavesOut(feedback: bool, guid: seq<byte>, money: int, removed: int)
    requires L.InRange(money, 4) && L.InRange(removed, 4)
    requires |ResponseItemBreak(feedback, guid, money, removed)| < TWO_31
    ensures var b := ResponseItemBreak(feedback, guid, money, removed);
      && GetRoot(b).Some?
      && var p := GetRoot(b).value;
      && GetOptionalFieldOffset(b, p, 4).Some? && GetOptionalFieldOffset(b, p, 6).Some?
      && GetOptionalFieldOffset(b, p, 8).Some? && GetOptionalFieldOffset(b, p, 10).Some?
      && (GetOptionalFieldOffset(b, p, 4).value == 0 <==> !feedback)
      && GetOptionalFieldOffset(b, p, 6).value != 0
      && (GetOptionalFieldOffset(b, p, 8).value == 0 <==> money == 0)
      && (GetOptionalFieldOffset(b, p, 10).value == 0 <==> removed == 0)
  {
    hide ResponseItemBreak, StringHolds, TableHolds, L.VTableClear, Aligned, ReadU, GetOptionalFieldOffset;
    var b := ResponseItemBreak(feedback, guid, money, removed);
    var g, t, m := BreakPacket(feedback, guid, money, removed);
    var adds := BreakAdds(feedback, g, money, removed);
    Pow256Values();
    L.ZeroBits(money, 4);
    L.ZeroBits(removed, 4);
    assert adds[0].id == VT_REMOVE_COUNT && adds[1].id == VT_MONEY_REWARD;
    assert adds[2].id == VT_BREAK_GUID && adds[3].id == VT_FEEDBACK;
  }

  /** The generated verifier accepts every response within its limits. */
  lemma BreakVerifies(o: V.Options, feedback: bool, guid: seq<byte>, money: int, removed: int)
    requires |ResponseItemBreak(feedback, guid, money, removed)| < TWO_31
    requires |ResponseItemBreak(feedback, guid, money, removed)| <= o.maxSize
    requires 1 <= o.maxDepth && 1 <= o.maxTables
    ensures VerifyItemBreakBuffer(o, ResponseItemBreak(feedback, guid, money, removed)) == (true, V.Counters(0, 1))
  {
    hide ResponseItemBreak, StringHolds, NoOtherFields, L.VTableClear, Aligned, ReadU, VerifyItemBreak, FieldHolds;
    var b := ResponseItemBreak(feedback, guid, money, removed);
    var g, t, m := BreakPacket(feedback, guid, money, removed);
    L.RootVerifies(o, b, t, m);
    BreakTableVerifies(o, b, feedback, guid, money, removed, g, t, m);
  }

  lemma BreakTableVerifies(o: V.Options, b: seq<byte>, feedback: bool, guid: seq<byte>, money: int, removed: int,
                           g: nat, t: nat, m: nat)
    requires Whole(o, b, m) && Packet(b, guid, BreakAdds(feedback, g, money, removed), g, t, m)
    requires 1 <= o.maxDepth && 1 <= o.maxTables
    ensures t < |b| && VerifyItemBreak(o, b, V.Counters(0, 0), |b| - t) == (true, V.Counters(0, 1))
  {
    hide StringHolds, FieldHolds, NoOtherFields, GetOptionalFieldOffset, Aligned;
    hide VerifyStringField, V.VerifyField, V.VerifyTableStart;
    var adds := BreakAdds(feedback, g, money, removed);
    assert FieldHolds(b, t, adds[0], m) && FieldHolds(b, t, adds[1], m);
    assert FieldHolds(b, t, adds[2], m) && FieldHolds(b, t, adds[3], m);
    TableStartComplete(o, b, V.Counters(0, 0), t, m);
    L.ScalarFieldComplete(o, b, t, adds[0], m);
    L.ScalarFieldComplete(o, b, t, adds[1], m);
    L.StringFieldComplete(o, b, t, adds[2], guid, m);
    L.ScalarFieldComplete(o, b, t, adds[3], m);
  }
}
