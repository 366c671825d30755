/**
 * INVENTORY_SLOT, NOTICE_INVENTORY and RESPONSE_ITEM_BREAK: accessors and Verify of
 * Common/include/utility/MESSAGE_PROTOCOL_generated.h.
 */
module Messages {
  import opened Wrappers
  import opened Bytes
  import opened FlatReader
  import opened FlatVerifier
  import opened Placement

  const VT_GUID := 4
  const VT_ITEM_SEED := 6
  const VT_COUNT := 8
  const VT_INVENTORY_SLOTS := 4
  const VT_INVENTORY_TOTAL_COUNT := 6
  const VT_FEEDBACK := 4
  const VT_BREAK_GUID := 6
  const VT_MONEY_REWARD := 8
  const VT_REMOVE_COUNT := 10

  /** What the accessors of a message return; an absent string or vector is the null pointer. */
  datatype Slot = Slot(guid: Option<seq<byte>>, seed: int, count: int)
  datatype Notice = Notice(slots: Option<seq<Slot>>, total: int)
  datatype ItemBreak = ItemBreak(feedback: bool, guid: Option<seq<byte>>, money: int, removed: int)

  // -------------------------------------------------------------- accessors

  function ReadString(b: seq<byte>, p: int, field: nat): Option<Option<seq<byte>>> {
    var s :- GetPointer(b, p, field);
    match s
    case None => Some(None)
    case Some(str) =>
      var chars :- StringBytes(b, str);
      Some(Some(chars))
  }

  function ReadSlot(b: seq<byte>, p: int): Option<Slot> {
    var guid :- ReadString(b, p, VT_GUID);
    var seed :- GetField(b, p, VT_ITEM_SEED, 8, 0);
    var count :- GetField(b, p, VT_COUNT, 4, 0);
    Some(Slot(guid, Signed(seed, 8), Signed(count, 4)))
  }

  /** The slots from index `i` to the end of a vector of `n` tables. */
  function ReadSlots(b: seq<byte>, vec: int, i: nat, n: nat): Option<seq<Slot>>
    requires i <= n
    decreases n - i
  {
    if i == n then Some([])
    else
      var p :- VectorGet(b, vec, i);
      var slot :- ReadSlot(b, p);
      var rest :- ReadSlots(b, vec, i + 1, n);
      Some([slot] + rest)
  }

  function ReadNotice(b: seq<byte>, p: int): Option<Notice> {
    var vec :- GetPointer(b, p, VT_INVENTORY_SLOTS);
    var total :- GetField(b, p, VT_INVENTORY_TOTAL_COUNT, 4, 0);
    match vec
    case None => Some(Notice(None, Signed(total, 4)))
    case Some(v) =>
      var n :- VectorSize(b, v);
      var slots :- ReadSlots(b, v, 0, n);
      Some(Notice(Some(slots), Signed(total, 4)))
  }

  function ReadItemBreak(b: seq<byte>, p: int): Option<ItemBreak> {
    var feedback :- GetField(b, p, VT_FEEDBACK, 1, 0);
    var guid :- ReadString(b, p, VT_BREAK_GUID);
    var money :- GetField(b, p, VT_MONEY_REWARD, 4, 0);
    var removed :- GetField(b, p, VT_REMOVE_COUNT, 4, 0);
    Some(ItemBreak(feedback != 0, guid, Signed(money, 4), Signed(removed, 4)))
  }

  /** Reading a whole packet from its root. */
  function ReadNoticeBuffer(b: seq<byte>): Option<Notice> {
    var root :- GetRoot(b);
    ReadNotice(b, root)
  }

  function ReadItemBreakBuffer(b: seq<byte>): Option<ItemBreak> {
    var root :- GetRoot(b);
    ReadItemBreak(b, root)
  }

  /** What the accessors return for fields that are not stored: zero, false, or the null pointer. */
  lemma AbsentFields(b: seq<byte>, p: int)
    ensures ReadSlot(b, p).Some? ==>
      var s := ReadSlot(b, p).value;
      && (GetOptionalFieldOffset(b, p, 4) == Some(0) ==> s.guid == None)
      && (GetOptionalFieldOffset(b, p, 6) == Some(0) ==> s.seed == 0)
      && (GetOptionalFieldOffset(b, p, 8) == Some(0) ==> s.count == 0)
    ensures ReadNotice(b, p).Some? ==>
      var n := ReadNotice(b, p).value;
      && (GetOptionalFieldOffset(b, p, 4) == Some(0) ==> n.slots == None)
      && (GetOptionalFieldOffset(b, p, 6) == Some(0) ==> n.total == 0)
    ensures ReadItemBreak(b, p).Some? ==>
      var r := ReadItemBreak(b, p).value;
      && (GetOptionalFieldOffset(b, p, 4) == Some(0) ==> !r.feedback)
      && (GetOptionalFieldOffset(b, p, 6) == Some(0) ==> r.guid == None)
      && (GetOptionalFieldOffset(b, p, 8) == Some(0) ==> r.money == 0)
      && (GetOptionalFieldOffset(b, p, 10) == Some(0) ==> r.removed == 0)
  {
    hide GetOptionalFieldOffset, ReadSlots, StringBytes, VectorSize;
    Pow256Values();
  }

  // ----------------------------------------------------------- verification

  /** The field is absent, or its offset is acceptable and leads to a terminated string. */
  predicate VerifyStringField(o: Options, b: seq<byte>, p: nat, field: nat)
    requires p < |b| < TWO_63 && GetOptionalFieldOffset(b, p, field).Some?
  {
    VerifyOffsetField(o, b, p, field) &&
    (PointerSound(o, b, p, field);
     var str := GetPointer(b, p, field).value;
     str.Some? ==> VerifyString(o, b, str.value))
  }

  function VerifySlot(o: Options, b: seq<byte>, c: Counters, p: nat): (r: (bool, Counters))
    requires |b| < TWO_63
    ensures r.0 ==> r.1.depth == c.depth
  {
    var (ok, c') := VerifyTableStart(o, b, c, p);
    if !ok then (false, c')
    else
      TableStartSound(o, b, c, p);
      if VerifyStringField(o, b, p, VT_GUID) && VerifyField(o, b, p, VT_ITEM_SEED, 8)
         && VerifyField(o, b, p, VT_COUNT, 4)
      then (true, EndTable(c')) else (false, c')
  }

  /** VerifyVectorOfTables from element `i` on. */
  function VerifySlots(o: Options, b: seq<byte>, c: Counters, vec: nat, i: nat): (r: (bool, Counters))
    requires |b| < TWO_63 && VerifyVectorOrString(o, b, vec, 4).Some? && i <= VectorSize(b, vec).value
    ensures r.0 ==> r.1.depth == c.depth
    decreases VectorSize(b, vec).value - i
  {
    if i == VectorSize(b, vec).value then (true, c)
    else
      VectorSound(o, b, vec, i);
      var (ok, c') := VerifySlot(o, b, c, VectorGet(b, vec, i).value);
      if !ok then (false, c') else VerifySlots(o, b, c', vec, i + 1)
  }

  function VerifyNotice(o: Options, b: seq<byte>, c: Counters, p: nat): (bool, Counters)
    requires |b| < TWO_63
  {
    var (ok, c') := VerifyTableStart(o, b, c, p);
    if !ok then (false, c')
    else
      TableStartSound(o, b, c, p);
      if !VerifyOffsetField(o, b, p, VT_INVENTORY_SLOTS) then (false, c')
      else
        PointerSound(o, b, p, VT_INVENTORY_SLOTS);
        var vec := GetPointer(b, p, VT_INVENTORY_SLOTS).value;
        if vec.Some? && VerifyVectorOrString(o, b, vec.value, 4).None? then (false, c')
        else
          var (elements, c'') := if vec.Some? then VerifySlots(o, b, c', vec.value, 0) else (true, c');
          if elements && VerifyField(o, b, p, VT_INVENTORY_TOTAL_COUNT, 4)
          then (true, EndTable(c'')) else (false, c'')
  }

  function VerifyItemBreak(o: Options, b: seq<byte>, c: Counters, p: nat): (bool, Counters)
    requires |b| < TWO_63
  {
    var (ok, c') := VerifyTableStart(o, b, c, p);
    if !ok then (false, c')
    else
      TableStartSound(o, b, c, p);
      if VerifyField(o, b, p, VT_FEEDBACK, 1) && VerifyStringField(o, b, p, VT_BREAK_GUID)
         && VerifyField(o, b, p, VT_MONEY_REWARD, 4) && VerifyField(o, b, p, VT_REMOVE_COUNT, 4)
      then (true, EndTable(c')) else (false, c')
  }

  /** VerifyBuffer without an identifier. */
  function RootOffset(o: Options, b: seq<byte>): nat {
    if |b| >= MIN_BUFFER_SIZE then VerifyOffset(o, b, 0) else 0
  }

  function VerifyNoticeBuffer(o: Options, b: seq<byte>): (bool, Counters)
    requires |b| < TWO_63
  {
    var root := RootOffset(o, b);
    if root == 0 then (false, Counters(0, 0)) else VerifyNotice(o, b, Counters(0, 0), root)
  }

  function VerifyItemBreakBuffer(o: Options, b: seq<byte>): (bool, Counters)
    requires |b| < TWO_63
  {
    var root := RootOffset(o, b);
    if root == 0 then (false, Counters(0, 0)) else VerifyItemBreak(o, b, Counters(0, 0), root)
  }

  // ------------------------------------------------- what is accepted, exactly

  predicate StringFieldPlaced(o: Options, b: seq<byte>, p: int, field: nat) {
    && PointerPlaced(o, b, p, field)
    && var str := GetPointer(b, p, field).value;
    str.Some? ==> StringPlaced(o, b, str.value)
  }

  predicate SlotPlaced(o: Options, b: seq<byte>, p: int) {
    && TablePlaced(o, b, p) && StringFieldPlaced(o, b, p, VT_GUID)
    && ScalarPlaced(o, b, p, VT_ITEM_SEED, 8) && ScalarPlaced(o, b, p, VT_COUNT, 4)
  }

  /** The `i`th element is a stored offset that leads to an acceptable slot. */
  predicate ElementPlaced(o: Options, b: seq<byte>, vec: int, i: nat) {
    && Placed(o, b, vec + 4 + 4 * i, 4, 4)
    && var p := VectorGet(b, vec, i);
    p.Some? && SlotPlaced(o, b, p.value)
  }

  predicate SlotsPlaced(o: Options, b: seq<byte>, vec: int) {
    && VectorPlaced(o, b, vec, 4)
    && forall i :: 0 <= i < VectorSize(b, vec).value ==> ElementPlaced(o, b, vec, i)
  }

  predicate NoticePlaced(o: Options, b: seq<byte>, p: int) {
    && TablePlaced(o, b, p) && PointerPlaced(o, b, p, VT_INVENTORY_SLOTS)
    && ScalarPlaced(o, b, p, VT_INVENTORY_TOTAL_COUNT, 4)
    && var vec := GetPointer(b, p, VT_INVENTORY_SLOTS).value;
    vec.Some? ==> SlotsPlaced(o, b, vec.value)
  }

  predicate ItemBreakPlaced(o: Options, b: seq<byte>, p: int) {
    && TablePlaced(o, b, p) && ScalarPlaced(o, b, p, VT_FEEDBACK, 1) && StringFieldPlaced(o, b, p, VT_BREAK_GUID)
    && ScalarPlaced(o, b, p, VT_MONEY_REWARD, 4) && ScalarPlaced(o, b, p, VT_REMOVE_COUNT, 4)
  }

  /** The root is reached by an acceptable offset at the front of at least twelve bytes. */
  predicate RootPlaced(o: Options, b: seq<byte>) {
    12 <= |b| && OffsetPlaced(o, b, 0) && GetRoot(b).Some?
  }

  predicate NoticeBufferPlaced(o: Options, b: seq<byte>) {
    RootPlaced(o, b) && NoticePlaced(o, b, GetRoot(b).value)
  }

  predicate ItemBreakBufferPlaced(o: Options, b: seq<byte>) {
    RootPlaced(o, b) && ItemBreakPlaced(o, b, GetRoot(b).value)
  }

  /** The elements of the notice's vector. */
  function SlotTables(b: seq<byte>): nat {
    match GetRoot(b)
    case None => 0
    case Some(root) =>
      match GetPointer(b, root, VT_INVENTORY_SLOTS)
      case Some(Some(vec)) => if VectorSize(b, vec).Some? then VectorSize(b, vec).value else 0
      case _ => 0
  }

  lemma StringFieldIff(o: Options, b: seq<byte>, p: nat, field: nat)
    requires p < |b| < TWO_63 && GetOptionalFieldOffset(b, p, field).Some?
    ensures VerifyStringField(o, b, p, field) <==> StringFieldPlaced(o, b, p, field)
  {
    hide GetOptionalFieldOffset, GetPointer, VerifyOffsetField, PointerPlaced, VerifyString, StringPlaced;
    PointerIff(o, b, p, field);
    if VerifyOffsetField(o, b, p, field) {
      PointerSound(o, b, p, field);
      var str := GetPointer(b, p, field).value;
      if str.Some? {
        StringIff(o, b, str.value);
      }
    }
  }

  lemma SlotIff(o: Options, b: seq<byte>, c: Counters, p: nat)
    requires |b| < TWO_63
    ensures var (ok, c') := VerifySlot(o, b, c, p);
      && (ok <==> SlotPlaced(o, b, p) && c.depth < o.maxDepth && c.tables < o.maxTables)
      && (ok ==> c' == Counters(c.depth, c.tables + 1))
  {
    hide VerifyTableStart, GetOptionalFieldOffset, TablePlaced, VerifyStringField, StringFieldPlaced, VerifyField,
      ScalarPlaced;
    TableStartIff(o, b, c, p);
    if VerifyTableStart(o, b, c, p).0 {
      TableStartSound(o, b, c, p);
      StringFieldIff(o, b, p, VT_GUID);
      FieldIff(o, b, p, VT_ITEM_SEED, 8);
      FieldIff(o, b, p, VT_COUNT, 4);
    }
  }

  lemma ElementIff(o: Options, b: seq<byte>, vec: nat, i: nat)
    requires VectorPlaced(o, b, vec, 4) && i < VectorSize(b, vec).value
    ensures VectorGet(b, vec, i).Some? && VectorGet(b, vec, i).value >= 0
    ensures ElementPlaced(o, b, vec, i) <==> SlotPlaced(o, b, VectorGet(b, vec, i).value)
  {
    hide SlotPlaced;
  }

  lemma {:induction false} SlotsIff(o: Options, b: seq<byte>, c: Counters, vec: nat, i: nat)
    requires |b| < TWO_63 && VectorPlaced(o, b, vec, 4) && VerifyVectorOrString(o, b, vec, 4).Some?
    requires VectorSize(b, vec).Some? && i <= VectorSize(b, vec).value
    ensures var n := VectorSize(b, vec).value; var (ok, c') := VerifySlots(o, b, c, vec, i);
      && (ok <==> (forall j :: i <= j < n ==> ElementPlaced(o, b, vec, j))
                  && (i < n ==> c.depth < o.maxDepth && c.tables + (n - i) <= o.maxTables))
      && (ok ==> c' == Counters(c.depth, c.tables + (n - i)))
    decreases VectorSize(b, vec).value - i
  {
    hide VerifySlot, SlotPlaced, ElementPlaced, VerifyVectorOrString, VectorPlaced, VectorGet;
    if i < VectorSize(b, vec).value {
      ElementIff(o, b, vec, i);
      var p := VectorGet(b, vec, i).value;
      SlotIff(o, b, c, p);
      var (ok, c') := VerifySlot(o, b, c, p);
      if ok {
        SlotsIff(o, b, c', vec, i + 1);
      }
    }
  }

  lemma RootIff(o: Options, b: seq<byte>)
    requires |b| < TWO_63
    ensures RootOffset(o, b) != 0 <==> RootPlaced(o, b)
    ensures RootPlaced(o, b) ==> GetRoot(b) == Some(RootOffset(o, b))
  {
    hide VerifyOffset;
    OffsetIff(o, b, 0);
  }

  /** The vector of slots, once its offset has been accepted. */
  lemma VectorOfSlotsIff(o: Options, b: seq<byte>, c: Counters, vec: nat)
    requires |b| < TWO_63
    ensures VerifyVectorOrString(o, b, vec, 4).Some? <==> VectorPlaced(o, b, vec, 4)
    ensures SlotsPlaced(o, b, vec) ==> VectorPlaced(o, b, vec, 4)
    ensures VectorPlaced(o, b, vec, 4) ==> VectorSize(b, vec).Some?
    ensures VectorPlaced(o, b, vec, 4) ==>
      var n := VectorSize(b, vec).value;
      && (VerifySlots(o, b, c, vec, 0).0
          <==> SlotsPlaced(o, b, vec) && (n > 0 ==> c.depth < o.maxDepth && c.tables + n <= o.maxTables))
      && (VerifySlots(o, b, c, vec, 0).0 ==> VerifySlots(o, b, c, vec, 0).1 == Counters(c.depth, c.tables + n))
  {
    hide VerifySlots, VerifyVectorOrString, ElementPlaced;
    VectorIff(o, b, vec, 4);
    if VectorPlaced(o, b, vec, 4) {
      hide VectorPlaced;
      SlotsIff(o, b, c, vec, 0);
    }
  }

  lemma NoticeIff(o: Options, b: seq<byte>, p: nat)
    requires |b| < TWO_63
    ensures var n := (match GetPointer(b, p, VT_INVENTORY_SLOTS)
                      case Some(Some(vec)) => if VectorSize(b, vec).Some? then VectorSize(b, vec).value else 0
                      case _ => 0);
      VerifyNotice(o, b, Counters(0, 0), p).0 <==>
      && NoticePlaced(o, b, p) && 1 + n <= o.maxTables && (if n == 0 then 1 else 2) <= o.maxDepth
  {
    hide VerifyTableStart, GetOptionalFieldOffset, TablePlaced, VerifyOffsetField, PointerPlaced, VerifyField,
      ScalarPlaced, SlotsPlaced, VerifySlots, VerifyVectorOrString, VectorPlaced, GetPointer;
    var c := Counters(0, 0);
    TableStartIff(o, b, c, p);
    if VerifyTableStart(o, b, c, p).0 {
      TableStartSound(o, b, c, p);
      PointerIff(o, b, p, VT_INVENTORY_SLOTS);
      FieldIff(o, b, p, VT_INVENTORY_TOTAL_COUNT, 4);
      if VerifyOffsetField(o, b, p, VT_INVENTORY_SLOTS) {
        PointerSound(o, b, p, VT_INVENTORY_SLOTS);
        var vec := GetPointer(b, p, VT_INVENTORY_SLOTS).value;
        if vec.Some? {
          VectorOfSlotsIff(o, b, Counters(1, 1), vec.value);
        }
      }
    }
  }

  /**
   * The bytes accepted as a NOTICE_INVENTORY are exactly those laid out as above, with no more tables and
   * no deeper than the limits allow.
   */
  lemma NoticeBufferIff(o: Options, b: seq<byte>)
    requires |b| < TWO_63
    ensures VerifyNoticeBuffer(o, b).0 <==>
      && NoticeBufferPlaced(o, b) && 1 + SlotTables(b) <= o.maxTables
      && (if SlotTables(b) == 0 then 1 else 2) <= o.maxDepth
  {
    hide VerifyNotice, NoticePlaced, GetPointer, RootOffset, RootPlaced, GetRoot;
    RootIff(o, b);
    if RootPlaced(o, b) {
      NoticeIff(o, b, RootOffset(o, b));
    }
  }

  lemma ItemBreakBufferIff(o: Options, b: seq<byte>)
    requires |b| < TWO_63
    ensures VerifyItemBreakBuffer(o, b).0 <==> ItemBreakBufferPlaced(o, b) && 1 <= o.maxTables && 1 <= o.maxDepth
  {
    hide VerifyTableStart, GetOptionalFieldOffset, TablePlaced, VerifyStringField, StringFieldPlaced, VerifyField,
      ScalarPlaced, RootOffset, RootPlaced, GetRoot;
    RootIff(o, b);
    var p := RootOffset(o, b);
    if p != 0 {
      var c := Counters(0, 0);
      TableStartIff(o, b, c, p);
      if VerifyTableStart(o, b, c, p).0 {
        TableStartSound(o, b, c, p);
        FieldIff(o, b, p, VT_FEEDBACK, 1);
        StringFieldIff(o, b, p, VT_BREAK_GUID);
        FieldIff(o, b, p, VT_MONEY_REWARD, 4);
        FieldIff(o, b, p, VT_REMOVE_COUNT, 4);
      }
    }
  }

  // --------------------------------------------------- soundness and bounds

  lemma SlotSound(o: Options, b: seq<byte>, c: Counters, p: nat)
    requires |b| < TWO_63
    ensures var (ok, c') := VerifySlot(o, b, c, p);
      && c'.tables <= c.tables + 1
      && (c.tables <= o.maxTables ==> c'.tables <= o.maxTables + 1)
      && (ok ==> ReadSlot(b, p).Some? && c' == Counters(c.depth, c.tables + 1) && c'.tables <= o.maxTables)
  {
    var (ok, c') := VerifyTableStart(o, b, c, p);
    if VerifySlot(o, b, c, p).0 {
      hide VerifyTableStart, GetOptionalFieldOffset, VerifyScalar;
      TableStartSound(o, b, c, p);
      PointerSound(o, b, p, VT_GUID);
      var str := GetPointer(b, p, VT_GUID).value;
      if str.Some? {
        StringSound(o, b, str.value);
      }
      FieldSound(o, b, p, VT_ITEM_SEED, 8, 0);
      FieldSound(o, b, p, VT_COUNT, 4, 0);
    }
  }

  /** Each element costs one table visit, even when many elements refer to the same table. */
  lemma {:induction false} SlotsSound(o: Options, b: seq<byte>, c: Counters, vec: nat, i: nat)
    requires |b| < TWO_63 && VerifyVectorOrString(o, b, vec, 4).Some?
    requires VectorSize(b, vec).Some? && i <= VectorSize(b, vec).value
    ensures var n := VectorSize(b, vec).value; var (ok, c') := VerifySlots(o, b, c, vec, i);
      && (c.tables <= o.maxTables ==> c'.tables <= o.maxTables + 1)
      && (ok ==> ReadSlots(b, vec, i, n).Some? && c' == Counters(c.depth, c.tables + (n - i)))
      && (ok && c.tables <= o.maxTables ==> c'.tables <= o.maxTables)
    decreases VectorSize(b, vec).value - i
  {
    hide VerifySlot, ReadSlot, VerifyVectorOrString;
    if i < VectorSize(b, vec).value {
      VectorSound(o, b, vec, i);
      var p := VectorGet(b, vec, i).value;
      SlotSound(o, b, c, p);
      var (ok, c') := VerifySlot(o, b, c, p);
      if ok {
        SlotsSound(o, b, c', vec, i + 1);
      }
    }
  }

  /** The part of VerifyNotice after the vector's offset has been accepted. */
  lemma NoticeTableSound(o: Options, b: seq<byte>, c: Counters, p: nat)
    requires |b| < TWO_63 && c.tables <= o.maxTables
    ensures var (ok, c') := VerifyNotice(o, b, c, p);
      && c'.tables <= o.maxTables + 1
      && (ok ==>
            && ReadNotice(b, p).Some?
            && c' == Counters(c.depth, c.tables + 1 + SlotCount(ReadNotice(b, p).value))
            && c'.tables <= o.maxTables)
  {
    var (ok, c') := VerifyTableStart(o, b, c, p);
    if ok {
      hide VerifyTableStart, GetOptionalFieldOffset, VerifyScalar, VerifySlots, VerifyVectorOrString;
      TableStartSound(o, b, c, p);
      if VerifyOffsetField(o, b, p, VT_INVENTORY_SLOTS) {
        PointerSound(o, b, p, VT_INVENTORY_SLOTS);
        var vec := GetPointer(b, p, VT_INVENTORY_SLOTS).value;
        if vec.Some? && VerifyVectorOrString(o, b, vec.value, 4).Some? {
          VectorSound(o, b, vec.value, 0);
          SlotsSound(o, b, c', vec.value, 0);
          SlotsLength(b, vec.value, 0, VectorSize(b, vec.value).value);
        }
        if VerifyField(o, b, p, VT_INVENTORY_TOTAL_COUNT, 4) {
          FieldSound(o, b, p, VT_INVENTORY_TOTAL_COUNT, 4, 0);
        }
      }
    }
  }

  function SlotCount(n: Notice): nat {
    if n.slots.Some? then |n.slots.value| else 0
  }

  lemma {:induction false} SlotsLength(b: seq<byte>, vec: int, i: nat, n: nat)
    requires i <= n
    ensures ReadSlots(b, vec, i, n).Some? ==> |ReadSlots(b, vec, i, n).value| == n - i
    decreases n - i
  {
    hide ReadSlot, VectorGet;
    if i < n {
      SlotsLength(b, vec, i + 1, n);
    }
  }

  /**
   * Any byte string that is accepted as a NOTICE_INVENTORY can be read to the last accessor inside
   * the buffer. Whatever the outcome, at most `maxTables` tables pass the complexity check; on
   * success the depth is back where it was and each slot has been counted.
   */
  lemma NoticeBufferSound(o: Options, b: seq<byte>)
    requires |b| < TWO_63
    ensures var (ok, c) := VerifyNoticeBuffer(o, b);
      && c.tables <= o.maxTables + 1
      && (ok ==>
            && ReadNoticeBuffer(b).Some?
            && c == Counters(0, 1 + SlotCount(ReadNoticeBuffer(b).value))
            && c.tables <= o.maxTables && NoticeBufferPlaced(o, b))
  {
    hide VerifyNotice, ReadNotice, NoticeBufferPlaced;
    NoticeBufferIff(o, b);
    var root := RootOffset(o, b);
    if root != 0 {
      NoticeTableSound(o, b, Counters(0, 0), root);
    }
  }

  lemma ItemBreakBufferSound(o: Options, b: seq<byte>)
    requires |b| < TWO_63
    ensures var (ok, c) := VerifyItemBreakBuffer(o, b);
      ok ==> ReadItemBreakBuffer(b).Some? && c == Counters(0, 1) && ItemBreakBufferPlaced(o, b)
  {
    ItemBreakBufferIff(o, b);
    hide ItemBreakBufferPlaced;
    var p := RootOffset(o, b);
    if p != 0 && VerifyItemBreak(o, b, Counters(0, 0), p).0 {
      var c := Counters(0, 0);
      hide VerifyTableStart, GetOptionalFieldOffset, VerifyScalar;
      TableStartSound(o, b, c, p);
      PointerSound(o, b, p, VT_BREAK_GUID);
      var str := GetPointer(b, p, VT_BREAK_GUID).value;
      if str.Some? {
        StringSound(o, b, str.value);
      }
      FieldSound(o, b, p, VT_FEEDBACK, 1, 0);
      FieldSound(o, b, p, VT_MONEY_REWARD, 4, 0);
      FieldSound(o, b, p, VT_REMOVE_COUNT, 4, 0);
    }
  }
}
