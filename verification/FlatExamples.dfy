/** A packet byte by byte: the field offsets, widths and order that every other implementation expects. */
module FlatExamples {
  import opened Wrappers
  import opened Bytes
  import opened BuilderModel
  import opened TableLemmas
  import opened Fields
  import opened Runs
  import opened Keeps
  import L = LobbyModel
  import B = ItemBreakModel

  /** A builder between two objects. */
  function Between(buf: seq<byte>, vtables: seq<nat>, minalign: nat): State {
    State(buf, vtables, [], 0, false, false, minalign, false, true, [])
  }

  /** A builder inside a table. */
  function Inside(buf: seq<byte>, vtables: seq<nat>, minalign: nat, fields: seq<FieldLoc>, max: nat): State {
    State(buf, vtables, fields, max, true, false, minalign, false, true, [])
  }

  lemma SmallLE(v: nat)
    requires v < 256
    ensures LE(v, 1) == [v] && LE(v, 2) == [v, 0] && LE(v, 4) == [v, 0, 0, 0] && LE(v, 8) == [v, 0, 0, 0, 0, 0, 0, 0]
  {
    assert LE(0, 0) == [] && LE(0, 1) == [0] && LE(0, 2) == [0, 0] && LE(0, 3) == [0, 0, 0];
    assert LE(0, 4) == [0, 0, 0, 0] && LE(0, 5) == [0, 0, 0, 0, 0] && LE(0, 6) == [0, 0, 0, 0, 0, 0];
    assert LE(0, 7) == [0, 0, 0, 0, 0, 0, 0];
  }

  lemma Padding(n: nat, k: nat, p: nat)
    requires k > 0 && p < k && (n + p) % k == 0
    ensures PaddingBytes(n, k) == p
  {
    hide PaddingBytes;
    PaddingLeast(n, k, p);
    var q := PaddingBytes(n, k);
    if q < p {
      AlignedPlus(n + p, k, n + q);
      assert Aligned(p - q, k);
      SmallMod(p - q, k);
    }
  }

  /** A scalar of less than 256 on an aligned buffer. */
  lemma PushSmall(s: State, v: nat, w: nat)
    requires (w == 1 || w == 4 || w == 8) && |s.buf| % w == 0 && v < 256
    ensures PushElement(s, v, w) == s.(buf := LE(v, w) + s.buf, minalign := Max(s.minalign, w))
  {
    hide LE, PaddingBytes;
    Padding(|s.buf|, w, 0);
    assert Zeros(0) + s.buf == s.buf;
  }

  // ------------------------------------------------------------- the slot

  const Guid: seq<byte> := [1, 0, 0, 0, 97, 0, 0, 0]
  const SlotFields: seq<byte> := [16, 0, 0, 0, 2, 0, 0, 0, 1, 0, 0, 0, 0, 0, 0, 0]
  const SlotVTable: seq<byte> := [10, 0, 20, 0, 4, 0, 12, 0, 8, 0]
  const SlotBytes: seq<byte> := SlotVTable + [10, 0, 0, 0] + SlotFields + Guid

  lemma GuidBytes()
    ensures CreateString(Initial, [97]) == (Between(Guid, [], 4), 8)
  {
    hide LE, PaddingBytes;
    Padding(2, 4, 2);
    SmallLE(1);
    var a := PushBytes(PushBytes(PreAlign(Initial, 2, 4), Zeros(1)), [97]);
    assert a.buf == [97, 0, 0, 0];
    PushSmall(a, 1, 4);
    assert LE(1, 4) + a.buf == Guid;
  }

  /** The item with the guid "a", the seed 1 and the count 2. */
  const TheItem := L.Item([97], 1, 2)

  lemma SlotAddsAre()
    ensures L.SlotAdds(TheItem, 8) == [Scalar(6, 8, 1, 0), Scalar(8, 4, 2, 0), Ref(4, 8)]
    ensures L.NoticeAdds(1, 48) == [Scalar(6, 4, 1, 0), Ref(4, 48)]
  {
    Pow256Values();
  }

  lemma AddSmall(s: State, id: nat, w: nat, v: nat)
    requires FieldId(id) && (w == 1 || w == 4 || w == 8) && |s.buf| % w == 0 && 0 < v < 256
    ensures AddOk(Scalar(id, w, v, 0), |s.buf|)
    ensures AddOne(s, Scalar(id, w, v, 0))
         == s.(buf := LE(v, w) + s.buf, minalign := Max(s.minalign, w),
               fields := s.fields + [FieldLoc(|s.buf| + w, id)], maxVoffset := Max(s.maxVoffset, id))
  {
    hide LE, PushElement;
    Pow256Values();
    PushSmall(s, v, w);
  }

  lemma AddClose(s: State, id: nat, off: nat)
    requires FieldId(id) && |s.buf| % 4 == 0 && 0 < off <= |s.buf| && |s.buf| - off < 252 && 4 <= s.minalign
    ensures AddOk(Ref(id, off), |s.buf|)
    ensures AddOne(s, Ref(id, off))
         == s.(buf := LE(|s.buf| - off + 4, 4) + s.buf,
               fields := s.fields + [FieldLoc(|s.buf| + 4, id)], maxVoffset := Max(s.maxVoffset, id))
  {
    hide LE, PushElement, PaddingBytes;
    Padding(|s.buf|, 4, 0);
    assert Align(s, 4) == s;
    PushSmall(s, |s.buf| - off + 4, 4);
  }

  lemma AddTwo(s: State, a: Add, b: Add)
    requires AddOk(a, |s.buf|) && AddOk(b, |s.buf|)
    ensures AddsOk([a, b], |s.buf|) && AddOk(b, |AddOne(s, a).buf|)
    ensures AddAll(s, [a, b]) == AddOne(AddOne(s, a), b)
  {
    hide AddOne;
    var adds := [a, b];
    assert adds[..1] == [a] && [a][..0] == [];
    assert AddAll(s, [a]) == AddOne(AddAll(s, []), a);
  }

  lemma AddThree(s: State, a: Add, b: Add, c: Add)
    requires AddOk(a, |s.buf|) && AddOk(b, |s.buf|) && AddOk(c, |s.buf|)
    ensures AddsOk([a, b, c], |s.buf|) && AddOk(b, |AddOne(s, a).buf|) && AddOk(c, |AddOne(AddOne(s, a), b).buf|)
    ensures AddAll(s, [a, b, c]) == AddOne(AddOne(AddOne(s, a), b), c)
  {
    hide AddOne;
    var adds := [a, b, c];
    assert adds[..2] == [a, b];
    AddTwo(s, a, b);
  }

  lemma SlotMembers(adds: seq<Add>)
    requires adds == [Scalar(6, 8, 1, 0), Scalar(8, 4, 2, 0), Ref(4, 8)]
    ensures AddsOk(adds, |Guid|)
    ensures AddAll(Inside(Guid, [], 4, [], 0), adds)
         == Inside(SlotFields + Guid, [], 8, [FieldLoc(16, 6), FieldLoc(20, 8), FieldLoc(24, 4)], 8)
  {
    hide LE, AddOne, AddAll;
    Pow256Values();
    SmallLE(1);
    SmallLE(2);
    SmallLE(16);
    var s0 := Inside(Guid, [], 4, [], 0);
    AddThree(s0, adds[0], adds[1], adds[2]);
    AddSmall(s0, 6, 8, 1);
    var s1 := AddOne(s0, adds[0]);
    AddSmall(s1, 8, 4, 2);
    var s2 := AddOne(s1, adds[1]);
    AddClose(s2, 4, 8);
    assert [16, 0, 0, 0] + s2.buf == SlotFields + Guid;
    assert adds == [adds[0], adds[1], adds[2]];
  }

  lemma TwoBytes(b: seq<byte>, i: nat, v: nat)
    requires i + 2 <= |b| && v < 256
    ensures WriteU16(b, i, v) == b[..i] + [v, 0] + b[i + 2..]
  {
    hide LE;
    SmallLE(v);
  }

  lemma SlotVTableIs(fields: seq<FieldLoc>)
    requires fields == [FieldLoc(16, 6), FieldLoc(20, 8), FieldLoc(24, 4)]
    ensures FieldsFit(fields, 8, 28) && BuildVTable(fields, 8, 28, 8) == SlotVTable
  {
    hide WriteU16;
    var z := Zeros(10);
    TwoBytes(z, 2, 20);
    var z1: seq<byte> := [0, 0, 20, 0, 0, 0, 0, 0, 0, 0];
    assert WriteU16(z, 2, 20) == z1;
    TwoBytes(z1, 0, 10);
    var h: seq<byte> := [10, 0, 20, 0, 0, 0, 0, 0, 0, 0];
    assert WriteU16(WriteU16(z, 2, 20), 0, 10) == h;
    TwoBytes(h, 6, 12);
    var h1: seq<byte> := [10, 0, 20, 0, 0, 0, 12, 0, 0, 0];
    TwoBytes(h1, 8, 8);
    var h2: seq<byte> := [10, 0, 20, 0, 0, 0, 12, 0, 8, 0];
    TwoBytes(h2, 4, 4);
    assert fields[..3] == fields && fields[..2][..1] == fields[..1] && fields[..1][..0] == [];
    assert FillVTable(h, fields[..1], 28) == h1;
    assert FillVTable(h, fields[..2], 28) == h2;
  }

  lemma SoffsetIs(table: seq<byte>, n: nat, use: nat)
    requires |table| >= 4 && n < 256 && use == |table| + n
    ensures WithSoffset(table, use) == LE(n, 4) + table[4..]
  {
    hide LE;
    Pow256Values();
    SmallMod(n, TWO_32);
  }

  /** A vtable like no other is remembered, right in front of the table. */
  lemma AttachNew(t: State, vt: seq<byte>, full: seq<byte>)
    requires |t.buf| >= 4 && |vt| < 256 && full == vt + t.buf && FindVTable(full, t.vtables, vt) == None
    ensures var r := AttachVTable(t, vt);
      && r.buf == vt + (LE(|vt|, 4) + t.buf[4..]) && r.vtables == t.vtables + [|full|]
      && r == t.(buf := r.buf, vtables := r.vtables, fields := [], maxVoffset := 0, nested := false)
  {
    SoffsetIs(t.buf, |vt|, |full|);
    hide LE, WithSoffset, FindVTable;
  }

  lemma SlotEnds(s: State)
    requires s == Inside(SlotFields + Guid, [], 8, [FieldLoc(16, 6), FieldLoc(20, 8), FieldLoc(24, 4)], 8)
    ensures FieldsFit(s.fields, 8, |s.buf|) && EndTable(s, 8) == (Between(SlotBytes, [38], 8), 28)
  {
    hide LE, PushElement, BuildVTable, AttachVTable;
    SmallLE(0);
    SmallLE(10);
    PushSmall(s, 0, 4);
    SlotVTableIs(s.fields);
    var t := PushElement(s, 0, 4);
    AttachNew(t, SlotVTable, SlotVTable + t.buf);
    assert t.buf[4..] == s.buf && SlotVTable + ([10, 0, 0, 0] + s.buf) == SlotBytes && s.vtables + [38] == [38];
  }

  lemma SlotTable(s: State)
    requires s == Between(Guid, [], 4)
    ensures Ready(s) && AddsOk(L.SlotAdds(TheItem, 8), |s.buf|)
    ensures CreateTable(s, L.SlotAdds(TheItem, 8)) == (Between(SlotBytes, [38], 8), 28)
  {
    hide LE, AddAll, EndTable;
    SlotAddsAre();
    SlotMembers(L.SlotAdds(TheItem, 8));
    SlotEnds(AddAll(StartTable(s), L.SlotAdds(TheItem, 8)));
  }

  // ----------------------------------------------------------- the whole packet

  const VectorBytes: seq<byte> := [1, 0, 0, 0, 16, 0, 0, 0, 0, 0]
  const NoticeVTable: seq<byte> := [8, 0, 12, 0, 4, 0, 8, 0]
  const NoticeFields: seq<byte> := [8, 0, 0, 0, 1, 0, 0, 0]
  const NoticeBytes: seq<byte> := NoticeVTable + [8, 0, 0, 0] + NoticeFields + VectorBytes + SlotBytes

  lemma VectorIs(s: State)
    requires |s.buf| == 38 && s == Between(s.buf, [38], 8)
    ensures OffsetsOk([28], |s.buf|) && CreateVector(s, [28]) == (Between(VectorBytes + s.buf, [38], 8), 48)
  {
    hide LE, PaddingBytes, PushElement, PushOffset, PreAlign;
    var n := s.(nested := true);
    VectorStarts(n);
    var a := n.(buf := [0, 0] + s.buf);
    FirstElement(a);
    var b := PushOffset(a, 28);
    assert [28][..0] == [] && PushOffsets(a, [28]) == PushOffsets(b, []) == b;
    SmallLE(1);
    PushSmall(b, 1, 4);
    assert [1, 0, 0, 0] + b.buf == VectorBytes + s.buf;
  }

  lemma VectorStarts(n: State)
    requires |n.buf| == 38 && n.minalign == 8
    ensures PreAlign(PreAlign(n, 4, 4), 4, 4) == n.(buf := [0, 0] + n.buf)
  {
    hide PaddingBytes;
    Padding(42, 4, 2);
    Padding(44, 4, 0);
    var a := PreAlign(n, 4, 4);
    assert Zeros(2) == [0, 0] && a.buf == [0, 0] + n.buf;
    assert Zeros(0) + a.buf == a.buf;
  }

  lemma FirstElement(a: State)
    requires |a.buf| == 40 && a.minalign == 8
    ensures PushOffset(a, 28) == a.(buf := [16, 0, 0, 0] + a.buf)
  {
    hide PaddingBytes, PushElement, LE;
    SmallLE(16);
    Padding(40, 4, 0);
    assert Zeros(0) + a.buf == a.buf;
    PushSmall(a, 16, 4);
  }

  lemma NoticeMembers(adds: seq<Add>, s: State)
    requires adds == [Scalar(6, 4, 1, 0), Ref(4, 48)] && s == Inside(VectorBytes + SlotBytes, [38], 8, [], 0)
    ensures AddsOk(adds, |s.buf|)
    ensures AddAll(s, adds)
         == Inside(NoticeFields + VectorBytes + SlotBytes, [38], 8, [FieldLoc(52, 6), FieldLoc(56, 4)], 6)
  {
    hide LE, AddOne, AddAll;
    Pow256Values();
    SmallLE(1);
    SmallLE(8);
    AddTwo(s, adds[0], adds[1]);
    AddSmall(s, 6, 4, 1);
    var s1 := AddOne(s, adds[0]);
    AddClose(s1, 4, 48);
    assert [8, 0, 0, 0] + s1.buf == NoticeFields + VectorBytes + SlotBytes;
    assert adds == [adds[0], adds[1]];
  }

  lemma NoticeVTableIs(fields: seq<FieldLoc>)
    requires fields == [FieldLoc(52, 6), FieldLoc(56, 4)]
    ensures FieldsFit(fields, 6, 60) && BuildVTable(fields, 6, 60, 48) == NoticeVTable
  {
    hide WriteU16;
    var z := Zeros(8);
    TwoBytes(z, 2, 12);
    var z1: seq<byte> := [0, 0, 12, 0, 0, 0, 0, 0];
    assert WriteU16(z, 2, 12) == z1;
    TwoBytes(z1, 0, 8);
    var h: seq<byte> := [8, 0, 12, 0, 0, 0, 0, 0];
    assert WriteU16(WriteU16(z, 2, 12), 0, 8) == h;
    TwoBytes(h, 6, 8);
    var h1: seq<byte> := [8, 0, 12, 0, 0, 0, 8, 0];
    TwoBytes(h1, 4, 4);
    assert fields[..1][..0] == [] && FillVTable(h, fields[..1], 60) == h1;
  }

  /** The remembered vtable, of ten bytes, is not this one. */
  lemma NotRemembered(b: seq<byte>)
    requires |b| >= 38 && b[|b| - 38] == 10
    ensures FindVTable(b, [38], NoticeVTable) == None
  {
    assert [38][1..] == [];
    assert FindVTable(b, [], NoticeVTable) == None;
    var part := b[|b| - 38..|b| - 30];
    assert part[0] == 10 && NoticeVTable[0] == 8;
  }

  lemma NoticeEnds(s: State)
    requires s == Inside(NoticeFields + VectorBytes + SlotBytes, [38], 8, [FieldLoc(52, 6), FieldLoc(56, 4)], 6)
    ensures FieldsFit(s.fields, 6, |s.buf|) && EndTable(s, 48) == (Between(NoticeBytes, [38, 68], 8), 60)
  {
    hide LE, PushElement, BuildVTable, AttachVTable, FindVTable;
    SmallLE(0);
    SmallLE(8);
    PushSmall(s, 0, 4);
    NoticeVTableIs(s.fields);
    var t := PushElement(s, 0, 4);
    NotRemembered(NoticeVTable + t.buf);
    AttachNew(t, NoticeVTable, NoticeVTable + t.buf);
    assert t.buf[4..] == s.buf && NoticeVTable + ([8, 0, 0, 0] + s.buf) == NoticeBytes;
    assert s.vtables + [68] == [38, 68];
  }

  lemma FinishIs(s: State)
    requires s == Between(NoticeBytes, [38, 68], 8)
    ensures Finish(s, 60, None, false).buf == [12, 0, 0, 0] + NoticeBytes
  {
    hide LE, PaddingBytes, PushElement;
    SmallLE(12);
    Padding(72, 8, 0);
    Padding(68, 4, 0);
    var a := s.(vtables := []);
    assert PreAlign(a, 4, 8) == a && PushBytes(a, []) == a && Align(a, 4) == a;
    PushSmall(a, 12, 4);
  }

  lemma SlotIs()
    ensures Ready(Initial) && L.BuildSlot(Initial, TheItem) == (Between(SlotBytes, [38], 8), 28)
  {
    L.InitialReady();
    GuidBytes();
    SlotTable(Between(Guid, [], 4));
    hide CreateTable, CreateString, L.SlotAdds;
    hide VTablesStored, VTablesDistinct, PoolStored, PoolDistinct, FieldsFit;
  }

  lemma OneSlot(s: State, item: L.Item)
    requires Ready(s)
    ensures L.BuildSlots(s, [item]) == (L.BuildSlot(s, item).0, [L.BuildSlot(s, item).1])
  {
    hide L.BuildSlot, WellFormed;
    assert [item][..0] == [] && L.BuildSlots(s, []) == (s, []);
    var o := L.BuildSlot(s, item).1;
    assert [] + [o] == [o];
  }

  lemma SlotsAre()
    ensures Ready(Initial) && L.BuildSlots(Initial, [TheItem]) == (Between(SlotBytes, [38], 8), [28])
  {
    SlotIs();
    OneSlot(Initial, TheItem);
    hide L.BuildSlot, L.BuildSlots;
  }

  lemma RootIs()
    ensures L.NoticeRoot([TheItem]) == (Between(NoticeBytes, [38, 68], 8), 60)
  {
    SlotsAre();
    var s := Between(SlotBytes, [38], 8);
    VectorIs(s);
    var v := Between(VectorBytes + SlotBytes, [38], 8);
    SlotAddsAre();
    CreateVectorKeeps(s, [28]);
    var adds := L.NoticeAdds(1, 48);
    NoticeMembers(adds, StartTable(v));
    NoticeEnds(AddAll(StartTable(v), adds));
    hide AddAll, EndTable, CreateVector, L.BuildSlots, L.NoticeAdds;
  }

  /**
   * The packet of that one item: the root offset, the root's vtable and table, the vector, the slot's vtable
   * and table, and the guid.
   */
  lemma NoticeExample()
    ensures L.NoticeInventory([TheItem])
         == [12, 0, 0, 0]
          + ([8, 0, 12, 0, 4, 0, 8, 0] + [8, 0, 0, 0] + [8, 0, 0, 0, 1, 0, 0, 0]
          + [1, 0, 0, 0, 16, 0, 0, 0, 0, 0]
          + ([10, 0, 20, 0, 4, 0, 12, 0, 8, 0] + [10, 0, 0, 0] + [16, 0, 0, 0, 2, 0, 0, 0, 1, 0, 0, 0, 0, 0, 0, 0]
          + [1, 0, 0, 0, 97, 0, 0, 0]))
  {
    RootIs();
    FinishIs(Between(NoticeBytes, [38, 68], 8));
    hide L.NoticeRoot, Finish;
  }

  // -------------------------------------------------------- the answer to a break

  const BreakVTable: seq<byte> := [12, 0, 20, 0, 7, 0, 8, 0, 12, 0, 16, 0]
  const BreakFields: seq<byte> := [1, 12, 0, 0, 0, 1, 0, 0, 0, 2, 0, 0, 0]
  const BreakBytes: seq<byte> := BreakVTable + [12, 0, 0, 0] + [0, 0, 0] + BreakFields + Guid

  lemma BreakAddsAre()
    ensures B.BreakAdds(true, 8, 1, 2) == [Scalar(10, 4, 2, 0), Scalar(8, 4, 1, 0), Ref(6, 8), Scalar(4, 1, 1, 0)]
  {
    Pow256Values();
  }

  lemma AddFour(s: State, a: Add, b: Add, c: Add, d: Add)
    requires AddOk(a, |s.buf|) && AddOk(b, |s.buf|) && AddOk(c, |s.buf|) && AddOk(d, |s.buf|)
    ensures AddsOk([a, b, c, d], |s.buf|) && AddOk(b, |AddOne(s, a).buf|)
    ensures AddOk(c, |AddOne(AddOne(s, a), b).buf|) && AddOk(d, |AddOne(AddOne(AddOne(s, a), b), c).buf|)
    ensures AddAll(s, [a, b, c, d]) == AddOne(AddOne(AddOne(AddOne(s, a), b), c), d)
  {
    hide AddOne;
    var adds := [a, b, c, d];
    assert adds[..3] == [a, b, c];
    AddThree(s, a, b, c);
  }

  lemma BreakMembers(adds: seq<Add>)
    requires adds == [Scalar(10, 4, 2, 0), Scalar(8, 4, 1, 0), Ref(6, 8), Scalar(4, 1, 1, 0)]
    ensures AddsOk(adds, |Guid|)
    ensures AddAll(Inside(Guid, [], 4, [], 0), adds)
         == Inside(BreakFields + Guid, [], 4,
                   [FieldLoc(12, 10), FieldLoc(16, 8), FieldLoc(20, 6), FieldLoc(21, 4)], 10)
  {
    hide LE, AddOne, AddAll;
    Pow256Values();
    SmallLE(1);
    SmallLE(2);
    SmallLE(12);
    var s0 := Inside(Guid, [], 4, [], 0);
    AddFour(s0, adds[0], adds[1], adds[2], adds[3]);
    AddSmall(s0, 10, 4, 2);
    var s1 := AddOne(s0, adds[0]);
    AddSmall(s1, 8, 4, 1);
    var s2 := AddOne(s1, adds[1]);
    AddClose(s2, 6, 8);
    var s3 := AddOne(s2, adds[2]);
    AddSmall(s3, 4, 1, 1);
    assert [1] + s3.buf == BreakFields + Guid;
    assert adds == [adds[0], adds[1], adds[2], adds[3]];
  }

  lemma BreakVTableIs(fields: seq<FieldLoc>)
    requires fields == [FieldLoc(12, 10), FieldLoc(16, 8), FieldLoc(20, 6), FieldLoc(21, 4)]
    ensures FieldsFit(fields, 10, 28) && BuildVTable(fields, 10, 28, 8) == BreakVTable
  {
    hide WriteU16, FillVTable;
    var z := Zeros(12);
    TwoBytes(z, 2, 20);
    var z1: seq<byte> := [0, 0, 20, 0, 0, 0, 0, 0, 0, 0, 0, 0];
    assert WriteU16(z, 2, 20) == z1;
    TwoBytes(z1, 0, 12);
    var h: seq<byte> := [12, 0, 20, 0, 0, 0, 0, 0, 0, 0, 0, 0];
    assert WriteU16(z1, 0, 12) == h;
    BreakSlots(fields, h);
  }

  lemma BreakSlots(fields: seq<FieldLoc>, h: seq<byte>)
    requires fields == [FieldLoc(12, 10), FieldLoc(16, 8), FieldLoc(20, 6), FieldLoc(21, 4)]
    requires h == [12, 0, 20, 0, 0, 0, 0, 0, 0, 0, 0, 0]
    ensures FieldsFit(fields, 10, 28) && FillVTable(h, fields, 28) == BreakVTable
  {
    hide WriteU16;
    TwoBytes(h, 10, 16);
    var h1: seq<byte> := [12, 0, 20, 0, 0, 0, 0, 0, 0, 0, 16, 0];
    TwoBytes(h1, 8, 12);
    var h2: seq<byte> := [12, 0, 20, 0, 0, 0, 0, 0, 12, 0, 16, 0];
    TwoBytes(h2, 6, 8);
    var h3: seq<byte> := [12, 0, 20, 0, 0, 0, 8, 0, 12, 0, 16, 0];
    TwoBytes(h3, 4, 7);
    assert fields[..1][..0] == [] && fields[..2][..1] == fields[..1] && fields[..3][..2] == fields[..2];
    assert FillVTable(h, fields[..1], 28) == h1;
    assert FillVTable(h, fields[..2], 28) == h2;
    assert FillVTable(h, fields[..3], 28) == h3;
  }

  lemma PaddedSoffset(s: State)
    requires |s.buf| == 21 && s.minalign == 4
    ensures PushElement(s, 0, 4) == s.(buf := [0, 0, 0, 0] + ([0, 0, 0] + s.buf))
  {
    hide LE, PaddingBytes;
    Padding(21, 4, 3);
    SmallLE(0);
    assert Zeros(3) == [0, 0, 0];
  }

  lemma BreakEnds(s: State)
    requires s == Inside(BreakFields + Guid, [], 4,
                         [FieldLoc(12, 10), FieldLoc(16, 8), FieldLoc(20, 6), FieldLoc(21, 4)], 10)
    ensures FieldsFit(s.fields, 10, |s.buf|) && EndTable(s, 8) == (Between(BreakBytes, [40], 4), 28)
  {
    hide LE, PushElement, BuildVTable, AttachVTable;
    SmallLE(12);
    PaddedSoffset(s);
    BreakVTableIs(s.fields);
    var t := PushElement(s, 0, 4);
    AttachNew(t, BreakVTable, BreakVTable + t.buf);
    assert t.buf[4..] == [0, 0, 0] + s.buf && s.vtables + [40] == [40];
    assert BreakVTable + ([12, 0, 0, 0] + ([0, 0, 0] + s.buf)) == BreakBytes;
  }

  lemma BreakRootIs()
    ensures B.BreakRoot(true, [97], 1, 2) == (Between(BreakBytes, [40], 4), 28)
  {
    L.InitialReady();
    GuidBytes();
    BreakAddsAre();
    var adds := B.BreakAdds(true, 8, 1, 2);
    BreakMembers(adds);
    var s := Between(Guid, [], 4);
    BreakEnds(AddAll(StartTable(s), adds));
    hide AddAll, EndTable, CreateString, B.BreakAdds;
    hide VTablesStored, VTablesDistinct, PoolStored, PoolDistinct, FieldsFit;
  }

  lemma BreakFinishIs(s: State)
    requires s == Between(BreakBytes, [40], 4)
    ensures Finish(s, 28, None, false).buf == [16, 0, 0, 0] + BreakBytes
  {
    hide LE, PaddingBytes, PushElement;
    SmallLE(16);
    Padding(44, 4, 0);
    Padding(40, 4, 0);
    var a := s.(vtables := []);
    assert PreAlign(a, 4, 4) == a && PushBytes(a, []) == a && Align(a, 4) == a;
    PushSmall(a, 16, 4);
  }

  /** The answer to a successful break of the item "a" for 1, removing 2. */
  lemma BreakExample()
    ensures B.ResponseItemBreak(true, [97], 1, 2)
         == [16, 0, 0, 0]
          + ([12, 0, 20, 0, 7, 0, 8, 0, 12, 0, 16, 0] + [12, 0, 0, 0] + [0, 0, 0]
          + [1, 12, 0, 0, 0, 1, 0, 0, 0, 2, 0, 0, 0] + [1, 0, 0, 0, 97, 0, 0, 0])
  {
    BreakRootIs();
    BreakFinishIs(Between(BreakBytes, [40], 4));
    hide B.BreakRoot, Finish;
  }
}
