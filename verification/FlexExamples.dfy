/**
 * Finished buffers byte by byte: the types, widths and order that any other implementation of the format
 * expects.
 */
module FlexExamples {
  import opened Wrappers
  import opened Bytes
  import opened FlexFormat
  import opened FlexModel
  import opened FlexRuns

  function Finished(s: State): Option<seq<byte>> {
    if |s.stack| == 1 && AllWritten(s.stack, |s.buf|) then Some(Finish(s)) else None
  }

  function Built(cs: seq<Command>): Option<seq<byte>> {
    Finished(Run(Init(false, false, 0), cs))
  }

  lemma SmallLE(v: nat)
    requires v < 256
    ensures LE(v, 1) == [v]
  {
    assert LE(v / 256, 0) == [];
  }

  lemma RunEnds(s: State)
    ensures Run(s, []) == s
  {
  }

  lemma RunStep(s: State, c: Command, cs: seq<Command>)
    requires CanApply(s, c)
    ensures Run(s, [c] + cs) == Run(Apply(s, c), cs)
  {
    hide Apply, CanApply;
    assert ([c] + cs)[1..] == cs;
  }

  lemma NoPadding(n: nat)
    ensures PaddingBytes(n, 1) == 0 && Zeros(0) == []
  {
  }

  /** The end of a finished buffer: the root in one byte, its type, and the width 1. */
  lemma FinishedNarrow(s: State, v: Value)
    requires s.stack == [v] && Written(v, |s.buf|) && ElemWidth(v, |s.buf|, 0) == 0
    requires 0 <= v.u && (!IsInline(v.ftype) ==> |s.buf| - v.u < 256) && (IsInline(v.ftype) ==> v.u < 256)
    requires v.ftype < 64
    ensures Finished(s)
         == Some(s.buf + [if IsInline(v.ftype) then v.u else |s.buf| - v.u, v.minWidth + 4 * v.ftype, 1])
  {
    hide LE, FirstFit, PaddingBytes;
    NoPadding(|s.buf|);
    assert Align(s.buf, 0) == s.buf;
    NarrowSlot(|s.buf|, v);
    var packed := PackedType(StoredWidth(v, 0), v.ftype);
    assert packed == v.minWidth + 4 * v.ftype;
    assert Finish(s) == s.buf + AnyBytes(|s.buf|, v, 0) + [packed] + [1];
    var x := AnyBytes(|s.buf|, v, 0)[0];
    assert s.buf + [x] + [packed] + [1] == s.buf + [x, packed, 1];
  }

  /** One byte holds the scalar, or the distance to the object. */
  lemma NarrowSlot(size: nat, v: Value)
    requires IsInline(v.ftype) ==> 0 <= v.u < 256
    requires !IsInline(v.ftype) ==> 0 <= size - v.u < 256
    ensures AnyBytes(size, v, 0) == [if IsInline(v.ftype) then v.u else size - v.u]
  {
    hide LE;
    Pow256Values();
    SmallLE(if IsInline(v.ftype) then v.u else size - v.u);
  }

  lemma ScalarExamples()
    ensures Built([AddNull]) == Some([0, 0, 1])
    ensures Built([AddBool(true)]) == Some([1, 104, 1])
    ensures Built([AddInt(5)]) == Some([5, 4, 1])
    ensures Built([AddUInt(200)]) == Some([200, 8, 1])
  {
    var s := Init(false, false, 0);
    OneCall(AddNull, Value(0, 0, 0));
    OneCall(AddBool(true), Value(1, 26, 0));
    OneCall(AddInt(5), Value(5, 1, 0));
    OneCall(AddUInt(200), Value(200, 2, 0));
  }

  lemma OneCall(c: Command, v: Value)
    requires CanApply(Init(false, false, 0), c) && Apply(Init(false, false, 0), c) == Push(Init(false, false, 0), v)
    requires IsInline(v.ftype) && 0 <= v.u < 256 && v.minWidth == 0
    ensures Built([c]) == Some([v.u, 4 * v.ftype, 1])
  {
    hide Apply, CanApply, Run, Finished;
    var s := Init(false, false, 0);
    assert [c] + [] == [c];
    RunStep(s, c, []);
    RunEnds(Apply(s, c));
    FinishedNarrow(Apply(s, c), v);
    assert s.buf + [v.u, 4 * v.ftype, 1] == [v.u, 4 * v.ftype, 1];
  }

  // ----------------------------------------------------- keys, strings, vectors

  lemma FirstWidth(size: nat, slot: nat, u: nat)
    requires u <= size && size + slot - u < 256
    ensures FirstFit(size, slot, u, 0) == 0 && AlignUp(size, 0) == size
  {
    NoPadding(size);
  }

  /** An object as the root, less than 256 bytes before the end. */
  lemma FinishedObject(s: State, v: Value)
    requires s.stack == [v] && !IsInline(v.ftype) && v.ftype < 64 && 0 <= v.u <= |s.buf| && |s.buf| - v.u < 256
    ensures Finished(s) == Some(s.buf + [|s.buf| - v.u, v.minWidth + 4 * v.ftype, 1])
  {
    hide FirstFit, Finished;
    FirstWidth(|s.buf|, 0, v.u);
    FinishedNarrow(s, v);
  }

  lemma KeyRun()
    ensures var s := Run(Init(false, false, 0), [AddKey([97])]); s.buf == [97, 0] && s.stack == [Value(0, 4, 0)]
  {
    hide Run;
    var s := Init(false, false, 0);
    assert [AddKey([97])] + [] == [AddKey([97])];
    RunStep(s, AddKey([97]), []);
    RunEnds(Apply(s, AddKey([97])));
  }

  /** The key "a". */
  lemma KeyExample()
    ensures Built([AddKey([97])]) == Some([97, 0, 2, 16, 1])
  {
    KeyRun();
    hide Run, Finished;
    var s := Run(Init(false, false, 0), [AddKey([97])]);
    FinishedObject(s, Value(0, 4, 0));
    assert s.buf + [2, 16, 1] == [97, 0, 2, 16, 1];
  }

  lemma StringRun()
    ensures var s := Run(Init(false, false, 0), [AddString([104, 105])]);
      s.buf == [2, 104, 105, 0] && s.stack == [Value(1, 5, 0)]
  {
    hide Run, LE, StringBlob;
    var s := Init(false, false, 0);
    StringBytes([], [104, 105]);
    assert [AddString([104, 105])] + [] == [AddString([104, 105])];
    RunStep(s, AddString([104, 105]), []);
    RunEnds(Apply(s, AddString([104, 105])));
  }

  /** The string "hi": its length, its characters and the terminator, before the root. */
  lemma StringExample()
    ensures Built([AddString([104, 105])]) == Some([2, 104, 105, 0, 3, 20, 1])
  {
    StringRun();
    hide Run, Finished;
    var s := Run(Init(false, false, 0), [AddString([104, 105])]);
    FinishedObject(s, Value(1, 5, 0));
    assert s.buf + [3, 20, 1] == [2, 104, 105, 0, 3, 20, 1];
  }

  lemma StringBytes(b: seq<byte>, s: seq<byte>)
    requires |s| < 256
    ensures StringBlob(b, s) == b + [|s|] + s + [0]
  {
    hide LE, PaddingBytes;
    NoPadding(|b|);
    SmallLE(|s|);
    assert Align(b, 0) == b;
  }

  /** Two values in slots of one byte. */
  lemma TwoSlots(size: nat, v: Value, w: Value, x: byte, y: byte)
    requires AnyBytes(size, v, 0) == [x] && AnyBytes(size + 1, w, 0) == [y]
    ensures ElemBytes(size, [v, w], 0) == [x, y]
  {
    hide AnyBytes;
    var els := [v, w];
    assert els[1..] == [w] && [w][1..] == [];
    assert ElemBytes(size + 1, [w], 0) == [y] + ElemBytes(size + 2, [], 0);
  }

  lemma TwoTypes(v: Value, w: Value)
    requires v.ftype < 64 && w.ftype < 64
    ensures TypeBytes([v, w], 0) == [v.minWidth + 4 * v.ftype, w.minWidth + 4 * w.ftype]
  {
    OneType(v);
    OneType(w);
    hide PackedType, StoredWidth;
  }

  lemma OneType(v: Value)
    requires v.ftype < 64
    ensures PackedType(StoredWidth(v, 0), v.ftype) == v.minWidth + 4 * v.ftype
  {
  }

  lemma TwoWidth(size: nat, v: Value, w: Value, index: nat, step: nat)
    requires Written(v, size) && Written(w, size)
    requires ElemWidth(v, size, index) == 0 && ElemWidth(w, size, index + step) == 0
    ensures AllWritten([v, w], size) && ElemsWidth([v, w], size, index, step) == 0
  {
    hide ElemWidth;
    var els := [v, w];
    assert els[1..] == [w] && [w][1..] == [];
    assert AllWritten([w], size);
    assert ElemsWidth([w], size, index + step, step) == Wider(ElemWidth(w, size, index + step),
      ElemsWidth([], size, index + step + step, step));
  }

  lemma MinusOne(size: nat)
    ensures AnyBytes(size, Value(-1, 1, 0), 0) == [255]
  {
    hide LE;
    Pow256Values();
    SmallLE(255);
  }

  lemma VectorBytes()
    ensures CreateVector([], [Value(1, 1, 0), Value(-1, 1, 0)], 1, false, None, 0)
         == ([2, 1, 255, 4, 4], Value(1, 10, 0))
  {
    hide LE, ElemBytes, TypeBytes, ElemsWidth, AnyBytes, PaddingBytes;
    var v, w := Value(1, 1, 0), Value(-1, 1, 0);
    NarrowSlot(1, v);
    MinusOne(2);
    TwoSlots(1, v, w, 1, 255);
    TwoTypes(v, w);
    TwoWidth(0, v, w, 1, 1);
    NoPadding(0);
    SmallLE(2);
    assert Align([], 0) == [] && PrefixBytes(0, 2, None, 0) == [2];
    assert VectorWidth(0, [v, w], 1, None, 0) == 0;
    var body: seq<byte> := [2];
    assert [] + PrefixBytes(0, 2, None, 0) == body;
    assert body + ElemBytes(1, [v, w], 0) + TypeBytes([v, w], 0) == [2, 1, 255, 4, 4];
  }

  lemma VectorRun()
    ensures var s := Run(Init(false, false, 0), [AddInt(1), AddInt(-1), CloseVector(0)]);
      s.buf == [2, 1, 255, 4, 4] && s.stack == [Value(1, 10, 0)]
  {
    hide Run, CreateVector;
    var s := Init(false, false, 0);
    var s1 := Apply(s, AddInt(1));
    var s2 := Apply(s1, AddInt(-1));
    assert s2.stack[0..] == [Value(1, 1, 0), Value(-1, 1, 0)];
    VectorBytes();
    assert [AddInt(1), AddInt(-1), CloseVector(0)] == [AddInt(1)] + ([AddInt(-1)] + ([CloseVector(0)] + []));
    RunStep(s, AddInt(1), [AddInt(-1)] + ([CloseVector(0)] + []));
    RunStep(s1, AddInt(-1), [CloseVector(0)] + []);
    RunStep(s2, CloseVector(0), []);
    RunEnds(EndVector(s2, 0));
  }

  /** The vector of 1 and -1: length, elements and their types. */
  lemma VectorExample()
    ensures Built([AddInt(1), AddInt(-1), CloseVector(0)]) == Some([2, 1, 255, 4, 4, 4, 40, 1])
  {
    VectorRun();
    hide Run, Finished;
    var s := Run(Init(false, false, 0), [AddInt(1), AddInt(-1), CloseVector(0)]);
    FinishedObject(s, Value(1, 10, 0));
    assert s.buf + [4, 40, 1] == [2, 1, 255, 4, 4, 4, 40, 1];
  }

  // ---------------------------------------------------------------------- maps

  /** Sorting puts the key at 2, "a", before the key at 0, "b". */
  lemma PairsSorted(b: seq<byte>)
    requires b == [98, 0, 97, 0]
    ensures var (one, two) := (Value(1, 1, 0), Value(2, 1, 0));
      Sort(b, Pairs([Value(0, 4, 0), two, Value(2, 4, 0), one])) == [(Value(2, 4, 0), one), (Value(0, 4, 0), two)]
  {
    hide StrCmp;
    var p, q := (Value(0, 4, 0), Value(2, 1, 0)), (Value(2, 4, 0), Value(1, 1, 0));
    var els := [p.0, p.1, q.0, q.1];
    assert els[2..] == [q.0, q.1] && [q.0, q.1][2..] == [];
    assert Pairs([q.0, q.1]) == [q] + Pairs([]);
    assert Pairs(els) == [p] + Pairs([q.0, q.1]) == [p, q];
    assert [p, q][1..] == [q] && [q][1..] == [];
    assert Sort(b, [q]) == Insert(b, q, Sort(b, [])) == [q];
    assert KeyLess(b, q.0, p.0) by { Differ(b); }
    assert Insert(b, p, [q]) == [q] + Insert(b, p, []);
  }

  lemma Differ(b: seq<byte>)
    requires b == [98, 0, 97, 0]
    ensures StrCmp(b, 2, 0) < 0
  {
  }

  lemma KeysWidth(els: seq<Value>)
    requires els == [Value(2, 4, 0), Value(0, 4, 0)]
    ensures AllWritten(els, 4) && VectorWidth(4, els, 2, None, 0) == 0
  {
    hide ElemsWidth, FirstFit, AlignUp;
    FirstWidth(4, 1, 2);
    FirstWidth(4, 3, 0);
    TwoWidth(4, els[0], els[1], 1, 2);
    assert els == [els[0], els[1]];
  }

  lemma KeysBytes(b: seq<byte>)
    requires |b| == 4
    ensures AllWritten([Value(2, 4, 0), Value(0, 4, 0)], 4)
    ensures CreateVector(b, [Value(2, 4, 0), Value(0, 4, 0)], 2, true, None, 0)
         == (b + [2, 3, 6], Value(5, 14, 0))
  {
    var v, w := Value(2, 4, 0), Value(0, 4, 0);
    KeysWidth([v, w]);
    hide LE, ElemBytes, VectorWidth, AnyBytes, PaddingBytes;
    NarrowSlot(5, v);
    NarrowSlot(6, w);
    TwoSlots(5, v, w, 3, 6);
    NoPadding(4);
    SmallLE(2);
    assert Align(b, 0) == b && PrefixBytes(4, 2, None, 0) == [2];
    var body: seq<byte> := b + [2];
    assert body + ElemBytes(5, [v, w], 0) + [] == b + [2, 3, 6];
  }

  lemma ValuesBytes(b: seq<byte>)
    requires |b| == 7
    ensures CreateVector(b, [Value(1, 1, 0), Value(2, 1, 0)], 2, false, Some(Value(5, 14, 0)), 0)
         == (b + [2, 1, 2, 1, 2, 4, 4], Value(10, 9, 0))
  {
    hide LE, ElemBytes, TypeBytes, ElemsWidth, AnyBytes, PaddingBytes, FirstFit;
    var v, w := Value(1, 1, 0), Value(2, 1, 0);
    NarrowSlot(10, v);
    NarrowSlot(11, w);
    TwoSlots(10, v, w, 1, 2);
    TwoTypes(v, w);
    FirstWidth(7, 0, 5);
    TwoWidth(7, v, w, 3, 2);
    NoPadding(7);
    SmallLE(1);
    SmallLE(2);
    Pow256Values();
    assert Align(b, 0) == b && PrefixBytes(7, 2, Some(Value(5, 14, 0)), 0) == [2, 1, 2];
    assert VectorWidth(7, [v, w], 2, Some(Value(5, 14, 0)), 0) == 0;
    var body: seq<byte> := b + [2, 1, 2];
    assert body + ElemBytes(10, [v, w], 0) + TypeBytes([v, w], 0) == b + [2, 1, 2, 1, 2, 4, 4];
  }

  lemma MapBytes(b: seq<byte>)
    requires b == [98, 0, 97, 0]
    ensures var els := [Value(0, 4, 0), Value(2, 1, 0), Value(2, 4, 0), Value(1, 1, 0)];
      AllWritten(els, 4) && MapVectors(b, els, 0) == (b + [2, 3, 6, 2, 1, 2, 1, 2, 4, 4], Value(10, 9, 0))
  {
    hide CreateVector, Sort, Pairs;
    var els := [Value(0, 4, 0), Value(2, 1, 0), Value(2, 4, 0), Value(1, 1, 0)];
    var ps := [(Value(2, 4, 0), Value(1, 1, 0)), (Value(0, 4, 0), Value(2, 1, 0))];
    PairsSorted(b);
    KeysBytes(b);
    ValuesBytes(b + [2, 3, 6]);
    SortedWritten(b, els, 4);
    assert Firsts(ps) == [Value(2, 4, 0), Value(0, 4, 0)] && Seconds(ps) == [Value(1, 1, 0), Value(2, 1, 0)];
    assert b + [2, 3, 6] + [2, 1, 2, 1, 2, 4, 4] == b + [2, 3, 6, 2, 1, 2, 1, 2, 4, 4];
  }

  function TwoMembers(): seq<Command> {
    [AddKey([98])] + ([AddInt(2)] + ([AddKey([97])] + ([AddInt(1)] + ([CloseMap(0)] + []))))
  }

  lemma TwoKeys(s: State)
    requires s == Init(false, false, 0)
    ensures var s4 := PushInt(PushKey(PushInt(PushKey(s, [98]), 2), [97]), 1);
      && s4.buf == [98, 0, 97, 0] && s4.forceMinBitWidth == 0
      && s4.stack == [Value(0, 4, 0), Value(2, 1, 0), Value(2, 4, 0), Value(1, 1, 0)]
  {
  }

  lemma MapRun()
    ensures var s := Run(Init(false, false, 0), TwoMembers());
      s.buf == [98, 0, 97, 0, 2, 3, 6, 2, 1, 2, 1, 2, 4, 4] && s.stack == [Value(10, 9, 0)]
  {
    hide Run, MapVectors, PushKey, PushInt;
    var s := Init(false, false, 0);
    var s1 := PushKey(s, [98]);
    var s2 := PushInt(s1, 2);
    var s3 := PushKey(s2, [97]);
    var s4 := PushInt(s3, 1);
    TwoKeys(s);
    MapBytes(s4.buf);
    assert s4.stack[0..] == s4.stack;
    RunStep(s, AddKey([98]), [AddInt(2)] + ([AddKey([97])] + ([AddInt(1)] + ([CloseMap(0)] + []))));
    RunStep(s1, AddInt(2), [AddKey([97])] + ([AddInt(1)] + ([CloseMap(0)] + [])));
    RunStep(s2, AddKey([97]), [AddInt(1)] + ([CloseMap(0)] + []));
    RunStep(s3, AddInt(1), [CloseMap(0)] + []);
    RunStep(s4, CloseMap(0), []);
    RunEnds(EndMap(s4, 0));
  }

  /** The map {"a": 1, "b": 2}, added in the other order: characters, keys in order, values in the same order. */
  lemma MapExample()
    ensures Built(TwoMembers())
         == Some([98, 0, 97, 0, 2, 3, 6, 2, 1, 2, 1, 2, 4, 4, 4, 36, 1])
  {
    MapRun();
    hide Run, Finished;
    var s := Run(Init(false, false, 0), TwoMembers());
    FinishedObject(s, Value(10, 9, 0));
    assert s.buf + [4, 36, 1] == [98, 0, 97, 0, 2, 3, 6, 2, 1, 2, 1, 2, 4, 4, 4, 36, 1];
  }
}
