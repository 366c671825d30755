/**
 * A map that is wider than it need be: after a string of 213 characters, eight members whose keys are one
 * character long and whose values are that same string, shared.
 */
module FlexWiderMap {
  import opened Wrappers
  import opened Bytes
  import opened FlexFormat
  import opened FlexReader
  import opened FlexModel
  import opened FlexVectors
  import opened FlexOrder
  import opened FlexRuns
  import opened FlexLookup
  import opened FlexTrees
  import opened FlexWidths

  // ------------------------------------------------------------- the value vector

  const SharedValue := Value(1, FBT_STRING, 0)

  function SameStrings(): (els: seq<Value>)
    ensures |els| == 8 && forall i :: 0 <= i < 8 ==> els[i] == SharedValue
  {
    seq(8, _ => SharedValue)
  }

  lemma Unpadded(size: nat)
    ensures AlignUp(size, 0) == size
  {
    AlignUpBounds(size, 0);
  }

  /** Next to each other, the eight distances fit one byte; two slots apart, the last does not. */
  lemma OneByteFits()
    ensures AllWritten(SameStrings(), 240)
    ensures Fits(240, SameStrings(), 1, Some(Value(232, FBT_VECTOR_KEY, 0)), 0, 0)
    ensures !SlotsFit(SameStrings(), 240, 3, 2, 0)
  {
    hide AlignUp;
    Unpadded(240);
    assert !FitsSlot(240, 3 + 7 * 2, SameStrings()[7], 0);
  }

  lemma TwoBytesFit()
    requires AllWritten(SameStrings(), 240)
    ensures Fits(240, SameStrings(), 2, Some(Value(232, FBT_VECTOR_KEY, 0)), 0, 1)
  {
    hide AlignUp;
    AlignUpBounds(240, 1);
  }

  lemma ValueVectorWidth()
    ensures AllWritten(SameStrings(), 240)
    ensures var keys := Some(Value(232, FBT_VECTOR_KEY, 0));
      Narrowest(240, SameStrings(), keys, 0, 0) && VectorWidth(240, SameStrings(), 2, keys, 0) == 1
  {
    var els, keys := SameStrings(), Some(Value(232, FBT_VECTOR_KEY, 0));
    OneByteFits();
    TwoBytesFit();
    hide SlotsFit, FitsSlot, VectorWidth, Fits;
    VectorWidthIff(240, els, 1, keys, 0, 0);
    OwnSlotsNarrowest(240, els, keys, 0, 0);
    VectorWidthIff(240, els, 2, keys, 0, 1);
    NotOneByte(els, keys);
  }

  lemma NotOneByte(els: seq<Value>, keys: Option<Value>)
    requires els == SameStrings() && keys == Some(Value(232, FBT_VECTOR_KEY, 0)) && AllWritten(els, 240)
    requires !SlotsFit(els, 240, 3, 2, 0)
    ensures VectorWidth(240, els, 2, keys, 0) > 0
  {
    hide SlotsFit, FitsSlot, VectorWidth;
    VectorWidthIff(240, els, 2, keys, 0, 0);
  }

  // --------------------------------------------------------------- the map's state

  /** Behind 231 bytes, eight pairs: a key near the end of the buffer, and the string at its front. */
  predicate BeforeMap(s: State, start: nat) {
    && |s.buf| == 231 && s.forceMinBitWidth == 0 && |s.stack| == start + 16
    && forall i :: 0 <= i < 8 ==>
      IsNearKey(s.stack[start + 2 * i]) && s.stack[start + 2 * i + 1] == SharedValue
  }

  predicate IsNearKey(v: Value) {
    v.ftype == FBT_KEY && 200 <= v.u <= 231
  }

  lemma BeforeMapWritten(s: State, start: nat)
    requires BeforeMap(s, start)
    ensures AllWritten(s.stack[start..], 231)
  {
    var els := s.stack[start..];
    forall j | 0 <= j < 16
      ensures Written(els[j], 231)
    {
      if j % 2 == 0 {
        assert IsNearKey(s.stack[start + 2 * (j / 2)]);
      } else {
        assert s.stack[start + 2 * (j / 2) + 1] == SharedValue;
      }
    }
  }

  lemma {:induction false} PairsNear(els: seq<Value>, p: (Value, Value))
    requires |els| % 2 == 0 && p in Pairs(els)
    requires forall i :: 0 <= 2 * i < |els| ==> IsNearKey(els[2 * i]) && els[2 * i + 1] == SharedValue
    ensures IsNearKey(p.0) && p.1 == SharedValue
    decreases |els|
  {
    hide IsNearKey;
    if p == (els[0], els[1]) {
      assert IsNearKey(els[2 * 0]);
    } else {
      var rest := els[2..];
      forall i | 0 <= 2 * i < |rest|
        ensures IsNearKey(rest[2 * i]) && rest[2 * i + 1] == SharedValue
      {
        assert rest[2 * i] == els[2 * (i + 1)] && rest[2 * i + 1] == els[2 * (i + 1) + 1];
      }
      PairsNear(rest, p);
    }
  }

  /** Whatever the order of the keys, the sorted pairs are of that kind. */
  lemma SortedNear(s: State, start: nat)
    requires BeforeMap(s, start)
    ensures var ps := SortedPairs(s, start);
      && |ps| == 8 && Seconds(ps) == SameStrings() && forall i :: 0 <= i < 8 ==> IsNearKey(Firsts(ps)[i])
  {
    hide Sort, IsNearKey;
    var els := s.stack[start..];
    forall i | 0 <= 2 * i < |els|
      ensures IsNearKey(els[2 * i]) && els[2 * i + 1] == SharedValue
    {
      assert IsNearKey(s.stack[start + 2 * i]);
    }
    PairsHalf(els);
    var ps := SortedPairs(s, start);
    forall i | 0 <= i < |ps|
      ensures IsNearKey(ps[i].0) && ps[i].1 == SharedValue
    {
      assert ps[i] in ps;
      PairsNear(els, ps[i]);
    }
  }

  lemma NearKeysFit(ks: seq<Value>)
    requires |ks| == 8 && forall i :: 0 <= i < 8 ==> IsNearKey(ks[i])
    ensures AllWritten(ks, 231) && Fits(231, ks, 2, None, 0, 0)
  {
    hide AlignUp;
    Unpadded(231);
  }

  /** Where a typed vector begins and ends. */
  lemma TypedSize(b: seq<byte>, els: seq<Value>, force: BitWidth)
    requires AllWritten(els, |b|)
    ensures var r := CreateVector(b, els, 2, true, None, force); var bw := VectorWidth(|b|, els, 2, None, force);
      && r.1 == Value(AlignUp(|b|, bw) + ByteWidth(bw), FBT_VECTOR_KEY, bw)
      && |r.0| == AlignUp(|b|, bw) + ByteWidth(bw) + Times(|els|, bw)
  {
    hide LE, ElemBytes, TypeBytes, VectorWidth, CreateVector, AlignUp;
    var bw, front := VectorShape(b, els, 2, true, None, force);
  }

  lemma NearKeysWidth(ks: seq<Value>)
    requires |ks| == 8 && forall i :: 0 <= i < 8 ==> IsNearKey(ks[i])
    ensures AllWritten(ks, 231) && VectorWidth(231, ks, 2, None, 0) == 0
  {
    NearKeysFit(ks);
    hide VectorWidth, Fits, IsNearKey;
    VectorWidthIff(231, ks, 2, None, 0, 0);
  }

  /** The vector of keys takes one byte each and ends the buffer at 240. */
  lemma NearKeysVector(b: seq<byte>, ks: seq<Value>)
    requires |b| == 231 && |ks| == 8 && forall i :: 0 <= i < 8 ==> IsNearKey(ks[i])
    ensures AllWritten(ks, |b|)
    ensures var r := CreateVector(b, ks, 2, true, None, 0); |r.0| == 240 && r.1 == Value(232, FBT_VECTOR_KEY, 0)
  {
    NearKeysWidth(ks);
    hide CreateVector, VectorWidth, AllWritten;
    OneByteVector(b, ks);
  }

  lemma OneByteVector(b: seq<byte>, els: seq<Value>)
    requires AllWritten(els, |b|) && VectorWidth(|b|, els, 2, None, 0) == 0
    ensures var r := CreateVector(b, els, 2, true, None, 0);
      |r.0| == |b| + 1 + |els| && r.1 == Value(|b| + 1, FBT_VECTOR_KEY, 0)
  {
    hide CreateVector, VectorWidth, AlignUp;
    TypedSize(b, els, 0);
    Unpadded(|b|);
  }

  lemma KeyVectorIs(s: State, start: nat)
    requires BeforeMap(s, start)
    ensures AllWritten(s.stack[start..], |s.buf|)
    ensures var ks := KeyVector(s, start); |ks.0| == 240 && ks.1 == Value(232, FBT_VECTOR_KEY, 0)
  {
    BeforeMapWritten(s, start);
    SortedNear(s, start);
    hide SortedPairs, CreateVector, IsNearKey, AllWritten;
    NearKeysVector(s.buf, Firsts(SortedPairs(s, start)));
  }

  /** The width of the map is that of the vector of its values. */
  lemma MapWidth(s: State, start: nat)
    requires start <= |s.stack| && (|s.stack| - start) % 2 == 0 && AllWritten(s.stack[start..], |s.buf|)
    ensures var (ps, ks) := (SortedPairs(s, start), KeyVector(s, start));
      && AllWritten(Seconds(ps), |ks.0|)
      && EndMap(s, start).stack[start].minWidth
         == VectorWidth(|ks.0|, Seconds(ps), 2, Some(ks.1), s.forceMinBitWidth)
  {
    hide VectorWidth, ElemBytes, TypeBytes, LE, Sort, Written;
    SortedWritten(s.buf, s.stack[start..], |s.buf|);
    WrittenLater(Seconds(SortedPairs(s, start)), |s.buf|, |KeyVector(s, start).0|);
  }

  /** EndMap gives the values two bytes each, although one byte each would hold the map. */
  lemma EndMapIsWider(s: State, start: nat)
    requires BeforeMap(s, start)
    ensures AllWritten(s.stack[start..], |s.buf|) && CanApply(s, CloseMap(start))
    ensures var (ps, ks) := (SortedPairs(s, start), KeyVector(s, start));
      && AllWritten(Seconds(ps), |ks.0|)
      && EndMap(s, start).stack[start].minWidth == 1
      && Narrowest(|ks.0|, Seconds(ps), Some(ks.1), s.forceMinBitWidth, 0)
  {
    BeforeMapWritten(s, start);
    KeyVectorIs(s, start);
    SortedNear(s, start);
    hide Narrowest, VectorWidth, SortedPairs, KeyVector, EndMap, IsNearKey;
    MapWidth(s, start);
    ValueVectorWidth();
  }

  // ------------------------------------------------------------- a run that gets there

  function Same(s: seq<byte>): (ts: seq<Flex>)
    ensures |ts| == 8 && forall i :: 0 <= i < 8 ==> ts[i] == FString(s)
  {
    seq(8, _ => FString(s))
  }

  /** After the string and `k` members: 215 bytes of string, then two bytes for each key. */
  predicate Stage(st: State, s: seq<byte>, k: nat) {
    && !st.shareKeys && st.shareStrings && st.forceMinBitWidth == 0
    && |st.buf| == 215 + 2 * k && st.buf[1..215] == s + [0]
    && st.stringPool == [(1, 213)] && |st.stack| == 1 + 2 * k
    && forall i :: 0 <= i < k ==>
      st.stack[1 + 2 * i] == Value(215 + 2 * i, FBT_KEY, 0) && st.stack[1 + 2 * i + 1] == SharedValue
  }

  /** A string of that length takes a byte for its length, and one for its terminator. */
  lemma BlobIs(b: seq<byte>, s: seq<byte>)
    requires |s| == 213
    ensures var size := LE(213, 1); |size| == 1 && StringBlob(b, s) == b + size + s + [0]
  {
    hide LE;
    Unpadded(|b|);
    assert Align(b, 0) == b;
  }

  lemma FirstStage(s: seq<byte>)
    requires |s| == 213
    ensures Stage(Apply(Init(false, true, 0), AddString(s)), s, 0)
  {
    hide LE, StringBlob;
    BlobIs([], s);
    var b := StringBlob([], s);
    assert b[1..215] == s + [0];
  }

  lemma SharedStep(st: State, s: seq<byte>)
    requires |s| == 213 && st.shareStrings && st.stringPool == [(1, 213)]
    requires |st.buf| >= 215 && st.buf[1..215] == s + [0]
    ensures PushString(st, s) == Push(st, SharedValue)
  {
    hide LE, StringBlob;
    BlobIs(st.buf, s);
    var b := StringBlob(st.buf, s);
    var n := |st.buf| + 1;
    assert b[1..215] == s + [0];
    assert b[n..n + 214] == s + [0];
  }

  lemma StageStep(st: State, s: seq<byte>, key: Chars, k: nat)
    requires |s| == 213 && |key| == 1 && Stage(st, s, k)
    ensures Stage(PushString(PushKey(st, key), s), s, k + 1)
  {
    hide PushString;
    var mid := PushKey(st, key);
    assert mid.buf[1..215] == st.buf[1..215];
    SharedStep(mid, s);
  }

  lemma RunOne(st: State, c: Command, cs: seq<Command>)
    requires CanApply(st, c)
    ensures Run(st, [c] + cs) == Run(Apply(st, c), cs)
  {
    hide CanApply, Apply;
    assert ([c] + cs)[1..] == cs;
  }

  lemma MemberCallsSplit(s: seq<byte>, keys: seq<Chars>, i: nat)
    requires |keys| == 8 && i < 8
    ensures MemberCalls(1, keys, Same(s), i)
         == [AddKey(keys[i])] + ([AddString(s)] + MemberCalls(1, keys, Same(s), i + 1))
  {
    var same := Same(s);
    hide Same;
    assert same[i] == FString(s) && Calls(1 + 2 * i + 1, same[i]) == [AddString(s)];
  }

  /** The calls for one member come first. */
  lemma RunMember(st: State, s: seq<byte>, keys: seq<Chars>, i: nat)
    requires |keys| == 8 && i < 8
    ensures Run(st, MemberCalls(1, keys, Same(s), i))
         == Run(PushString(PushKey(st, keys[i]), s), MemberCalls(1, keys, Same(s), i + 1))
  {
    hide PushKey, PushString, Run;
    MemberCallsSplit(s, keys, i);
    hide MemberCalls, Same;
    var rest := MemberCalls(1, keys, Same(s), i + 1);
    RunOne(st, AddKey(keys[i]), [AddString(s)] + rest);
    RunOne(PushKey(st, keys[i]), AddString(s), rest);
  }

  lemma {:induction false} MembersStage(st: State, s: seq<byte>, keys: seq<Chars>, i: nat)
    requires |s| == 213 && |keys| == 8 && i <= 8 && (forall j :: 0 <= j < 8 ==> |keys[j]| == 1)
    requires Stage(st, s, i)
    ensures Stage(Run(st, MemberCalls(1, keys, Same(s), i)), s, 8)
    decreases 8 - i
  {
    hide Stage, PushKey, PushString, Same;
    if i < 8 {
      hide Run, MemberCalls;
      StageStep(st, s, keys[i], i);
      RunMember(st, s, keys, i);
      MembersStage(PushString(PushKey(st, keys[i]), s), s, keys, i + 1);
    }
  }

  lemma StageBeforeMap(st: State, s: seq<byte>)
    requires Stage(st, s, 8)
    ensures BeforeMap(st, 1)
  {
  }

  /** The calls for a string followed by a map from each key to that string, up to the end of the map. */
  function MapRun(s: seq<byte>, keys: seq<Chars>): seq<Command>
    requires |keys| == 8
  {
    [AddString(s)] + MemberCalls(1, keys, Same(s), 0)
  }

  /**
   * Sharing strings, these calls write a map of eight members two bytes wide, although one byte would do:
   * a string of 213 characters, then a map to it from any eight distinct keys of one character.
   */
  lemma WiderMapIsReached(s: seq<byte>, keys: seq<Chars>)
    requires |s| == 213 && |keys| == 8 && KeysSorted(keys) && AllNulFree(keys)
    requires forall j :: 0 <= j < 8 ==> |keys[j]| == 1
    ensures Leads([], MapRun(s, keys) + [CloseMap(1)], [FString(s), FMap(keys, Same(s))])
    ensures var st := Run(Init(false, true, 0), MapRun(s, keys));
      && BeforeMap(st, 1) && AllWritten(st.stack[1..], |st.buf|) && CanApply(st, CloseMap(1))
      && var (ps, ks) := (SortedPairs(st, 1), KeyVector(st, 1));
      && AllWritten(Seconds(ps), |ks.0|)
      && EndMap(st, 1).stack[1].minWidth == 1
      && Narrowest(|ks.0|, Seconds(ps), Some(ks.1), 0, 0)
  {
    hide BeforeMap, Stage, Run, MemberCalls, Leads, KeysSorted, AllNulFree, CanApply, Apply, Narrowest, EndMap,
      KeyVector, SortedPairs, AllWritten;
    var first := Init(false, true, 0);
    var st := Run(first, MapRun(s, keys));
    FirstStage(s);
    FirstCall(first, s, MemberCalls(1, keys, Same(s), 0));
    MembersStage(Apply(first, AddString(s)), s, keys, 0);
    StageBeforeMap(st, s);
    EndMapIsWider(st, 1);
    ForceKept(st);
    MapRunMeans(s, keys);
  }

  lemma FirstCall(st: State, s: seq<byte>, cs: seq<Command>)
    ensures CanApply(st, AddString(s)) && Run(st, [AddString(s)] + cs) == Run(Apply(st, AddString(s)), cs)
  {
    RunOne(st, AddString(s), cs);
  }

  lemma ForceKept(st: State)
    requires BeforeMap(st, 1)
    ensures st.forceMinBitWidth == 0 && |st.stack| == 17
  {
  }

  lemma MapRunMeans(s: seq<byte>, keys: seq<Chars>)
    requires |keys| == 8 && KeysSorted(keys) && AllNulFree(keys)
    ensures Leads([], MapRun(s, keys) + [CloseMap(1)], [FString(s), FMap(keys, Same(s))])
  {
    hide Leads, KeysSorted, AllNulFree, MemberCalls;
    var members := MemberCalls(1, keys, Same(s), 0) + [CloseMap(1)];
    LeadsOne([], AddString(s));
    MapBuilds([FString(s)], keys, Same(s));
    assert [] + [FString(s)] == [FString(s)];
    assert [FString(s)] + [FMap(keys, Same(s))] == [FString(s), FMap(keys, Same(s))];
    LeadsOn([], [AddString(s)], [FString(s)], members, [FString(s), FMap(keys, Same(s))]);
    assert [AddString(s)] + members == MapRun(s, keys) + [CloseMap(1)];
  }
}
