/**
 * How large a FlexBuffer is, in terms of the calls or the tree it is made from. Every value on the stack
 * pays in advance for its slot and its type in the vector that takes it up.
 */
module FlexSizes {
  import opened Wrappers
  import opened Bytes
  import opened FlexFormat
  import opened FlexReader
  import opened FlexModel
  import opened FlexVectors
  import opened FlexRuns
  import opened FlexTrees

  // ----------------------------------------------------------------- one call

  lemma VectorSize(b: seq<byte>, els: seq<Value>, step: nat, typed: bool, keys: Option<Value>, force: BitWidth)
    requires AllWritten(els, |b|) && (keys.Some? ==> Written(keys.value, |b|))
    ensures |CreateVector(b, els, step, typed, keys, force).0|
         <= |b| + 7 + 8 * PrefixElems(keys) + 8 * |els| + if typed then 0 else |els|
  {
    hide LE, ElemBytes, TypeBytes, VectorWidth, Unsigned, CreateVector, AlignUp;
    var bw, front := VectorShape(b, els, step, typed, keys, force);
    AlignUpBounds(|b|, bw);
  }

  lemma StringSize(b: seq<byte>, s: seq<byte>)
    ensures |StringBlob(b, s)| <= |b| + |s| + 16
  {
    hide LE, PaddingBytes;
  }

  lemma MapSize(b: seq<byte>, els: seq<Value>, force: BitWidth)
    requires |els| % 2 == 0 && AllWritten(els, |b|)
    ensures 2 * |MapVectors(b, els, force).0| <= 2 * |b| + 92 + 17 * |els|
  {
    hide CreateVector, Sort, Pairs, Written;
    SortedWritten(b, els, |b|);
    PairsHalf(els);
    var ps := Sort(b, Pairs(els));
    VectorSize(b, Firsts(ps), 2, true, None, force);
    var keys := CreateVector(b, Firsts(ps), 2, true, None, force);
    WrittenLater(Seconds(ps), |b|, |keys.0|);
    VectorSize(keys.0, Seconds(ps), 2, false, Some(keys.1), force);
  }

  // -------------------------------------------------------------------- runs

  /** The bytes a call accounts for: its own, and the later slot of the value it pushes. */
  function CallCost(c: Command): nat {
    match c
    case AddKey(k) => |k| + 18
    case AddString(s) => |s| + 33
    case CloseVector(_) => 32
    case CloseMap(_) => 63
    case _ => 17
  }

  function Cost(cs: seq<Command>): nat {
    if cs == [] then 0 else CallCost(cs[0]) + Cost(cs[1..])
  }

  /** The buffer, and what the values on the stack have paid for. */
  function Paid(s: State): nat {
    |s.buf| + 17 * |s.stack|
  }

  lemma KeyCost(s: State, k: seq<byte>)
    ensures Paid(PushKey(s, k)) <= Paid(s) + |k| + 18
  {
    hide FindKey;
  }

  lemma StringCost(st: State, s: seq<byte>)
    ensures Paid(PushString(st, s)) <= Paid(st) + |s| + 33
  {
    hide FindString, StringBlob;
    StringSize(st.buf, s);
  }

  lemma CallPaid(s: State, c: Command)
    requires CanApply(s, c)
    ensures Paid(Apply(s, c)) <= Paid(s) + CallCost(c)
  {
    hide CreateVector, MapVectors, PushKey, PushString, AllWritten, WidthI, WidthU;
    match c
    case AddKey(k) => KeyCost(s, k);
    case AddString(t) => StringCost(s, t);
    case CloseVector(start) => VectorSize(s.buf, s.stack[start..], 1, false, None, s.forceMinBitWidth);
    case CloseMap(start) => MapSize(s.buf, s.stack[start..], s.forceMinBitWidth);
    case _ =>
  }

  lemma {:induction false} RunPaid(s: State, cs: seq<Command>)
    ensures Paid(Run(s, cs)) <= Paid(s) + Cost(cs)
    decreases |cs|
  {
    hide Paid, Apply, CanApply;
    if cs != [] && CanApply(s, cs[0]) {
      CallPaid(s, cs[0]);
      RunPaid(Apply(s, cs[0]), cs[1..]);
    }
  }

  lemma FinishSize(s: State)
    requires |s.stack| == 1 && AllWritten(s.stack, |s.buf|)
    ensures |Finish(s)| <= |s.buf| + 17
  {
    hide ElemWidth, AnyBytes, PaddingBytes, PackedType;
  }

  /** Calls that cost less than the address space leave one value that the finished buffer denotes alone. */
  lemma CallsDelivered(shareKeys: bool, shareStrings: bool, force: BitWidth, cs: seq<Command>, t: Flex)
    requires CanEvalAll([], cs) && EvalAll([], cs) == [t] && Cost(cs) + 17 < TWO_63
    ensures var s := Run(Init(shareKeys, shareStrings, force), cs);
      && |s.stack| == 1 && AllWritten(s.stack, |s.buf|) && |Finish(s)| <= Cost(cs) + 17
      && GetRoot(Finish(s)).Some? && forall x :: Denotes(Finish(s), GetRoot(Finish(s)).value, x) <==> x == t
  {
    hide Run, EvalAll, CanEvalAll, Denotes, GetRoot, Finish, Cost;
    RunPaid(Init(shareKeys, shareStrings, force), cs);
    RoundTrip(shareKeys, shareStrings, force, cs, t);
    FinishSize(Run(Init(shareKeys, shareStrings, force), cs));
  }

  // -------------------------------------------------------------------- trees

  /** A bound on the bytes of a tree. */
  function TreeSize(t: Flex): nat
    decreases t, 0
  {
    match t
    case FKey(k) => |k| + 18
    case FString(s) => |s| + 33
    case FVector(elems) => ElementsSize(elems, 0) + 32
    case FMap(keys, values) => KeysSize(keys, 0) + ElementsSize(values, 0) + 63
    case _ => 17
  }

  function ElementsSize(elems: seq<Flex>, i: nat): nat
    requires i <= |elems|
    decreases elems, 0, |elems| - i
  {
    if i == |elems| then 0 else TreeSize(elems[i]) + ElementsSize(elems, i + 1)
  }

  function KeysSize(keys: seq<seq<byte>>, i: nat): nat
    requires i <= |keys|
    decreases |keys| - i
  {
    if i == |keys| then 0 else |keys[i]| + 18 + KeysSize(keys, i + 1)
  }

  lemma {:induction false} CostConcat(a: seq<Command>, b: seq<Command>)
    ensures Cost(a + b) == Cost(a) + Cost(b)
    decreases |a|
  {
    if a == [] {
      assert a + b == b;
    } else {
      assert (a + b)[0] == a[0] && (a + b)[1..] == a[1..] + b;
      CostConcat(a[1..], b);
    }
  }

  lemma CostOne(c: Command)
    ensures Cost([c]) == CallCost(c)
  {
    assert [c][1..] == [];
  }

  lemma {:induction false} CallsCost(depth: nat, t: Flex)
    requires Buildable(t)
    ensures Cost(Calls(depth, t)) == TreeSize(t)
    decreases t, 0
  {
    hide Cost;
    match t
    case FVector(elems) =>
      ElementsCost(depth, elems, 0);
      CostConcat(ElementCalls(depth, elems, 0), [CloseVector(depth)]);
      CostOne(CloseVector(depth));
    case FMap(keys, values) =>
      MembersCost(depth, keys, values, 0);
      CostConcat(MemberCalls(depth, keys, values, 0), [CloseMap(depth)]);
      CostOne(CloseMap(depth));
    case _ => CostOne(Calls(depth, t)[0]);
  }

  lemma {:induction false} ElementsCost(depth: nat, elems: seq<Flex>, i: nat)
    requires i <= |elems| && forall j :: 0 <= j < |elems| ==> Buildable(elems[j])
    ensures Cost(ElementCalls(depth, elems, i)) == ElementsSize(elems, i)
    decreases elems, 0, |elems| - i
  {
    if i < |elems| {
      CallsCost(depth + i, elems[i]);
      ElementsCost(depth, elems, i + 1);
      CostConcat(Calls(depth + i, elems[i]), ElementCalls(depth, elems, i + 1));
      hide Cost, Buildable;
    }
  }

  lemma {:induction false} MembersCost(depth: nat, keys: seq<seq<byte>>, values: seq<Flex>, i: nat)
    requires i <= |keys| == |values| && forall j :: 0 <= j < |values| ==> Buildable(values[j])
    ensures Cost(MemberCalls(depth, keys, values, i)) == KeysSize(keys, i) + ElementsSize(values, i)
    decreases values, 0, |values| - i
  {
    if i < |values| {
      var key, calls := [AddKey(keys[i])], Calls(depth + 2 * i + 1, values[i]);
      CallsCost(depth + 2 * i + 1, values[i]);
      MembersCost(depth, keys, values, i + 1);
      CostConcat(key + calls, MemberCalls(depth, keys, values, i + 1));
      CostConcat(key, calls);
      CostOne(AddKey(keys[i]));
      hide Cost, Buildable;
    }
  }

  /** Every tree whose characters and values stay below the address space survives the round trip. */
  lemma EveryTreeDelivered(shareKeys: bool, shareStrings: bool, force: BitWidth, t: Flex)
    requires Buildable(t) && TreeSize(t) + 17 < TWO_63
    ensures var s := Built(shareKeys, shareStrings, force, t);
      && |s.stack| == 1 && AllWritten(s.stack, |s.buf|) && |Finish(s)| <= TreeSize(t) + 17
      && GetRoot(Finish(s)).Some? && forall x :: Denotes(Finish(s), GetRoot(Finish(s)).value, x) <==> x == t
  {
    hide Run, Denotes, GetRoot, Finish, CanEvalAll, EvalAll, Cost, TreeSize;
    CallsBuild([], t);
    assert [] + [t] == [t];
    CallsCost(0, t);
    CallsDelivered(shareKeys, shareStrings, force, Calls(0, t), t);
  }
}
