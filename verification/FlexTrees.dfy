/** Every value tree has a run of calls that builds it, so every tree survives the round trip. */
module FlexTrees {
  import opened Bytes
  import opened StringOrder
  import opened FlexFormat
  import opened FlexReader
  import opened FlexModel
  import opened FlexOrder
  import opened FlexRuns
  import opened FlexLookup

  /** 64-bit scalars, NUL-free keys, and the members of maps in the order of their distinct keys. */
  predicate Buildable(t: Flex) {
    match t
    case FInt(i) => -TWO_63 <= i < TWO_63
    case FUInt(u) => u < TWO_64
    case FKey(k) => NulFree(k)
    case FVector(elems) => forall i :: 0 <= i < |elems| ==> Buildable(elems[i])
    case FMap(keys, values) =>
      && |keys| == |values| && KeysSorted(keys) && AllNulFree(keys)
      && forall i :: 0 <= i < |values| ==> Buildable(values[i])
    case _ => true
  }

  /** The calls for one value on a stack of `depth` values. */
  function Calls(depth: nat, t: Flex): seq<Command>
    requires Buildable(t)
    decreases t, 1
  {
    match t
    case FNull => [AddNull]
    case FBool(x) => [AddBool(x)]
    case FInt(i) => [AddInt(i)]
    case FUInt(u) => [AddUInt(u)]
    case FKey(k) => [AddKey(k)]
    case FString(s) => [AddString(s)]
    case FVector(elems) => ElementCalls(depth, elems, 0) + [CloseVector(depth)]
    case FMap(keys, values) => MemberCalls(depth, keys, values, 0) + [CloseMap(depth)]
  }

  function ElementCalls(depth: nat, elems: seq<Flex>, i: nat): seq<Command>
    requires i <= |elems| && forall j :: 0 <= j < |elems| ==> Buildable(elems[j])
    decreases elems, 0, |elems| - i
  {
    if i == |elems| then [] else Calls(depth + i, elems[i]) + ElementCalls(depth, elems, i + 1)
  }

  function MemberCalls(depth: nat, keys: seq<Chars>, values: seq<Flex>, i: nat): seq<Command>
    requires i <= |keys| == |values| && forall j :: 0 <= j < |values| ==> Buildable(values[j])
    decreases values, 0, |values| - i
  {
    if i == |values| then []
    else [AddKey(keys[i])] + Calls(depth + 2 * i + 1, values[i]) + MemberCalls(depth, keys, values, i + 1)
  }

  /** The calls can be made on a stack `ts` and leave `end`. */
  predicate Leads(ts: seq<Flex>, cs: seq<Command>, end: seq<Flex>) {
    CanEvalAll(ts, cs) && EvalAll(ts, cs) == end
  }

  lemma {:induction false} LeadsOn(ts: seq<Flex>, a: seq<Command>, mid: seq<Flex>, b: seq<Command>, end: seq<Flex>)
    requires Leads(ts, a, mid) && Leads(mid, b, end)
    ensures Leads(ts, a + b, end)
    decreases |a|
  {
    hide CanEval, Eval;
    if a == [] {
      assert a + b == b;
    } else {
      LeadsOn(Eval(ts, a[0]), a[1..], mid, b, end);
      assert (a + b)[0] == a[0] && (a + b)[1..] == a[1..] + b;
    }
  }

  lemma LeadsOne(ts: seq<Flex>, c: Command)
    requires CanEval(ts, c)
    ensures Leads(ts, [c], Eval(ts, c))
  {
    hide CanEval, Eval;
    var next := Eval(ts, c);
    assert [c][1..] == [] && CanEvalAll(next, []) && EvalAll(next, []) == next;
  }

  lemma {:induction false} CallsBuild(ts: seq<Flex>, t: Flex)
    requires Buildable(t)
    ensures Leads(ts, Calls(|ts|, t), ts + [t])
    decreases t, 1
  {
    match t
    case FVector(elems) => VectorBuilds(ts, elems);
    case FMap(keys, values) => MapBuilds(ts, keys, values);
    case _ => LeadsOne(ts, Calls(|ts|, t)[0]);
  }

  lemma {:induction false} VectorBuilds(ts: seq<Flex>, elems: seq<Flex>)
    requires forall j :: 0 <= j < |elems| ==> Buildable(elems[j])
    ensures Leads(ts, ElementCalls(|ts|, elems, 0) + [CloseVector(|ts|)], ts + [FVector(elems)])
    decreases elems, 0
  {
    hide Leads, Buildable;
    ElementsBuild(ts, elems, 0);
    assert ts + elems[..0] == ts && elems[..|elems|] == elems;
    var all := ts + elems;
    assert all[|ts|..] == elems && all[..|ts|] == ts;
    LeadsOne(all, CloseVector(|ts|));
    LeadsOn(ts, ElementCalls(|ts|, elems, 0), all, [CloseVector(|ts|)], ts + [FVector(elems)]);
  }

  lemma {:induction false} ElementsBuild(ts: seq<Flex>, elems: seq<Flex>, i: nat)
    requires i <= |elems| && forall j :: 0 <= j < |elems| ==> Buildable(elems[j])
    ensures Leads(ts + elems[..i], ElementCalls(|ts|, elems, i), ts + elems)
    decreases elems, 0, |elems| - i
  {
    hide Leads, Buildable, Calls;
    var now := ts + elems[..i];
    if i == |elems| {
      assert now == ts + elems;
      NoCalls(now);
    } else {
      CallsBuild(now, elems[i]);
      ElementsBuild(ts, elems, i + 1);
      assert now + [elems[i]] == ts + elems[..i + 1];
      LeadsOn(now, Calls(|ts| + i, elems[i]), ts + elems[..i + 1], ElementCalls(|ts|, elems, i + 1), ts + elems);
    }
  }

  /** Keys and values in turn, up to the `i`th. */
  function Interleaved(keys: seq<Chars>, values: seq<Flex>, i: nat): (r: seq<Flex>)
    requires i <= |keys| == |values|
    ensures |r| == 2 * i
  {
    if i == 0 then [] else Interleaved(keys, values, i - 1) + [FKey(keys[i - 1]), values[i - 1]]
  }

  function Zip(keys: seq<Chars>, values: seq<Flex>, i: nat): (r: seq<(Chars, Flex)>)
    requires i <= |keys| == |values|
    ensures |r| == i && forall j :: 0 <= j < i ==> r[j] == (keys[j], values[j])
  {
    seq(i, j requires 0 <= j < i => (keys[j], values[j]))
  }

  lemma {:induction false} MembersConcat(ts: seq<Flex>, k: Chars, v: Flex)
    requires Alternates(ts)
    ensures Alternates(ts + [FKey(k), v]) && Members(ts + [FKey(k), v]) == Members(ts) + [(k, v)]
  {
    var all := ts + [FKey(k), v];
    if ts == [] {
      assert all[2..] == [];
    } else {
      MembersConcat(ts[2..], k, v);
      assert all[2..] == ts[2..] + [FKey(k), v];
    }
  }

  lemma {:induction false} InterleavedMembers(keys: seq<Chars>, values: seq<Flex>, i: nat)
    requires i <= |keys| == |values|
    ensures Alternates(Interleaved(keys, values, i)) && Members(Interleaved(keys, values, i)) == Zip(keys, values, i)
    decreases i
  {
    if i > 0 {
      InterleavedMembers(keys, values, i - 1);
      MembersConcat(Interleaved(keys, values, i - 1), keys[i - 1], values[i - 1]);
      assert Zip(keys, values, i) == Zip(keys, values, i - 1) + [(keys[i - 1], values[i - 1])];
    }
  }

  /** Members already in order stay as they are. */
  lemma {:induction false} SortKeeps(ms: seq<(Chars, Flex)>)
    requires Sorted(ms)
    ensures SortMembers(ms) == ms
  {
    hide StringLessThan;
    if ms != [] {
      SortKeeps(ms[1..]);
      if |ms| > 1 {
        IncomparableIsEqual(ms[0].0, ms[1].0);
      }
      assert ms == [ms[0]] + ms[1..];
    }
  }

  lemma SortedDistinct(ms: seq<(Chars, Flex)>)
    requires Sorted(ms)
    ensures Distinct(ms)
  {
    hide StringLessThan;
    forall i, j | 0 <= i < j < |ms|
      ensures ms[i].0 != ms[j].0
    {
      IncomparableIsEqual(ms[i].0, ms[j].0);
    }
  }

  lemma ZipIsMap(keys: seq<Chars>, values: seq<Flex>)
    requires |keys| == |values| && KeysSorted(keys)
    ensures Distinct(Zip(keys, values, |keys|)) && MapOf(Zip(keys, values, |keys|)) == FMap(keys, values)
  {
    hide StringLessThan, SortMembers;
    var ms := Zip(keys, values, |keys|);
    assert Sorted(ms);
    SortKeeps(ms);
    SortedDistinct(ms);
    assert Firsts(ms) == keys && Seconds(ms) == values;
  }

  lemma {:induction false} MapBuilds(ts: seq<Flex>, keys: seq<Chars>, values: seq<Flex>)
    requires |keys| == |values| && KeysSorted(keys) && AllNulFree(keys)
    requires forall j :: 0 <= j < |values| ==> Buildable(values[j])
    ensures Leads(ts, MemberCalls(|ts|, keys, values, 0) + [CloseMap(|ts|)], ts + [FMap(keys, values)])
    decreases values, 0
  {
    hide Leads, Buildable, KeysSorted, AllNulFree, MapOf, Members, Alternates, Distinct;
    MembersBuild(ts, keys, values, 0);
    assert ts + Interleaved(keys, values, 0) == ts;
    var inner := Interleaved(keys, values, |keys|);
    var all := ts + inner;
    assert all[|ts|..] == inner && all[..|ts|] == ts;
    InterleavedMembers(keys, values, |keys|);
    ZipIsMap(keys, values);
    LeadsOne(all, CloseMap(|ts|));
    LeadsOn(ts, MemberCalls(|ts|, keys, values, 0), all, [CloseMap(|ts|)], ts + [FMap(keys, values)]);
  }

  lemma {:induction false} MembersBuild(ts: seq<Flex>, keys: seq<Chars>, values: seq<Flex>, i: nat)
    requires i <= |keys| == |values| && AllNulFree(keys)
    requires forall j :: 0 <= j < |values| ==> Buildable(values[j])
    ensures Leads(ts + Interleaved(keys, values, i), MemberCalls(|ts|, keys, values, i),
                  ts + Interleaved(keys, values, |keys|))
    decreases values, 0, |values| - i
  {
    hide Leads, Buildable, Calls, NulFree;
    if i < |keys| {
      var now, end := ts + Interleaved(keys, values, i), ts + Interleaved(keys, values, |keys|);
      var calls := Calls(|ts| + 2 * i + 1, values[i]);
      CallsBuild(now + [FKey(keys[i])], values[i]);
      MembersBuild(ts, keys, values, i + 1);
      MemberBuilds(now, keys[i], values[i], calls);
      assert now + [FKey(keys[i]), values[i]] == ts + Interleaved(keys, values, i + 1);
      LeadsOn(now, [AddKey(keys[i])] + calls, now + [FKey(keys[i]), values[i]],
              MemberCalls(|ts|, keys, values, i + 1), end);
    } else {
      NoCalls(ts + Interleaved(keys, values, i));
    }
  }

  lemma NoCalls(ts: seq<Flex>)
    ensures Leads(ts, [], ts)
  {
  }

  lemma MemberBuilds(now: seq<Flex>, k: Chars, v: Flex, calls: seq<Command>)
    requires NulFree(k) && Leads(now + [FKey(k)], calls, now + [FKey(k)] + [v])
    ensures Leads(now, [AddKey(k)] + calls, now + [FKey(k), v])
  {
    hide Leads;
    LeadsOne(now, AddKey(k));
    LeadsOn(now, [AddKey(k)], now + [FKey(k)], calls, now + [FKey(k)] + [v]);
    assert now + [FKey(k)] + [v] == now + [FKey(k), v];
  }

  /** The finished buffer of the calls for a tree. */
  function Built(shareKeys: bool, shareStrings: bool, force: BitWidth, t: Flex): State
    requires Buildable(t)
  {
    Run(Init(shareKeys, shareStrings, force), Calls(0, t))
  }

  /**
   * For every tree of nulls, booleans, integers, strings, keys, vectors and maps, whatever is shared:
   * building it, finishing and reading from the root gives back the same tree and no other.
   */
  lemma EveryTreeRoundTrips(shareKeys: bool, shareStrings: bool, force: BitWidth, t: Flex)
    requires Buildable(t) && |Built(shareKeys, shareStrings, force, t).buf| < TWO_63
    ensures var s := Built(shareKeys, shareStrings, force, t);
      && |s.stack| == 1 && AllWritten(s.stack, |s.buf|)
      && (|Finish(s)| < TWO_63 ==>
            GetRoot(Finish(s)).Some? && forall x :: Denotes(Finish(s), GetRoot(Finish(s)).value, x) <==> x == t)
  {
    hide Run, Denotes, GetRoot, Finish, CanEvalAll, EvalAll;
    CallsBuild([], t);
    assert [] + [t] == [t];
    RoundTrip(shareKeys, shareStrings, force, Calls(0, t), t);
  }
}
