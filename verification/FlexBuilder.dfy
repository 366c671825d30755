/**
 * `flexbuffers::Builder`: the object that writes a FlexBuffer, with the loops of
 * Common/library/flatbuffers/flexbuffers.h. Every method has the effect of the function of the same
 * meaning in FlexModel.
 */
module FlexBuilderModule {
  import opened Wrappers
  import opened Bytes
  import opened FlexFormat
  import opened FlexReader
  import M = FlexModel
  import opened FlexOrder
  import opened FlexRuns

  // ------------------------------------------------- every other stack element

  /** The elements a loop from `i` with that step visits. */
  function Every(stack: seq<Value>, i: nat, step: nat): seq<Value>
    requires step >= 1
    decreases |stack| - i
  {
    if i >= |stack| then [] else [stack[i]] + Every(stack, i + step, step)
  }

  lemma {:induction false} EveryOne(stack: seq<Value>, i: nat)
    requires i <= |stack|
    ensures Every(stack, i, 1) == stack[i..]
    decreases |stack| - i
  {
    if i < |stack| {
      EveryOne(stack, i + 1);
    }
  }

  lemma {:induction false} EveryWritten(stack: seq<Value>, i: nat, step: nat, size: nat)
    requires step >= 1 && forall j :: i <= j < |stack| ==> M.Written(stack[j], size)
    ensures M.AllWritten(Every(stack, i, step), size)
    decreases |stack| - i
  {
    if i < |stack| {
      EveryWritten(stack, i + step, step, size);
    }
  }

  /** Keys and values side by side again. */
  function Flat(ps: seq<(Value, Value)>): (r: seq<Value>)
    ensures |r| == 2 * |ps|
  {
    if ps == [] then [] else [ps[0].0, ps[0].1] + Flat(ps[1..])
  }

  lemma {:induction false} EveryShift(front: seq<Value>, rest: seq<Value>, i: nat, step: nat)
    requires step >= 1
    ensures Every(front + rest, |front| + i, step) == Every(rest, i, step)
    decreases |rest| - i
  {
    if i < |rest| {
      EveryShift(front, rest, i + step, step);
    }
  }

  lemma EveryPair(x: Value, y: Value, rest: seq<Value>)
    ensures Every([x, y] + rest, 0, 2) == [x] + Every(rest, 0, 2)
    ensures Every([x, y] + rest, 1, 2) == [y] + Every(rest, 1, 2)
  {
    var all := [x, y] + rest;
    EveryShift([x, y], rest, 0, 2);
    EveryShift([x, y], rest, 1, 2);
    assert all[0] == x && all[1] == y;
  }

  lemma {:induction false} EveryOther(ps: seq<(Value, Value)>)
    ensures Every(Flat(ps), 0, 2) == M.Firsts(ps) && Every(Flat(ps), 1, 2) == M.Seconds(ps)
    decreases |ps|
  {
    if ps != [] {
      EveryOther(ps[1..]);
      EveryPair(ps[0].0, ps[0].1, Flat(ps[1..]));
      hide Every;
      assert M.Firsts(ps) == [ps[0].0] + M.Firsts(ps[1..]);
      assert M.Seconds(ps) == [ps[0].1] + M.Seconds(ps[1..]);
    }
  }

  lemma {:induction false} FlatWritten(b: seq<byte>, ps: seq<(Value, Value)>, size: nat)
    requires M.AllWritten(M.Firsts(ps), size) && M.AllWritten(M.Seconds(ps), size)
    ensures M.AllWritten(Flat(ps), size)
    decreases |ps|
  {
    if ps != [] {
      var f, s := M.Firsts(ps), M.Seconds(ps);
      assert M.Written(f[0], size) && M.Written(s[0], size);
      assert M.Firsts(ps[1..]) == f[1..] && M.Seconds(ps[1..]) == s[1..];
      FlatWritten(b, ps[1..], size);
    }
  }

  lemma NothingSorted(b: seq<byte>)
    ensures KeysReadable(b, []) && KeyInOrder(b, []) && DistinctKeys(b, [])
  {
  }

  lemma WrittenGrows(v: Value, size: nat, size': nat)
    requires M.Written(v, size) && size <= size'
    ensures M.Written(v, size')
  {
  }

  /** Writing the low bytes of a value is writing its residue. */
  lemma LowBytes(x: nat, w: nat)
    ensures LE(Unsigned(x, w), w) == LE(x, w)
  {
    FromLEofLE(x, w);
    LEofFromLE(LE(x, w));
  }

  class Builder {
    var buf: seq<byte>
    var stack: seq<Value>
    var keyPool: seq<nat>
    var stringPool: seq<(nat, nat)>
    var forceMinBitWidth: BitWidth
    var finished: bool
    var hasDuplicateKeys: bool
    const shareKeys: bool
    const shareStrings: bool

    function Abs(): M.State
      reads this
    {
      M.State(buf, stack, keyPool, stringPool, shareKeys, shareStrings, forceMinBitWidth)
    }

    constructor (shareKeys: bool, shareStrings: bool)
      ensures Abs() == M.Init(shareKeys, shareStrings, 0) && !finished && !hasDuplicateKeys
    {
      buf, stack, keyPool, stringPool := [], [], [], [];
      forceMinBitWidth := 0;
      finished, hasDuplicateKeys := false, false;
      this.shareKeys := shareKeys;
      this.shareStrings := shareStrings;
    }

    method ForceMinimumBitWidth(bw: BitWidth)
      modifies this`forceMinBitWidth
      ensures Abs() == old(Abs()).(forceMinBitWidth := bw)
    {
      forceMinBitWidth := bw;
    }

    method Null()
      modifies this`stack
      ensures Abs() == M.PushNull(old(Abs()))
    {
      stack := stack + [Value(0, FBT_NULL, 0)];
    }

    method Bool(x: bool)
      modifies this`stack
      ensures Abs() == M.PushBool(old(Abs()), x)
    {
      stack := stack + [Value(if x then 1 else 0, FBT_BOOL, 0)];
    }

    method Int(i: int)
      modifies this`stack
      ensures Abs() == M.PushInt(old(Abs()), i)
    {
      stack := stack + [Value(i, FBT_INT, WidthI(i))];
    }

    method UInt(u: nat)
      modifies this`stack
      ensures Abs() == M.PushUInt(old(Abs()), u)
    {
      stack := stack + [Value(u, FBT_UINT, WidthU(u))];
    }

    method Align(bw: BitWidth) returns (byteWidth: nat)
      modifies this`buf
      ensures buf == M.Align(old(buf), bw) && byteWidth == ByteWidth(bw)
    {
      byteWidth := ByteWidth(bw);
      buf := buf + Zeros(PaddingBytes(|buf|, byteWidth));
    }

    method WriteBytes(s: seq<byte>)
      modifies this`buf
      ensures buf == old(buf) + s
    {
      buf := buf + s;
    }

    /** A 64-bit value in that many bytes, least significant first. */
    method Write(x: int, byteWidth: nat)
      modifies this`buf
      ensures buf == old(buf) + LE(Unsigned(x, byteWidth), byteWidth)
    {
      buf := buf + LE(Unsigned(x, byteWidth), byteWidth);
    }

    method WriteAny(v: Value, bw: BitWidth)
      modifies this`buf
      ensures buf == old(buf) + M.AnyBytes(old(|buf|), v, bw)
    {
      if IsInline(v.ftype) {
        Write(v.u, ByteWidth(bw));
      } else {
        Write(|buf| - v.u, ByteWidth(bw));
      }
    }

    /** The search of the pool for the key at `p`. */
    method PooledKey(p: nat) returns (found: Option<nat>)
      ensures found == M.FindKey(buf, keyPool, p)
    {
      hide M.StrCmp;
      var i := 0;
      while i < |keyPool|
        invariant i <= |keyPool|
        invariant M.FindKey(buf, keyPool[i..], p) == M.FindKey(buf, keyPool, p)
      {
        if M.StrCmp(buf, keyPool[i], p) == 0 {
          return Some(keyPool[i]);
        }
        assert keyPool[i..][1..] == keyPool[i + 1..];
        i := i + 1;
      }
      return None;
    }

    /** The key is written, compared with those in the pool, and removed again if it is shared. */
    method Key(k: seq<byte>) returns (sloc: nat)
      modifies this`buf, this`stack, this`keyPool
      ensures Abs() == M.PushKey(old(Abs()), k)
      ensures stack == old(stack) + [Value(sloc, FBT_KEY, 0)]
    {
      hide M.FindKey;
      sloc := |buf|;
      WriteBytes(k + [0]);
      assert buf == old(buf) + k + [0];
      if shareKeys {
        var it := PooledKey(sloc);
        if it.Some? {
          buf := buf[..sloc];
          sloc := it.value;
        } else {
          keyPool := keyPool + [sloc];
        }
      }
      stack := stack + [Value(sloc, FBT_KEY, 0)];
    }

    method PooledString(x: (nat, nat)) returns (found: Option<nat>)
      ensures found == M.FindString(buf, stringPool, x)
    {
      hide M.SameString;
      var i := 0;
      while i < |stringPool|
        invariant i <= |stringPool|
        invariant M.FindString(buf, stringPool[i..], x) == M.FindString(buf, stringPool, x)
      {
        if M.SameString(buf, stringPool[i], x) {
          return Some(stringPool[i].0);
        }
        assert stringPool[i..][1..] == stringPool[i + 1..];
        i := i + 1;
      }
      return None;
    }

    /** CreateBlob with a terminator; the value is pushed. */
    method CreateBlob(s: seq<byte>) returns (sloc: nat)
      modifies this`buf, this`stack
      ensures buf == M.StringBlob(old(buf), s) && sloc == |buf| - |s| - 1
      ensures stack == old(stack) + [Value(sloc, FBT_STRING, WidthU(|s|))]
    {
      hide LE, PaddingBytes;
      var bw := WidthU(|s|);
      var byteWidth := Align(bw);
      LowBytes(|s|, byteWidth);
      Write(|s|, byteWidth);
      sloc := |buf|;
      WriteBytes(s + [0]);
      stack := stack + [Value(sloc, FBT_STRING, bw)];
      assert buf == M.StringBlob(old(buf), s);
    }

    method String(s: seq<byte>) returns (sloc: nat)
      modifies this`buf, this`stack, this`stringPool
      ensures Abs() == M.PushString(old(Abs()), s)
      ensures stack == old(stack) + [Value(sloc, FBT_STRING, WidthU(|s|))]
    {
      var resetTo := |buf|;
      sloc := CreateBlob(s);
      BlobIsLonger(old(buf), s);
      hide M.FindString, M.StringBlob;
      if shareStrings {
        var it := PooledString((sloc, |s|));
        if it.Some? {
          buf := buf[..resetTo];
          sloc := it.value;
          stack := stack[..|stack| - 1] + [stack[|stack| - 1].(u := sloc)];
        } else {
          stringPool := stringPool + [(sloc, |s|)];
        }
      }
    }

    /** ElemWidth: the loop over the four widths. */
    static method ElemWidth(v: Value, size: nat, index: nat) returns (bw: BitWidth)
      requires M.Written(v, size)
      ensures bw == FlexFormat.ElemWidth(v, size, index)
    {
      hide OffsetAt;
      if IsInline(v.ftype) {
        return v.minWidth;
      }
      bw := 0;
      while true
        invariant FirstFit(size, index, v.u, bw) == FirstFit(size, index, v.u, 0)
        decreases 3 - bw
      {
        if WidthU(OffsetAt(size, index, v.u, bw)) == bw {
          return;
        }
        if bw == 3 {
          return;
        }
        bw := bw + 1;
      }
    }

    /** The first loop of CreateVector: the smallest width all elements can be stored with. */
    method VectorWidth(start: nat, vecLen: nat, step: nat, keys: Option<Value>) returns (bw: BitWidth)
      requires step >= 1 && vecLen == |Every(stack, start, step)|
      requires forall j :: start <= j < |stack| ==> M.Written(stack[j], |buf|)
      requires keys.Some? ==> M.Written(keys.value, |buf|)
      ensures M.AllWritten(Every(stack, start, step), |buf|)
      ensures bw == M.VectorWidth(|buf|, Every(stack, start, step), step, keys, forceMinBitWidth)
    {
      hide FlexFormat.ElemWidth, M.Written;
      EveryWritten(stack, start, step, |buf|);
      bw := Wider(forceMinBitWidth, WidthU(vecLen));
      var prefixElems := 1;
      if keys.Some? {
        var kw := ElemWidth(keys.value, |buf|, 0);
        bw := Wider(bw, kw);
        prefixElems := 3;
      }
      var i := start;
      while i < |stack|
        invariant start <= i && M.AllWritten(Every(stack, i, step), |buf|)
        invariant Wider(bw, M.ElemsWidth(Every(stack, i, step), |buf|, i - start + prefixElems, step))
               == M.VectorWidth(|buf|, Every(stack, start, step), step, keys, forceMinBitWidth)
        decreases |stack| - i
      {
        var elemWidth := ElemWidth(stack[i], |buf|, i - start + prefixElems);
        EveryWritten(stack, i + step, step, |buf|);
        bw := Wider(bw, elemWidth);
        i := i + step;
      }
    }

    /** The second loop: the values, each in the next slot. */
    method WriteElems(start: nat, step: nat, bw: BitWidth)
      requires step >= 1
      modifies this`buf
      ensures buf == old(buf) + M.ElemBytes(old(|buf|), Every(stack, start, step), bw)
    {
      hide M.AnyBytes;
      var i := start;
      while i < |stack|
        invariant start <= i
        invariant buf + M.ElemBytes(|buf|, Every(stack, i, step), bw)
               == old(buf) + M.ElemBytes(old(|buf|), Every(stack, start, step), bw)
        decreases |stack| - i
      {
        ghost var before := buf;
        ghost var rest := M.ElemBytes(|buf| + ByteWidth(bw), Every(stack, i + step, step), bw);
        WriteAny(stack[i], bw);
        assert before + (M.AnyBytes(|before|, stack[i], bw) + rest) == buf + rest;
        i := i + step;
      }
    }

    /** The third loop: the types. */
    method WriteTypes(start: nat, step: nat, bw: BitWidth)
      requires step >= 1
      modifies this`buf
      ensures buf == old(buf) + M.TypeBytes(Every(stack, start, step), bw)
    {
      hide M.PackedType, M.StoredWidth;
      var i := start;
      while i < |stack|
        invariant start <= i
        invariant buf + M.TypeBytes(Every(stack, i, step), bw) == old(buf) + M.TypeBytes(Every(stack, start, step), bw)
        decreases |stack| - i
      {
        ghost var before := buf;
        ghost var rest := Every(stack, i + step, step);
        var packed := M.PackedType(M.StoredWidth(stack[i], bw), stack[i].ftype);
        buf := buf + [packed];
        assert M.TypeBytes([stack[i]] + rest, bw) == [packed] + M.TypeBytes(rest, bw);
        assert before + ([packed] + M.TypeBytes(rest, bw)) == buf + M.TypeBytes(rest, bw);
        i := i + step;
      }
    }

    method CreateVector(start: nat, vecLen: nat, step: nat, typed: bool, keys: Option<Value>) returns (v: Value)
      requires step >= 1 && vecLen == |Every(stack, start, step)|
      requires forall j :: start <= j < |stack| ==> M.Written(stack[j], |buf|)
      requires keys.Some? ==> M.Written(keys.value, |buf|)
      modifies this`buf
      ensures M.AllWritten(Every(stack, start, step), old(|buf|))
      ensures (buf, v)
           == M.CreateVector(old(buf), Every(stack, start, step), step, typed, keys, forceMinBitWidth)
    {
      hide M.VectorWidth, M.ElemBytes, M.TypeBytes, M.AllWritten, LE, Unsigned, PaddingBytes;
      var bw := VectorWidth(start, vecLen, step, keys);
      var byteWidth := Align(bw);
      ghost var head := buf;
      if keys.Some? {
        Write(|buf| - keys.value.u, byteWidth);
        LowBytes(ByteWidth(keys.value.minWidth), byteWidth);
        Write(ByteWidth(keys.value.minWidth), byteWidth);
      }
      LowBytes(vecLen, byteWidth);
      Write(vecLen, byteWidth);
      assert buf == head + M.PrefixBytes(|head|, vecLen, keys, bw);
      var vloc := |buf|;
      WriteElems(start, step, bw);
      if typed {
        assert buf == buf + [];
      } else {
        WriteTypes(start, step, bw);
      }
      v := Value(vloc, if keys.Some? then FBT_MAP else if typed then FBT_VECTOR_KEY else FBT_VECTOR, bw);
    }

    method EndVector(start: nat) returns (vloc: int)
      requires CanApply(Abs(), CloseVector(start))
      modifies this`buf, this`stack
      ensures Abs() == M.EndVector(old(Abs()), start)
      ensures stack == old(stack[..start]) + [stack[|stack| - 1]] && vloc == stack[|stack| - 1].u
    {
      hide M.CreateVector, M.Written;
      EveryOne(stack, start);
      StackWritten(start);
      var vec := CreateVector(start, |stack| - start, 1, false, None);
      stack := stack[..start] + [vec];
      return vec.u;
    }

    lemma StackWritten(start: nat)
      requires start <= |stack| && M.AllWritten(stack[start..], |buf|)
      ensures forall j :: start <= j < |stack| ==> M.Written(stack[j], |buf|)
    {
      forall j | start <= j < |stack|
        ensures M.Written(stack[j], |buf|)
      {
        assert stack[j] == stack[start..][j - start];
      }
    }

    /** One insertion of the sort: walks past the smaller keys, and reports an equal one. */
    method InsertPair(p: (Value, Value), ps: seq<(Value, Value)>) returns (r: seq<(Value, Value)>, equal: bool)
      ensures r == M.Insert(buf, p, ps)
      ensures KeyReadable(buf, p.0) && KeysReadable(buf, ps) && KeyInOrder(buf, ps) ==>
        KeysReadable(buf, r) && KeyInOrder(buf, r) && (equal <==> HasKey(buf, ps, KeyChars(buf, p.0)))
    {
      hide M.StrCmp, KeyReadable, KeyInOrder, HasKey, KeysReadable;
      var j := 0;
      while j < |ps| && M.KeyLess(buf, ps[j].0, p.0)
        invariant 0 <= j <= |ps|
        invariant forall i :: 0 <= i < j ==> M.KeyLess(buf, ps[i].0, p.0)
      {
        j := j + 1;
      }
      equal := j < |ps| && M.StrCmp(buf, ps[j].0.u, p.0.u) == 0;
      r := ps[..j] + [p] + ps[j..];
      InsertAt(buf, p, ps, j);
      if KeyReadable(buf, p.0) && KeysReadable(buf, ps) && KeyInOrder(buf, ps) {
        InsertOrders(buf, p, ps, j);
        StopsAtEqual(buf, p, ps, j);
      }
    }

    /** The sort by keys; two equal keys set the flag. */
    method SortPairs(dict: seq<(Value, Value)>) returns (sorted: seq<(Value, Value)>)
      modifies this`hasDuplicateKeys
      ensures sorted == M.Sort(buf, dict)
      ensures KeysReadable(buf, dict) ==>
        hasDuplicateKeys == (old(hasDuplicateKeys) || !DistinctKeys(buf, dict))
    {
      hide M.Insert, KeyReadable, KeyInOrder, HasKey, DistinctKeys;
      sorted := [];
      var i := |dict|;
      NothingSorted(buf);
      assert dict[i..] == [];
      while i > 0
        invariant 0 <= i <= |dict| && sorted == M.Sort(buf, dict[i..])
        invariant KeysReadable(buf, dict) ==>
          && KeysReadable(buf, dict[i..]) && KeysReadable(buf, sorted) && KeyInOrder(buf, sorted)
          && hasDuplicateKeys == (old(hasDuplicateKeys) || !DistinctKeys(buf, dict[i..]))
      {
        i := i - 1;
        ghost var rest := dict[i + 1..];
        assert dict[i..] == [dict[i]] + rest && dict[i..][1..] == rest;
        var equal;
        sorted, equal := InsertPair(dict[i], sorted);
        if equal {
          hasDuplicateKeys := true;
        }
        if KeysReadable(buf, dict) {
          DistinctSplit(buf, dict[i..]);
          SortHasKey(buf, rest, KeyChars(buf, dict[i].0));
        }
      }
      assert dict[0..] == dict;
    }

    /** The pairs are sorted on the stack, then written as keys and values. */
    method EndMap(start: nat) returns (vloc: int)
      requires CanApply(Abs(), CloseMap(start))
      modifies this`buf, this`stack, this`hasDuplicateKeys
      ensures Abs() == M.EndMap(old(Abs()), start)
      ensures vloc == stack[|stack| - 1].u
      ensures var dict := M.Pairs(old(stack[start..]));
        KeysReadable(old(buf), dict) ==>
          hasDuplicateKeys == (old(hasDuplicateKeys) || !DistinctKeys(old(buf), dict))
    {
      hide M.CreateVector, M.Written, M.Sort, M.Pairs, Every, M.AllWritten, Flat, KeysReadable, DistinctKeys;
      var len := (|stack| - start) / 2;
      var dict := SortPairs(M.Pairs(stack[start..]));
      M.SortedWritten(buf, stack[start..], |buf|);
      M.PairsHalf(stack[start..]);
      FlatWritten(buf, dict, |buf|);
      ghost var front := stack[..start];
      stack := stack[..start] + Flat(dict);
      assert stack[start..] == Flat(dict);
      EveryShift(front, Flat(dict), 0, 2);
      EveryShift(front, Flat(dict), 1, 2);
      EveryOther(dict);
      StackWritten(start);
      var keys := CreateVector(start, len, 2, true, None);
      forall j | start <= j < |stack|
        ensures M.Written(stack[j], |buf|)
      {
        WrittenGrows(stack[j], |old(buf)|, |buf|);
      }
      var vec := CreateVector(start + 1, len, 2, false, Some(keys));
      stack := stack[..start] + [vec];
      return vec.u;
    }

    /** The one value left becomes the root. */
    method Finish()
      requires |stack| == 1 && M.AllWritten(stack, |buf|)
      modifies this`buf, this`finished
      ensures buf == M.Finish(old(Abs())) && finished
    {
      hide FlexFormat.ElemWidth, M.AnyBytes, M.PackedType, PaddingBytes, Unsigned;
      var bw := ElemWidth(stack[0], |buf|, 0);
      var byteWidth := Align(bw);
      WriteAny(stack[0], bw);
      var packed := M.PackedType(M.StoredWidth(stack[0], 0), stack[0].ftype);
      WriteBytes([packed]);
      WriteBytes([byteWidth]);
      finished := true;
    }
  }

  // ------------------------------------------------------------- whole buildings

  /** One call on the builder. */
  method Call(b: Builder, c: Command)
    requires CanApply(b.Abs(), c)
    modifies b
    ensures b.Abs() == Apply(old(b.Abs()), c)
  {
    match c {
      case AddNull => b.Null();
      case AddBool(x) => b.Bool(x);
      case AddInt(i) => b.Int(i);
      case AddUInt(u) => b.UInt(u);
      case AddKey(k) => var _ := b.Key(k);
      case AddString(s) => var _ := b.String(s);
      case CloseVector(start) => var _ := b.EndVector(start);
      case CloseMap(start) => var _ := b.EndMap(start);
    }
  }

  /** Any calls that leave one value, then Finish: the buffer, read from its root, is that value. */
  method Build(cs: seq<Command>, shareKeys: bool, shareStrings: bool, force: BitWidth, ghost t: Flex)
    returns (buf: seq<byte>)
    requires CanEvalAll([], cs) && EvalAll([], cs) == [t]
    requires |Run(M.Init(shareKeys, shareStrings, force), cs).buf| < TWO_63
    ensures |buf| < TWO_63 ==> GetRoot(buf).Some? && forall x :: Denotes(buf, GetRoot(buf).value, x) <==> x == t
  {
    hide CanEval, Eval, CanApply, Apply, Stands, M.Finish, Denotes, GetRoot;
    var b := new Builder(shareKeys, shareStrings);
    b.ForceMinimumBitWidth(force);
    ghost var ts: seq<Flex> := [];
    NothingStands(b.Abs());
    var i := 0;
    while i < |cs|
      invariant i <= |cs| && CanEvalAll(ts, cs[i..]) && EvalAll(ts, cs[i..]) == [t]
      invariant Stands(b.Abs(), ts)
      invariant Run(b.Abs(), cs[i..]) == Run(M.Init(shareKeys, shareStrings, force), cs)
    {
      assert cs[i..][1..] == cs[i + 1..];
      StepStands(b.Abs(), ts, cs[i]);
      Call(b, cs[i]);
      ts := Eval(ts, cs[i]);
      i := i + 1;
    }
    RoundTrip(shareKeys, shareStrings, force, cs, t);
    b.Finish();
    return b.buf;
  }

  lemma NothingStands(s: M.State)
    requires s.stack == [] && s.keyPool == [] && s.stringPool == []
    ensures Stands(s, [])
  {
  }
}
