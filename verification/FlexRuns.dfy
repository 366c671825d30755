/**
 * Whole runs of the builder. A stack machine on trees says what each call means; every run of the
 * builder follows it, and the finished buffer, read from its root, is the tree left on the stack.
 */
module FlexRuns {
  import opened Wrappers
  import opened Bytes
  import opened FlexFormat
  import opened FlexReader
  import opened FlexModel
  import opened FlexHolds
  import opened FlexVectors
  import opened FlexMaps
  import opened FlexOrder

  datatype Command =
    | AddNull
    | AddBool(x: bool)
    | AddInt(i: int)
    | AddUInt(u: nat)
    | AddKey(k: Chars)
    | AddString(s: seq<byte>)
    | CloseVector(start: nat)
    | CloseMap(start: nat)

  // ----------------------------------------------------------------- meaning

  /** Keys and values alternate. */
  predicate Alternates(ts: seq<Flex>) {
    ts == [] || (|ts| >= 2 && ts[0].FKey? && Alternates(ts[2..]))
  }

  function Members(ts: seq<Flex>): seq<(Chars, Flex)>
    requires Alternates(ts)
  {
    if ts == [] then [] else [(ts[0].k, ts[1])] + Members(ts[2..])
  }

  function MapOf(ms: seq<(Chars, Flex)>): Flex {
    FMap(Firsts(SortMembers(ms)), Seconds(SortMembers(ms)))
  }

  /** What the builder asserts or presupposes: 64-bit scalars, C strings as keys, well-nested calls. */
  predicate CanEval(ts: seq<Flex>, c: Command) {
    match c
    case AddInt(i) => -TWO_63 <= i < TWO_63
    case AddUInt(u) => u < TWO_64
    case AddKey(k) => NulFree(k)
    case CloseVector(start) => start <= |ts|
    case CloseMap(start) => start <= |ts| && Alternates(ts[start..]) && Distinct(Members(ts[start..]))
    case _ => true
  }

  function Eval(ts: seq<Flex>, c: Command): seq<Flex>
    requires CanEval(ts, c)
  {
    match c
    case AddNull => ts + [FNull]
    case AddBool(x) => ts + [FBool(x)]
    case AddInt(i) => ts + [FInt(i)]
    case AddUInt(u) => ts + [FUInt(u)]
    case AddKey(k) => ts + [FKey(k)]
    case AddString(s) => ts + [FString(s)]
    case CloseVector(start) => ts[..start] + [FVector(ts[start..])]
    case CloseMap(start) => ts[..start] + [MapOf(Members(ts[start..]))]
  }

  // -------------------------------------------------------------- the builder

  predicate CanApply(s: State, c: Command) {
    match c
    case CloseVector(start) => start <= |s.stack| && AllWritten(s.stack[start..], |s.buf|)
    case CloseMap(start) =>
      start <= |s.stack| && (|s.stack| - start) % 2 == 0 && AllWritten(s.stack[start..], |s.buf|)
    case _ => true
  }

  function Apply(s: State, c: Command): (s': State)
    requires CanApply(s, c)
    ensures s.buf <= s'.buf
  {
    match c
    case AddNull => PushNull(s)
    case AddBool(x) => PushBool(s, x)
    case AddInt(i) => PushInt(s, i)
    case AddUInt(u) => PushUInt(s, u)
    case AddKey(k) => PushKey(s, k)
    case AddString(t) => PushString(s, t)
    case CloseVector(start) => EndVector(s, start)
    case CloseMap(start) => EndMap(s, start)
  }

  /** The pool refers to keys, each of them once. */
  ghost predicate KeyPoolHolds(b: seq<byte>, pool: seq<nat>) {
    && (forall i :: 0 <= i < |pool| ==> pool[i] <= |b| && CStr(b, pool[i]).Some?)
    && forall i, j :: 0 <= i < j < |pool| ==> CStr(b, pool[i]) != CStr(b, pool[j])
  }

  /** The pooled string at `x.0` of length `x.1` can be read as a string. */
  ghost predicate Pooled(b: seq<byte>, x: (nat, nat)) {
    && x.0 + x.1 + 1 <= |b| && InPlace(x.0, ByteWidth(WidthU(x.1)))
    && StringAt(b, x.0, ByteWidth(WidthU(x.1))) == Some(b[x.0..x.0 + x.1])
  }

  ghost predicate StringPoolHolds(b: seq<byte>, pool: seq<(nat, nat)>) {
    forall i :: 0 <= i < |pool| ==> Pooled(b, pool[i])
  }

  /** The builder's state stands for a stack of trees. */
  ghost predicate Stands(s: State, ts: seq<Flex>) {
    && AllHold(s.buf, s.stack, ts)
    && KeyPoolHolds(s.buf, s.keyPool)
    && StringPoolHolds(s.buf, s.stringPool)
  }

  lemma PoolsGrow(b: seq<byte>, b': seq<byte>, keys: seq<nat>, strings: seq<(nat, nat)>)
    requires b <= b' && KeyPoolHolds(b, keys) && StringPoolHolds(b, strings)
    ensures KeyPoolHolds(b', keys) && StringPoolHolds(b', strings)
  {
    hide CStr, StringAt;
    forall i | 0 <= i < |keys|
      ensures CStr(b', keys[i]) == CStr(b, keys[i])
    {
      CStrGrows(b, b', keys[i]);
    }
    forall i | 0 <= i < |strings|
      ensures Pooled(b', strings[i])
    {
      var x := strings[i];
      StringGrows(b, b', x.0, ByteWidth(WidthU(x.1)));
      assert b'[x.0..x.0 + x.1] == b[x.0..x.0 + x.1];
    }
  }

  /** One more value on the stack, over a buffer that may have grown. */
  lemma PushStands(s: State, ts: seq<Flex>, b: seq<byte>, v: Value, t: Flex)
    requires Stands(s, ts) && s.buf <= b && Holds(b, v, t)
    ensures AllHold(b, s.stack + [v], ts + [t])
    ensures KeyPoolHolds(b, s.keyPool) && StringPoolHolds(b, s.stringPool)
  {
    AllHoldGrow(s.buf, b, s.stack, ts);
    PoolsGrow(s.buf, b, s.keyPool, s.stringPool);
    hide Holds, KeyPoolHolds, StringPoolHolds;
  }

  // --------------------------------------------------------------------- keys

  lemma {:induction false} CStrOf(before: seq<byte>, k: Chars, after: seq<byte>)
    requires NulFree(k)
    ensures CStr(before + k + [0] + after, |before|) == Some(k)
    decreases |k|
  {
    var b := before + k + [0] + after;
    if k == [] {
      assert b[|before|] == 0;
    } else {
      CStrOf(before + [k[0]], k[1..], after);
      assert before + [k[0]] + k[1..] + [0] + after == b;
      assert CStr(b, |before| + 1) == Some(k[1..]);
      assert b[|before|] == k[0] && k == [k[0]] + k[1..];
    }
  }

  /** A key reads back as itself exactly when it has no zero byte. */
  lemma KeyReadsBack(before: seq<byte>, k: Chars, after: seq<byte>)
    ensures CStr(before + k + [0] + after, |before|) == Some(k) <==> NulFree(k)
  {
    hide CStr;
    if NulFree(k) {
      CStrOf(before, k, after);
    }
    if CStr(before + k + [0] + after, |before|) == Some(k) {
      CStrNulFree(before + k + [0] + after, |before|);
    }
  }

  /** The key "a", zero byte, "b" reads back as "a". */
  lemma ZeroByteCutsKey(before: seq<byte>, after: seq<byte>)
    ensures CStr(before + [97, 0, 98] + [0] + after, |before|) == Some([97])
  {
    var b := before + [97, 0, 98] + [0] + after;
    CStrOf(before, [97], [98, 0] + after);
    assert before + [97] + [0] + ([98, 0] + after) == b;
  }

  lemma {:induction false} FindKeyFinds(b: seq<byte>, pool: seq<nat>, p: nat)
    ensures var f := FindKey(b, pool, p);
      && (f.Some? ==> f.value in pool && StrCmp(b, f.value, p) == 0)
      && (f.None? ==> forall q :: q in pool ==> StrCmp(b, q, p) != 0)
  {
    hide StrCmp;
    if pool != [] {
      FindKeyFinds(b, pool[1..], p);
      assert pool == [pool[0]] + pool[1..];
    }
  }

  /** A shared position holds exactly the characters asked for. */
  lemma SharedKey(buf: seq<byte>, pool: seq<nat>, k: Chars)
    requires KeyPoolHolds(buf, pool) && NulFree(k)
    requires FindKey(buf + k + [0], pool, |buf|).Some?
    ensures var q := FindKey(buf + k + [0], pool, |buf|).value;
      q <= |buf| && CStr(buf, q) == Some(k)
  {
    hide CStr, StrCmp, Strcmp, FindKey;
    var b := buf + k + [0];
    FindKeyFinds(b, pool, |buf|);
    var q := FindKey(b, pool, |buf|).value;
    CStrOf(buf, k, []);
    assert b + [] == b;
    CStrGrows(buf, b, q);
    CStrNulFree(b, q);
    StrCmpInBuffer(b, q, |buf|);
    StrcmpIsOrder(CStr(b, q).value, k);
  }

  /** A key that the pool does not have is none of those it has. */
  lemma FreshKey(buf: seq<byte>, pool: seq<nat>, k: Chars)
    requires KeyPoolHolds(buf, pool) && NulFree(k)
    requires FindKey(buf + k + [0], pool, |buf|).None?
    ensures var b := buf + k + [0];
      && CStr(b, |buf|) == Some(k)
      && KeyPoolHolds(b, pool + [|buf|])
  {
    hide StrCmp, Strcmp, FindKey;
    var b := buf + k + [0];
    FindKeyFinds(b, pool, |buf|);
    CStrOf(buf, k, []);
    assert b + [] == b;
    forall i | 0 <= i < |pool|
      ensures CStr(b, pool[i]) == CStr(buf, pool[i]) && CStr(b, pool[i]) != Some(k)
    {
      KeyDiffers(buf, b, pool[i], k);
    }
    hide CStr;
  }

  lemma KeyDiffers(buf: seq<byte>, b: seq<byte>, q: nat, k: Chars)
    requires buf <= b && CStr(buf, q).Some? && CStr(b, |buf|) == Some(k) && StrCmp(b, q, |buf|) != 0
    ensures CStr(b, q) == CStr(buf, q) && CStr(b, q) != Some(k)
  {
    hide CStr, StrCmp, Strcmp;
    CStrGrows(buf, b, q);
    CStrNulFree(b, q);
    CStrNulFree(b, |buf|);
    StrCmpInBuffer(b, q, |buf|);
    StrcmpIsOrder(CStr(b, q).value, k);
  }

  lemma NotFresh(buf: seq<byte>, pool: seq<nat>, i: nat)
    requires KeyPoolHolds(buf, pool) && i < |pool|
    ensures var k := CStr(buf, pool[i]).value; FindKey(buf + k + [0], pool, |buf|).Some?
  {
    hide CStr, StrCmp, Strcmp, FindKey;
    var k := CStr(buf, pool[i]).value;
    var b := buf + k + [0];
    CStrNulFree(buf, pool[i]);
    CStrOf(buf, k, []);
    assert b + [] == b;
    CStrGrows(buf, b, pool[i]);
    StrCmpInBuffer(b, pool[i], |buf|);
    StrcmpIsOrder(k, k);
    FindKeyFinds(b, pool, |buf|);
  }

  /** With sharing, a key already in the pool takes no room and gets the place it has. */
  lemma KeyIsShared(s: State, ts: seq<Flex>, i: nat)
    requires Stands(s, ts) && s.shareKeys && i < |s.keyPool|
    ensures var k := CStr(s.buf, s.keyPool[i]).value;
      PushKey(s, k) == Push(s, Value(s.keyPool[i], FBT_KEY, 0))
  {
    hide AllHold, StringPoolHolds, StrCmp, Strcmp, FindKey;
    var k := CStr(s.buf, s.keyPool[i]).value;
    var b := s.buf + k + [0];
    CStrNulFree(s.buf, s.keyPool[i]);
    if FindKey(b, s.keyPool, |s.buf|).None? {
      NotFresh(s.buf, s.keyPool, i);
    } else {
      SharedKey(s.buf, s.keyPool, k);
      FindKeyFinds(b, s.keyPool, |s.buf|);
      var q := FindKey(b, s.keyPool, |s.buf|).value;
      var j :| 0 <= j < |s.keyPool| && s.keyPool[j] == q;
      assert i == j;
    }
  }

  lemma KeyStands(s: State, ts: seq<Flex>, k: Chars)
    requires Stands(s, ts) && NulFree(k)
    ensures Stands(PushKey(s, k), ts + [FKey(k)])
  {
    var b := s.buf + k + [0];
    var found := if s.shareKeys then FindKey(b, s.keyPool, |s.buf|) else None;
    hide CStr, FindKey, KeyPoolHolds, StringPoolHolds, AllHold;
    if found.Some? {
      SharedKey(s.buf, s.keyPool, k);
      PushStands(s, ts, s.buf, Value(found.value, FBT_KEY, 0), FKey(k));
    } else {
      if s.shareKeys {
        FreshKey(s.buf, s.keyPool, k);
      }
      CStrOf(s.buf, k, []);
      assert b + [] == b;
      PushStands(s, ts, b, Value(|s.buf|, FBT_KEY, 0), FKey(k));
    }
  }

  // ------------------------------------------------------------------ strings

  lemma CharsRead(before: seq<byte>, s: seq<byte>)
    ensures var b := before + s + [0];
      && |before| + |s| < |b| && b[|before|..|before| + |s|] == s && b[|before| + |s|] == 0
  {
  }

  lemma StringAtFrom(b: seq<byte>, pos: nat, byteWidth: nat, s: seq<byte>)
    requires SizedAt(b, pos, byteWidth) == Some(Sized(pos, byteWidth, |s|))
    requires pos + |s| < |b| && b[pos..pos + |s|] == s && b[pos + |s|] == 0
    ensures StringAt(b, pos, byteWidth) == Some(s)
  {
    hide SizedAt;
  }

  lemma Regroup(front: seq<byte>, size: seq<byte>, s: seq<byte>)
    ensures front + size + (s + [0]) == front + size + s + [0]
  {
  }

  lemma StringReads(front: seq<byte>, s: seq<byte>)
    requires |s| < TWO_64
    ensures var bw := WidthU(|s|);
      var b := front + LE(|s|, ByteWidth(bw)) + s + [0];
      StringAt(b, |front| + ByteWidth(bw), ByteWidth(bw)) == Some(s)
  {
    hide LE, SizedAt, StringAt, Limit, WidthU, ByteWidth;
    var bw := WidthU(|s|);
    var w := ByteWidth(bw);
    var size := LE(|s|, w);
    WidthUFits(|s|, bw);
    SizeReads(front, |s|, bw, s + [0]);
    Regroup(front, size, s);
    CharsRead(front + size, s);
    StringAtFrom(front + size + s + [0], |front| + w, w, s);
  }

  lemma {:induction false} FindStringFinds(b: seq<byte>, pool: seq<(nat, nat)>, x: (nat, nat))
    requires FindString(b, pool, x).Some?
    ensures exists i :: 0 <= i < |pool| && pool[i].0 == FindString(b, pool, x).value && SameString(b, pool[i], x)
  {
    hide SameString;
    if !SameString(b, pool[0], x) {
      FindStringFinds(b, pool[1..], x);
      var i :| 0 <= i < |pool[1..]| && pool[1..][i].0 == FindString(b, pool, x).value && SameString(b, pool[1..][i], x);
      assert pool[i + 1] == pool[1..][i];
    }
  }

  lemma BlobReads(buf: seq<byte>, s: seq<byte>)
    requires |s| < TWO_64
    ensures var bw := WidthU(|s|); var b := StringBlob(buf, s); var sloc := |b| - |s| - 1;
      && buf <= b && 0 <= sloc && b[sloc..sloc + |s|] == s && b[sloc + |s|] == 0
      && StringAt(b, sloc, ByteWidth(bw)) == Some(s) && InPlace(sloc, ByteWidth(bw))
  {
    hide LE, PaddingBytes, StringAt, InPlace;
    StringReads(Align(buf, WidthU(|s|)), s);
    BlobInPlace(buf, WidthU(|s|));
  }

  lemma BlobInPlace(buf: seq<byte>, bw: BitWidth)
    ensures InPlace(|Align(buf, bw)| + ByteWidth(bw), ByteWidth(bw))
  {
    hide Align;
    AlignIsAlignUp(buf, bw);
    BehindInPlace(buf, Align(buf, bw), 0, bw, 1);
  }

  /** Equal bytes in the pool: what is pooled is the string asked for. */
  lemma PooledIs(buf: seq<byte>, b: seq<byte>, x: (nat, nat), y: (nat, nat), s: seq<byte>)
    requires Pooled(buf, x) && buf <= b && SameString(b, x, y) && |s| == y.1 && b[y.0..y.0 + |s|] == s
    ensures x.1 == |s| && InPlace(x.0, ByteWidth(WidthU(|s|)))
    ensures StringAt(buf, x.0, ByteWidth(WidthU(|s|))) == Some(s)
  {
    hide StringAt;
    assert b[x.0..x.0 + x.1 + 1][..x.1] == buf[x.0..x.0 + x.1];
    assert b[y.0..y.0 + y.1 + 1][..y.1] == b[y.0..y.0 + |s|];
  }

  lemma BlobIsLonger(buf: seq<byte>, s: seq<byte>)
    ensures |s| < |StringBlob(buf, s)| && buf <= StringBlob(buf, s)
  {
    hide LE, PaddingBytes;
  }

  lemma SharedString(buf: seq<byte>, pool: seq<(nat, nat)>, s: seq<byte>)
    requires StringPoolHolds(buf, pool) && |buf| < TWO_63
    requires var b := StringBlob(buf, s); |s| < |b| && FindString(b, pool, (|b| - |s| - 1, |s|)).Some?
    ensures var b := StringBlob(buf, s); var q := FindString(b, pool, (|b| - |s| - 1, |s|)).value;
      && q <= |buf| && InPlace(q, ByteWidth(WidthU(|s|)))
      && StringAt(buf, q, ByteWidth(WidthU(|s|))) == Some(s)
  {
    hide StringAt, FindString, StringBlob, SameString;
    var b := StringBlob(buf, s);
    BlobIsLonger(buf, s);
    var x: (nat, nat) := (|b| - |s| - 1, |s|);
    FindStringFinds(b, pool, x);
    var i :| 0 <= i < |pool| && pool[i].0 == FindString(b, pool, x).value && SameString(b, pool[i], x);
    assert Pooled(buf, pool[i]);
    SameLength(b, pool[i], x);
    BlobReads(buf, s);
    PooledIs(buf, b, pool[i], x, s);
  }

  lemma SameLength(b: seq<byte>, x: (nat, nat), y: (nat, nat))
    requires SameString(b, x, y)
    ensures x.1 == y.1
  {
  }

  /** The place of a string in its pool, if it is shared. */
  function Found(st: State, s: seq<byte>): Option<nat> {
    var b := StringBlob(st.buf, s);
    if st.shareStrings then FindString(b, st.stringPool, (|b| - |s| - 1, |s|)) else None
  }

  lemma FreshString(st: State, ts: seq<Flex>, s: seq<byte>)
    requires Stands(st, ts) && |s| < TWO_64 && Found(st, s).None?
    ensures Stands(PushString(st, s), ts + [FString(s)])
  {
    hide StringAt, FindString, StringBlob, AllHold;
    var b := StringBlob(st.buf, s);
    var sloc := |b| - |s| - 1;
    BlobReads(st.buf, s);
    PushStands(st, ts, b, Value(sloc, FBT_STRING, WidthU(|s|)), FString(s));
  }

  lemma {:induction false} FindStringHits(b: seq<byte>, pool: seq<(nat, nat)>, x: (nat, nat), i: nat)
    requires i < |pool| && SameString(b, pool[i], x)
    ensures FindString(b, pool, x).Some?
  {
    hide SameString;
    if !SameString(b, pool[0], x) {
      FindStringHits(b, pool[1..], x, i - 1);
    }
  }

  lemma SameBytes(buf: seq<byte>, b: seq<byte>, x: (nat, nat), y: (nat, nat), s: seq<byte>)
    requires Pooled(buf, x) && buf <= b && x.1 == y.1 == |s| && y.0 + |s| < |b|
    requires buf[x.0..x.0 + |s|] == s == b[y.0..y.0 + |s|] && b[y.0 + |s|] == 0
    ensures SameString(b, x, y)
  {
    var n := |s|;
    assert b[x.0..x.0 + n] == buf[x.0..x.0 + n] && b[x.0 + n] == 0;
    assert b[x.0..x.0 + n + 1] == b[x.0..x.0 + n] + [0];
    assert b[y.0..y.0 + n + 1] == b[y.0..y.0 + n] + [0];
  }

  /** With sharing, a string already in the pool takes no room. */
  lemma StringIsShared(st: State, ts: seq<Flex>, i: nat)
    requires Stands(st, ts) && st.shareStrings && i < |st.stringPool| && |st.buf| < TWO_63
    ensures var (q, n) := st.stringPool[i];
      q + n < |st.buf| && PushString(st, st.buf[q..q + n]).(stack := st.stack) == st
  {
    hide AllHold, KeyPoolHolds, StringAt, StringBlob, SameString, FindString;
    var x := st.stringPool[i];
    assert Pooled(st.buf, x);
    var s := st.buf[x.0..x.0 + x.1];
    BlobIsLonger(st.buf, s);
    BlobReads(st.buf, s);
    var b := StringBlob(st.buf, s);
    var y: (nat, nat) := (|b| - |s| - 1, |s|);
    SameBytes(st.buf, b, x, y, s);
    FindStringHits(b, st.stringPool, y, i);
  }

  lemma StringStands(st: State, ts: seq<Flex>, s: seq<byte>)
    requires Stands(st, ts) && |PushString(st, s).buf| < TWO_63
    ensures Stands(PushString(st, s), ts + [FString(s)])
  {
    hide StringAt, FindString, AllHold;
    BlobIsLonger(st.buf, s);
    if Found(st, s).Some? {
      hide StringBlob;
      SharedString(st.buf, st.stringPool, s);
      PushStands(st, ts, st.buf, Value(Found(st, s).value, FBT_STRING, WidthU(|s|)), FString(s));
    } else {
      hide StringBlob;
      FreshString(st, ts, s);
    }
  }

  // --------------------------------------------------------- vectors and maps

  lemma VectorStands(s: State, ts: seq<Flex>, start: nat)
    requires Stands(s, ts) && start <= |ts|
    ensures CanApply(s, CloseVector(start))
    ensures |EndVector(s, start).buf| < TWO_63 ==> Stands(EndVector(s, start), ts[..start] + [FVector(ts[start..])])
  {
    hide Holds, KeyPoolHolds, StringPoolHolds, CreateVector;
    var els := s.stack[start..];
    AllHeldWritten(s.buf, els, ts[start..]);
    var r := CreateVector(s.buf, els, 1, false, None, s.forceMinBitWidth);
    if |r.0| < TWO_63 {
      VectorHolds(s.buf, els, ts[start..], s.forceMinBitWidth);
      PushStands(s.(stack := s.stack[..start]), ts[..start], r.0, r.1, FVector(ts[start..]));
    }
  }

  lemma {:induction false} AlternatesEven(ts: seq<Flex>)
    requires Alternates(ts)
    ensures |ts| % 2 == 0
  {
    if ts != [] {
      AlternatesEven(ts[2..]);
    }
  }

  lemma {:induction false} PairsAreMembers(b: seq<byte>, els: seq<Value>, ts: seq<Flex>)
    requires AllHold(b, els, ts) && Alternates(ts) && |els| % 2 == 0
    ensures PairsHold(b, Pairs(els), Members(ts))
    decreases |els|
  {
    hide Holds;
    if els != [] {
      PairsAreMembers(b, els[2..], ts[2..]);
      assert PairHolds(b, (els[0], els[1]), (ts[0].k, ts[1]));
    }
  }

  lemma SidesHold(b: seq<byte>, ps: seq<(Value, Value)>, ms: seq<(Chars, Flex)>)
    requires PairsHold(b, ps, ms)
    ensures AllHold(b, Firsts(ps), KeyTrees(Firsts(ms))) && AllHold(b, Seconds(ps), Seconds(ms))
  {
    hide Holds;
    assert forall i :: 0 <= i < |ps| ==> PairHolds(b, ps[i], ms[i]);
  }

  /** The sorted keys and values, written as two vectors, are the map. */
  lemma MapVectorsHold(b: seq<byte>, els: seq<Value>, ts: seq<Flex>, force: BitWidth)
    requires AllHold(b, els, ts) && AllWritten(els, |b|) && Alternates(ts) && |els| % 2 == 0
    requires |MapVectors(b, els, force).0| < TWO_63
    ensures var r := MapVectors(b, els, force); Holds(r.0, r.1, MapOf(Members(ts)))
  {
    hide Holds, AllHold, CreateVector, KeysAt, PairsHold, Sort, SortMembers, Written;
    var ps, ms := Sort(b, Pairs(els)), SortMembers(Members(ts));
    PairsAreMembers(b, els, ts);
    SortHolds(b, Pairs(els), Members(ts));
    SidesHold(b, ps, ms);
    SortedWritten(b, els, |b|);
    var keys := CreateVector(b, Firsts(ps), 2, true, None, force);
    KeyVectorHolds(b, Firsts(ps), Firsts(ms), force);
    AllHoldGrow(b, keys.0, Seconds(ps), Seconds(ms));
    KeyVectorType(b, Firsts(ps), force);
    SameCount(b, ps, ms);
    WrittenLater(Seconds(ps), |b|, |keys.0|);
    MapHolds(keys.0, keys.1, Firsts(ms), Seconds(ps), Seconds(ms), force);
  }

  lemma SameCount(b: seq<byte>, ps: seq<(Value, Value)>, ms: seq<(Chars, Flex)>)
    requires PairsHold(b, ps, ms)
    ensures |ps| == |ms|
  {
  }

  lemma KeyVectorType(b: seq<byte>, els: seq<Value>, force: BitWidth)
    requires AllWritten(els, |b|)
    ensures var r := CreateVector(b, els, 2, true, None, force);
      r.1.ftype == FBT_VECTOR_KEY && 0 <= r.1.u <= |r.0|
  {
    hide VectorWidth;
  }

  lemma MapStands(s: State, ts: seq<Flex>, start: nat)
    requires Stands(s, ts) && start <= |ts| && Alternates(ts[start..])
    ensures CanApply(s, CloseMap(start))
    ensures |EndMap(s, start).buf| < TWO_63 ==> Stands(EndMap(s, start), ts[..start] + [MapOf(Members(ts[start..]))])
  {
    hide Holds, KeyPoolHolds, StringPoolHolds, MapVectors, MapOf, Members;
    var els := s.stack[start..];
    AllHeldWritten(s.buf, els, ts[start..]);
    AlternatesEven(ts[start..]);
    var r := MapVectors(s.buf, els, s.forceMinBitWidth);
    if |r.0| < TWO_63 {
      MapVectorsHold(s.buf, els, ts[start..], s.forceMinBitWidth);
      PushStands(s.(stack := s.stack[..start]), ts[..start], r.0, r.1, MapOf(Members(ts[start..])));
    }
  }

  // --------------------------------------------------------------- whole runs

  /** Every call keeps the correspondence between the builder and the stack of trees. */
  lemma StepStands(s: State, ts: seq<Flex>, c: Command)
    requires Stands(s, ts) && CanEval(ts, c)
    ensures CanApply(s, c)
    ensures |Apply(s, c).buf| < TWO_63 ==> Stands(Apply(s, c), Eval(ts, c))
  {
    hide Stands, EndVector, EndMap, PushKey, PushString, Alternates, Members, MapOf, Distinct, NulFree;
    match c
    case AddKey(k) => KeyStands(s, ts, k);
    case AddString(t) =>
      if |PushString(s, t).buf| < TWO_63 {
        StringStands(s, ts, t);
      }
    case CloseVector(start) => VectorStands(s, ts, start);
    case CloseMap(start) => MapStands(s, ts, start);
    case _ => ScalarStands(s, ts, c);
  }

  lemma ScalarStands(s: State, ts: seq<Flex>, c: Command)
    requires Stands(s, ts) && CanEval(ts, c) && (c.AddNull? || c.AddBool? || c.AddInt? || c.AddUInt?)
    ensures Stands(Apply(s, c), Eval(ts, c))
  {
    hide KeyPoolHolds, StringPoolHolds, Target, AllHold, WidthI, WidthU;
    match c
    case AddNull => PushStands(s, ts, s.buf, Value(0, FBT_NULL, 0), FNull);
    case AddBool(x) => PushStands(s, ts, s.buf, Value(if x then 1 else 0, FBT_BOOL, 0), FBool(x));
    case AddInt(i) => PushStands(s, ts, s.buf, Value(i, FBT_INT, WidthI(i)), FInt(i));
    case AddUInt(u) => PushStands(s, ts, s.buf, Value(u, FBT_UINT, WidthU(u)), FUInt(u));
    case _ =>
  }

  predicate CanEvalAll(ts: seq<Flex>, cs: seq<Command>)
    decreases |cs|
  {
    cs == [] || (CanEval(ts, cs[0]) && CanEvalAll(Eval(ts, cs[0]), cs[1..]))
  }

  function EvalAll(ts: seq<Flex>, cs: seq<Command>): seq<Flex>
    requires CanEvalAll(ts, cs)
    decreases |cs|
  {
    if cs == [] then ts else EvalAll(Eval(ts, cs[0]), cs[1..])
  }

  /** The builder makes the calls in turn; a call it cannot make ends the run. */
  function Run(s: State, cs: seq<Command>): (s': State)
    ensures s.buf <= s'.buf
    decreases |cs|
  {
    if cs == [] || !CanApply(s, cs[0]) then s else Run(Apply(s, cs[0]), cs[1..])
  }

  lemma {:induction false} RunStands(s: State, ts: seq<Flex>, cs: seq<Command>)
    requires Stands(s, ts) && CanEvalAll(ts, cs) && |Run(s, cs).buf| < TWO_63
    ensures Stands(Run(s, cs), EvalAll(ts, cs))
    decreases |cs|
  {
    hide Stands, CanApply, Apply, CanEval, Eval;
    if cs != [] {
      StepStands(s, ts, cs[0]);
      RunStands(Apply(s, cs[0]), Eval(ts, cs[0]), cs[1..]);
    }
  }

  // -------------------------------------------------------------------- finish

  lemma RootFits(b: seq<byte>, v: Value)
    requires Written(v, |b|) && |Align(b, ElemWidth(v, |b|, 0))| < TWO_63
    ensures Fits(|Align(b, ElemWidth(v, |b|, 0))|, v, ElemWidth(v, |b|, 0))
  {
    hide Align, FirstFit, Limit;
    var bw := ElemWidth(v, |b|, 0);
    AlignIsAlignUp(b, bw);
    if !IsInline(v.ftype) {
      hide ElemWidth;
      KeysFit(b, v, bw);
    }
  }

  /** What stands at the end of a finished buffer. */
  lemma RootFound(head: seq<byte>, v: Value, bw: BitWidth)
    requires IsType(v.ftype)
    ensures var b := head + AnyBytes(|head|, v, bw) + [PackedType(StoredWidth(v, 0), v.ftype)] + [ByteWidth(bw)];
      GetRoot(b) == Some(Ref(|head|, ByteWidth(bw), ByteWidth(StoredWidth(v, 0)), v.ftype))
  {
    hide AnyBytes, PackedType, StoredWidth, ByteWidth;
    PackedRoundTrip(StoredWidth(v, 0), v.ftype);
    var b := head + AnyBytes(|head|, v, bw) + [PackedType(StoredWidth(v, 0), v.ftype)] + [ByteWidth(bw)];
    assert b[|b| - 1] == ByteWidth(bw) && b[|b| - 2] == PackedType(StoredWidth(v, 0), v.ftype);
  }

  /** The finished buffer, read from its root, is the one tree left on the stack. */
  lemma FinishDenotes(s: State, t: Flex)
    requires Stands(s, [t])
    ensures |s.stack| == 1 && AllWritten(s.stack, |s.buf|)
    ensures |Finish(s)| < TWO_63 ==> GetRoot(Finish(s)).Some? && Denotes(Finish(s), GetRoot(Finish(s)).value, t)
  {
    AllHeldWritten(s.buf, s.stack, [t]);
    var v := s.stack[0];
    var bw := ElemWidth(v, |s.buf|, 0);
    var head := Align(s.buf, bw);
    var tail := [PackedType(StoredWidth(v, 0), v.ftype)] + [ByteWidth(bw)];
    hide Align, ElemWidth, Fits, Holds, Denotes, AnyBytes, PackedType, GetRoot, KeyPoolHolds, StringPoolHolds;
    assert Finish(s) == head + AnyBytes(|head|, v, bw) + tail;
    if |Finish(s)| < TWO_63 {
      assert Holds(s.buf, v, t);
      HeldType(s.buf, v, t);
      RootFits(s.buf, v);
      AlignIsAlignUp(s.buf, bw);
      RootFound(head, v, bw);
      SlotDenotes(s.buf, v, t, head, bw, tail, ByteWidth(StoredWidth(v, 0)));
      assert head + AnyBytes(|head|, v, bw) + [PackedType(StoredWidth(v, 0), v.ftype)] + [ByteWidth(bw)] == Finish(s);
    }
  }

  /**
   * For every run of calls that leaves one value, with or without sharing of keys and strings and for
   * every minimum width: reading the finished buffer from its root finds exactly that value.
   */
  lemma RoundTrip(shareKeys: bool, shareStrings: bool, force: BitWidth, cs: seq<Command>, t: Flex)
    requires CanEvalAll([], cs) && EvalAll([], cs) == [t]
    requires |Run(Init(shareKeys, shareStrings, force), cs).buf| < TWO_63
    ensures var s := Run(Init(shareKeys, shareStrings, force), cs);
      && |s.stack| == 1 && AllWritten(s.stack, |s.buf|)
      && (|Finish(s)| < TWO_63 ==>
            GetRoot(Finish(s)).Some? && forall x :: Denotes(Finish(s), GetRoot(Finish(s)).value, x) <==> x == t)
  {
    hide Run, EvalAll, CanEvalAll, Denotes, GetRoot, Finish;
    var s0 := Init(shareKeys, shareStrings, force);
    RunStands(s0, [], cs);
    var s := Run(s0, cs);
    FinishDenotes(s, t);
    if |Finish(s)| < TWO_63 {
      forall x | Denotes(Finish(s), GetRoot(Finish(s)).value, x)
        ensures x == t
      {
        DenotesUnique(Finish(s), GetRoot(Finish(s)).value, x, t);
      }
    }
  }
}
