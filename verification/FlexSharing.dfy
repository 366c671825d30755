/** Sharing over whole runs: a key or string that any earlier call wrote is never written again. */
module FlexSharing {
  import opened Wrappers
  import opened Bytes
  import opened FlexFormat
  import opened FlexReader
  import opened FlexModel
  import opened FlexHolds
  import opened FlexOrder
  import opened FlexRuns

  ghost predicate KeyKnown(s: State, k: Chars) {
    exists i :: 0 <= i < |s.keyPool| && CStr(s.buf, s.keyPool[i]) == Some(k)
  }

  predicate HeldAt(b: seq<byte>, x: (nat, nat), t: seq<byte>) {
    x.1 == |t| && x.0 + x.1 < |b| && b[x.0..x.0 + x.1] == t
  }

  ghost predicate StringKnown(s: State, t: seq<byte>) {
    exists i :: 0 <= i < |s.stringPool| && HeldAt(s.buf, s.stringPool[i], t)
  }

  // ------------------------------------------------------------------- one call

  lemma PoolsOnlyGrow(s: State, c: Command)
    requires CanApply(s, c)
    ensures var s' := Apply(s, c);
      && s.keyPool <= s'.keyPool && s.stringPool <= s'.stringPool
      && s'.shareKeys == s.shareKeys && s'.shareStrings == s.shareStrings
  {
    hide CreateVector, MapVectors, FindKey, FindString, StringBlob, AllWritten, WidthI, WidthU;
  }

  lemma KeyStaysKnown(s: State, s': State, k: Chars)
    requires KeyKnown(s, k) && s.keyPool <= s'.keyPool && s.buf <= s'.buf
    ensures KeyKnown(s', k)
  {
    hide CStr;
    var i :| 0 <= i < |s.keyPool| && CStr(s.buf, s.keyPool[i]) == Some(k);
    CStrGrows(s.buf, s'.buf, s.keyPool[i]);
    assert s'.keyPool[i] == s.keyPool[i];
  }

  lemma StringStaysKnown(s: State, s': State, t: seq<byte>)
    requires StringKnown(s, t) && s.stringPool <= s'.stringPool && s.buf <= s'.buf
    ensures StringKnown(s', t)
  {
    var i :| 0 <= i < |s.stringPool| && HeldAt(s.buf, s.stringPool[i], t);
    var x := s.stringPool[i];
    assert s'.buf[x.0..x.0 + x.1] == s.buf[x.0..x.0 + x.1];
    assert s'.stringPool[i] == x;
  }

  lemma KeyBecomesKnown(s: State, ts: seq<Flex>, k: Chars)
    requires Stands(s, ts) && s.shareKeys && NulFree(k)
    ensures KeyKnown(PushKey(s, k), k)
  {
    hide CStr, StrCmp, FindKey, AllHold, StringPoolHolds;
    var b := s.buf + k + [0];
    var s' := PushKey(s, k);
    if FindKey(b, s.keyPool, |s.buf|).Some? {
      SharedKey(s.buf, s.keyPool, k);
      FindKeyFinds(b, s.keyPool, |s.buf|);
      var i :| 0 <= i < |s.keyPool| && s.keyPool[i] == FindKey(b, s.keyPool, |s.buf|).value;
      assert CStr(s'.buf, s'.keyPool[i]) == Some(k);
    } else {
      FreshKey(s.buf, s.keyPool, k);
      assert s'.keyPool[|s.keyPool|] == |s.buf|;
    }
  }

  lemma StringBecomesKnown(st: State, ts: seq<Flex>, t: seq<byte>)
    requires Stands(st, ts) && st.shareStrings && |PushString(st, t).buf| < TWO_63
    ensures StringKnown(PushString(st, t), t)
  {
    hide StringAt, FindString, StringBlob, SameString, AllHold, KeyPoolHolds;
    var b := StringBlob(st.buf, t);
    BlobIsLonger(st.buf, t);
    var y: (nat, nat) := (|b| - |t| - 1, |t|);
    var s' := PushString(st, t);
    if FindString(b, st.stringPool, y).Some? {
      FindStringFinds(b, st.stringPool, y);
      var i :| 0 <= i < |st.stringPool| && st.stringPool[i].0 == FindString(b, st.stringPool, y).value
        && SameString(b, st.stringPool[i], y);
      var x := st.stringPool[i];
      SameLength(b, x, y);
      assert Pooled(st.buf, x);
      BlobReads(st.buf, t);
      PooledIs(st.buf, b, x, y, t);
      assert HeldAt(s'.buf, s'.stringPool[i], t);
    } else {
      BlobReads(st.buf, t);
      assert HeldAt(s'.buf, s'.stringPool[|st.stringPool|], t);
    }
  }

  // ------------------------------------------------------------------ whole runs

  lemma {:induction false} KeyStaysKnownInRun(s: State, cs: seq<Command>, k: Chars)
    requires KeyKnown(s, k)
    ensures KeyKnown(Run(s, cs), k)
    decreases |cs|
  {
    hide CanApply, Apply, KeyKnown;
    if cs != [] && CanApply(s, cs[0]) {
      PoolsOnlyGrow(s, cs[0]);
      KeyStaysKnown(s, Apply(s, cs[0]), k);
      KeyStaysKnownInRun(Apply(s, cs[0]), cs[1..], k);
    }
  }

  lemma {:induction false} StringStaysKnownInRun(s: State, cs: seq<Command>, t: seq<byte>)
    requires StringKnown(s, t)
    ensures StringKnown(Run(s, cs), t)
    decreases |cs|
  {
    hide CanApply, Apply, StringKnown;
    if cs != [] && CanApply(s, cs[0]) {
      PoolsOnlyGrow(s, cs[0]);
      StringStaysKnown(s, Apply(s, cs[0]), t);
      StringStaysKnownInRun(Apply(s, cs[0]), cs[1..], t);
    }
  }

  lemma {:induction false} KeyKnownAfter(s: State, ts: seq<Flex>, cs: seq<Command>, i: nat)
    requires Stands(s, ts) && CanEvalAll(ts, cs) && |Run(s, cs).buf| < TWO_63 && s.shareKeys
    requires i < |cs| && cs[i].AddKey?
    ensures KeyKnown(Run(s, cs), cs[i].k) && Run(s, cs).shareKeys
    decreases |cs|
  {
    hide Stands, KeyKnown, PushKey, EndVector, EndMap, PushString;
    StepStands(s, ts, cs[0]);
    var next := Apply(s, cs[0]);
    PoolsOnlyGrow(s, cs[0]);
    FlagsKept(next, cs[1..]);
    if i == 0 {
      KeyBecomesKnown(s, ts, cs[0].k);
      KeyStaysKnownInRun(next, cs[1..], cs[0].k);
    } else {
      KeyKnownAfter(next, Eval(ts, cs[0]), cs[1..], i - 1);
    }
  }

  lemma {:induction false} StringKnownAfter(s: State, ts: seq<Flex>, cs: seq<Command>, i: nat)
    requires Stands(s, ts) && CanEvalAll(ts, cs) && |Run(s, cs).buf| < TWO_63 && s.shareStrings
    requires i < |cs| && cs[i].AddString?
    ensures StringKnown(Run(s, cs), cs[i].s) && Run(s, cs).shareStrings
    decreases |cs|
  {
    hide Stands, StringKnown, PushKey, EndVector, EndMap, PushString;
    StepStands(s, ts, cs[0]);
    var next := Apply(s, cs[0]);
    PoolsOnlyGrow(s, cs[0]);
    FlagsKept(next, cs[1..]);
    if i == 0 {
      StringBecomesKnown(s, ts, cs[0].s);
      StringStaysKnownInRun(next, cs[1..], cs[0].s);
    } else {
      StringKnownAfter(next, Eval(ts, cs[0]), cs[1..], i - 1);
    }
  }

  lemma {:induction false} FlagsKept(s: State, cs: seq<Command>)
    ensures Run(s, cs).shareKeys == s.shareKeys && Run(s, cs).shareStrings == s.shareStrings
    decreases |cs|
  {
    hide CanApply, Apply;
    if cs != [] && CanApply(s, cs[0]) {
      PoolsOnlyGrow(s, cs[0]);
      FlagsKept(Apply(s, cs[0]), cs[1..]);
    }
  }

  /** With sharing of keys, a key that any call of the run has written takes no more room. */
  lemma KeyWrittenOnce(shareStrings: bool, force: BitWidth, cs: seq<Command>, k: Chars)
    requires CanEvalAll([], cs) && AddKey(k) in cs
    requires |Run(Init(true, shareStrings, force), cs).buf| < TWO_63
    ensures var st := Run(Init(true, shareStrings, force), cs);
      PushKey(st, k).buf == st.buf && PushKey(st, k).keyPool == st.keyPool
  {
    hide Run, PushKey, CanEvalAll, CStr;
    var first := Init(true, shareStrings, force);
    var st := Run(first, cs);
    RunStands(first, [], cs);
    var i :| 0 <= i < |cs| && cs[i] == AddKey(k);
    KeyKnownAfter(first, [], cs, i);
    var j :| 0 <= j < |st.keyPool| && CStr(st.buf, st.keyPool[j]) == Some(k);
    KeyIsShared(st, EvalAll([], cs), j);
  }

  /** With sharing of strings, a string that any call of the run has written takes no more room. */
  lemma StringWrittenOnce(shareKeys: bool, force: BitWidth, cs: seq<Command>, t: seq<byte>)
    requires CanEvalAll([], cs) && AddString(t) in cs
    requires |Run(Init(shareKeys, true, force), cs).buf| < TWO_63
    ensures var st := Run(Init(shareKeys, true, force), cs);
      PushString(st, t).(stack := st.stack) == st
  {
    hide Run, PushString, CanEvalAll, Stands;
    var first := Init(shareKeys, true, force);
    var st := Run(first, cs);
    NothingYet(first);
    RunStands(first, [], cs);
    var i :| 0 <= i < |cs| && cs[i] == AddString(t);
    StringKnownAfter(first, [], cs, i);
    var j :| 0 <= j < |st.stringPool| && HeldAt(st.buf, st.stringPool[j], t);
    StringIsShared(st, EvalAll([], cs), j);
  }

  lemma NothingYet(s: State)
    requires s.stack == [] && s.keyPool == [] && s.stringPool == []
    ensures Stands(s, [])
  {
  }
}
