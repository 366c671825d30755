/** The order of map keys: strcmp, the sorted pairs of a map, and binary search. */
module FlexOrder {
  import opened Bytes
  import opened StringOrder
  import opened FlexFormat
  import opened FlexReader
  import opened FlexModel
  import opened FlexHolds

  type Chars = seq<byte>

  predicate NulFree(s: Chars) {
    forall i :: 0 <= i < |s| ==> s[i] != 0
  }

  /** strcmp of two strings, each followed by its terminator. */
  function Strcmp(s: Chars, t: Chars): int {
    if s == [] then (if t == [] then 0 else 0 - t[0])
    else if t == [] then s[0]
    else if s[0] != t[0] then s[0] - t[0]
    else Strcmp(s[1..], t[1..])
  }

  lemma {:induction false} StrcmpIsOrder(s: Chars, t: Chars)
    requires NulFree(s) && NulFree(t)
    ensures Strcmp(s, t) < 0 <==> StringLessThan(s, t)
    ensures Strcmp(s, t) > 0 <==> StringLessThan(t, s)
    ensures Strcmp(s, t) == 0 <==> s == t
  {
    hide StringLessThan;
    LessStep(s, t);
    LessStep(t, s);
    if s != [] && t != [] {
      StrcmpIsOrder(s[1..], t[1..]);
      assert s == [s[0]] + s[1..] && t == [t[0]] + t[1..];
    }
  }

  lemma {:induction false} CStrNulFree(b: seq<byte>, p: int)
    requires CStr(b, p).Some?
    ensures NulFree(CStr(b, p).value)
    decreases |b| - p
  {
    if b[p] != 0 {
      CStrNulFree(b, p + 1);
    }
  }

  /** Comparing in the buffer compares the strings found there. */
  lemma {:induction false} StrCmpInBuffer(b: seq<byte>, p: int, q: int)
    requires CStr(b, p).Some? && CStr(b, q).Some?
    ensures StrCmp(b, p, q) == Strcmp(CStr(b, p).value, CStr(b, q).value)
    decreases |b| - p
  {
    if b[p] == b[q] && b[p] != 0 {
      StrCmpInBuffer(b, p + 1, q + 1);
      var s, t := CStr(b, p).value, CStr(b, q).value;
      assert s[1..] == CStr(b, p + 1).value && t[1..] == CStr(b, q + 1).value;
    }
  }

  // ----------------------------------------------------------------- sorting

  /** The same sorting on the trees themselves. */
  function InsertMember(p: (Chars, Flex), ps: seq<(Chars, Flex)>): seq<(Chars, Flex)> {
    if ps == [] then [p]
    else if StringLessThan(ps[0].0, p.0) then [ps[0]] + InsertMember(p, ps[1..])
    else [p] + ps
  }

  function SortMembers(ps: seq<(Chars, Flex)>): seq<(Chars, Flex)> {
    if ps == [] then [] else InsertMember(ps[0], SortMembers(ps[1..]))
  }

  predicate Sorted(ps: seq<(Chars, Flex)>) {
    forall i, j :: 0 <= i < j < |ps| ==> StringLessThan(ps[i].0, ps[j].0)
  }

  predicate Distinct(ps: seq<(Chars, Flex)>) {
    forall i, j :: 0 <= i < j < |ps| ==> ps[i].0 != ps[j].0
  }

  lemma {:induction false} InsertKeeps(p: (Chars, Flex), ps: seq<(Chars, Flex)>)
    ensures multiset(InsertMember(p, ps)) == multiset{p} + multiset(ps)
  {
    if ps != [] && StringLessThan(ps[0].0, p.0) {
      InsertKeeps(p, ps[1..]);
      assert ps == [ps[0]] + ps[1..];
    }
  }

  lemma {:induction false} InsertSorts(p: (Chars, Flex), ps: seq<(Chars, Flex)>)
    requires Sorted(ps) && forall i :: 0 <= i < |ps| ==> ps[i].0 != p.0
    ensures Sorted(InsertMember(p, ps))
  {
    hide StringLessThan;
    var r := InsertMember(p, ps);
    if ps == [] {
    } else if StringLessThan(ps[0].0, p.0) {
      InsertSorts(p, ps[1..]);
      InsertKeeps(p, ps[1..]);
      forall j | 0 < j < |r|
        ensures StringLessThan(r[0].0, r[j].0)
      {
        assert r[j] in multiset(r[1..]);
        if r[j] != p {
          assert r[j] in ps[1..];
        }
      }
    } else {
      IncomparableIsEqual(ps[0].0, p.0);
      forall j | 0 < j < |r|
        ensures StringLessThan(p.0, r[j].0)
      {
        if j > 1 {
          LessTransitive(p.0, ps[0].0, ps[j - 1].0);
        }
      }
    }
  }

  /** Distinct keys are put in strictly increasing order, and no member is lost or made up. */
  lemma {:induction false} SortSorts(ps: seq<(Chars, Flex)>)
    requires Distinct(ps)
    ensures Sorted(SortMembers(ps)) && multiset(SortMembers(ps)) == multiset(ps)
  {
    hide StringLessThan;
    if ps != [] {
      var rest := SortMembers(ps[1..]);
      SortSorts(ps[1..]);
      forall i | 0 <= i < |rest|
        ensures rest[i].0 != ps[0].0
      {
        assert rest[i] in multiset(rest);
        assert rest[i] in ps[1..];
      }
      InsertSorts(ps[0], rest);
      InsertKeeps(ps[0], rest);
      assert ps == [ps[0]] + ps[1..];
    }
  }

  // ----------------------------------------------------- sorting in the buffer

  ghost predicate PairHolds(b: seq<byte>, p: (Value, Value), m: (Chars, Flex)) {
    Holds(b, p.0, FKey(m.0)) && Holds(b, p.1, m.1)
  }

  ghost predicate PairsHold(b: seq<byte>, ps: seq<(Value, Value)>, ms: seq<(Chars, Flex)>) {
    |ps| == |ms| && forall i :: 0 <= i < |ps| ==> PairHolds(b, ps[i], ms[i])
  }

  lemma LessInBuffer(b: seq<byte>, x: Value, y: Value, s: Chars, t: Chars)
    requires Holds(b, x, FKey(s)) && Holds(b, y, FKey(t))
    ensures KeyLess(b, x, y) <==> StringLessThan(s, t)
  {
    hide StringLessThan, Strcmp, CStr, StrCmp;
    CStrNulFree(b, x.u);
    CStrNulFree(b, y.u);
    StrCmpInBuffer(b, x.u, y.u);
    StrcmpIsOrder(s, t);
  }

  lemma {:induction false} InsertHolds(b: seq<byte>, p: (Value, Value), m: (Chars, Flex), ps: seq<(Value, Value)>,
                                       ms: seq<(Chars, Flex)>)
    requires PairHolds(b, p, m) && PairsHold(b, ps, ms)
    ensures PairsHold(b, Insert(b, p, ps), InsertMember(m, ms))
    decreases |ps|
  {
    hide StringLessThan, KeyLess, Holds;
    if ps != [] {
      assert PairHolds(b, ps[0], ms[0]);
      LessInBuffer(b, ps[0].0, p.0, ms[0].0, m.0);
      if KeyLess(b, ps[0].0, p.0) {
        InsertHolds(b, p, m, ps[1..], ms[1..]);
      }
    }
  }

  /** Sorting the values by the keys in the buffer sorts the members they stand for. */
  lemma {:induction false} SortHolds(b: seq<byte>, ps: seq<(Value, Value)>, ms: seq<(Chars, Flex)>)
    requires PairsHold(b, ps, ms)
    ensures PairsHold(b, Sort(b, ps), SortMembers(ms))
    decreases |ps|
  {
    hide Insert, InsertMember, PairHolds;
    if ps != [] {
      SortHolds(b, ps[1..], ms[1..]);
      InsertHolds(b, ps[0], ms[0], Sort(b, ps[1..]), SortMembers(ms[1..]));
    }
  }

  // -------------------------------------------------------------- duplicate keys

  predicate KeyReadable(b: seq<byte>, v: Value) {
    CStr(b, v.u).Some?
  }

  predicate KeysReadable(b: seq<byte>, ps: seq<(Value, Value)>) {
    forall i :: 0 <= i < |ps| ==> KeyReadable(b, ps[i].0)
  }

  function KeyChars(b: seq<byte>, v: Value): Chars
    requires KeyReadable(b, v)
  {
    CStr(b, v.u).value
  }

  predicate KeyInOrder(b: seq<byte>, ps: seq<(Value, Value)>)
    requires KeysReadable(b, ps)
  {
    forall i, j :: 0 <= i < j < |ps| ==> !StringLessThan(KeyChars(b, ps[j].0), KeyChars(b, ps[i].0))
  }

  predicate HasKey(b: seq<byte>, ps: seq<(Value, Value)>, k: Chars)
    requires KeysReadable(b, ps)
  {
    exists i :: 0 <= i < |ps| && KeyChars(b, ps[i].0) == k
  }

  predicate DistinctKeys(b: seq<byte>, ps: seq<(Value, Value)>)
    requires KeysReadable(b, ps)
  {
    forall i, j :: 0 <= i < j < |ps| ==> KeyChars(b, ps[i].0) != KeyChars(b, ps[j].0)
  }

  lemma CompareKeys(b: seq<byte>, x: Value, y: Value)
    requires KeyReadable(b, x) && KeyReadable(b, y)
    ensures var c := StrCmp(b, x.u, y.u);
      && (c < 0 <==> StringLessThan(KeyChars(b, x), KeyChars(b, y)))
      && (c == 0 <==> KeyChars(b, x) == KeyChars(b, y))
  {
    hide StringLessThan, Strcmp, CStr, StrCmp;
    CStrNulFree(b, x.u);
    CStrNulFree(b, y.u);
    StrCmpInBuffer(b, x.u, y.u);
    StrcmpIsOrder(KeyChars(b, x), KeyChars(b, y));
  }

  lemma NotLessTransitive(a: Chars, b: Chars, c: Chars)
    requires !StringLessThan(b, a) && !StringLessThan(c, b)
    ensures !StringLessThan(c, a)
  {
    hide StringLessThan;
    IncomparableIsEqual(a, b);
    IncomparableIsEqual(b, c);
    IncomparableIsEqual(a, c);
    if a != b && b != c {
      LessTransitive(a, b, c);
    }
  }

  /** The place of a key in pairs that are in order: all before it are less, none from it on is. */
  lemma {:induction false} InsertAt(b: seq<byte>, p: (Value, Value), ps: seq<(Value, Value)>, j: nat)
    requires j <= |ps| && (forall i :: 0 <= i < j ==> KeyLess(b, ps[i].0, p.0))
    requires j == |ps| || !KeyLess(b, ps[j].0, p.0)
    ensures Insert(b, p, ps) == ps[..j] + [p] + ps[j..]
    decreases |ps|
  {
    hide KeyLess;
    if j > 0 {
      InsertAt(b, p, ps[1..], j - 1);
      assert ps[..j] == [ps[0]] + ps[1..][..j - 1] && ps[1..][j - 1..] == ps[j..];
    } else {
      assert ps[..0] == [] && ps[0..] == ps;
    }
  }

  lemma InsertOrders(b: seq<byte>, p: (Value, Value), ps: seq<(Value, Value)>, j: nat)
    requires KeyReadable(b, p.0) && KeysReadable(b, ps) && KeyInOrder(b, ps)
    requires j <= |ps| && (forall i :: 0 <= i < j ==> KeyLess(b, ps[i].0, p.0))
    requires j == |ps| || !KeyLess(b, ps[j].0, p.0)
    ensures var r := ps[..j] + [p] + ps[j..]; KeysReadable(b, r) && KeyInOrder(b, r)
  {
    hide StringLessThan, KeyReadable, StrCmp;
    var k := KeyChars(b, p.0);
    forall i | 0 <= i < |ps|
      ensures i < j ==> !StringLessThan(k, KeyChars(b, ps[i].0))
      ensures i >= j ==> !StringLessThan(KeyChars(b, ps[i].0), k)
    {
      CompareKeys(b, ps[i].0, p.0);
      IncomparableIsEqual(KeyChars(b, ps[i].0), k);
      if i >= j {
        CompareKeys(b, ps[j].0, p.0);
        if i > j {
          NotLessTransitive(k, KeyChars(b, ps[j].0), KeyChars(b, ps[i].0));
        }
      }
    }
    var r := ps[..j] + [p] + ps[j..];
    forall i | 0 <= i < |r|
      ensures r[i] == if i < j then ps[i] else if i == j then p else ps[i - 1]
    {
    }
  }

  /** A key already there stands where the walk stops. */
  lemma StopsAtEqual(b: seq<byte>, p: (Value, Value), ps: seq<(Value, Value)>, j: nat)
    requires KeyReadable(b, p.0) && KeysReadable(b, ps) && KeyInOrder(b, ps)
    requires j <= |ps| && (forall i :: 0 <= i < j ==> KeyLess(b, ps[i].0, p.0))
    requires j == |ps| || !KeyLess(b, ps[j].0, p.0)
    ensures HasKey(b, ps, KeyChars(b, p.0)) <==> j < |ps| && StrCmp(b, ps[j].0.u, p.0.u) == 0
  {
    hide StringLessThan, KeyReadable, StrCmp;
    var k := KeyChars(b, p.0);
    if j < |ps| {
      CompareKeys(b, ps[j].0, p.0);
    }
    if HasKey(b, ps, k) {
      var i :| 0 <= i < |ps| && KeyChars(b, ps[i].0) == k;
      CompareKeys(b, ps[i].0, p.0);
      assert i >= j;
      IncomparableIsEqual(KeyChars(b, ps[j].0), k);
    }
  }

  lemma DistinctSplit(b: seq<byte>, ps: seq<(Value, Value)>)
    requires KeysReadable(b, ps) && ps != []
    ensures DistinctKeys(b, ps) <==> !HasKey(b, ps[1..], KeyChars(b, ps[0].0)) && DistinctKeys(b, ps[1..])
  {
    hide KeyReadable;
    var k := KeyChars(b, ps[0].0);
    if DistinctKeys(b, ps) {
      forall i | 0 <= i < |ps[1..]|
        ensures KeyChars(b, ps[1..][i].0) != k
      {
        assert ps[i + 1] == ps[1..][i];
      }
      forall i, j | 0 <= i < j < |ps[1..]|
        ensures KeyChars(b, ps[1..][i].0) != KeyChars(b, ps[1..][j].0)
      {
        assert ps[1..][i] == ps[i + 1] && ps[1..][j] == ps[j + 1];
      }
    }
    if !HasKey(b, ps[1..], k) && DistinctKeys(b, ps[1..]) {
      forall i, j | 0 <= i < j < |ps|
        ensures KeyChars(b, ps[i].0) != KeyChars(b, ps[j].0)
      {
        assert ps[1..][j - 1] == ps[j];
        if i > 0 {
          assert ps[1..][i - 1] == ps[i];
        }
      }
    }
  }

  lemma {:induction false} InsertHas(b: seq<byte>, p: (Value, Value), ps: seq<(Value, Value)>, x: (Value, Value))
    requires x == p || x in ps
    ensures x in Insert(b, p, ps)
    decreases |ps|
  {
    hide KeyLess;
    if ps != [] && KeyLess(b, ps[0].0, p.0) && x != ps[0] {
      InsertHas(b, p, ps[1..], x);
    }
  }

  lemma {:induction false} SortHas(b: seq<byte>, ps: seq<(Value, Value)>, x: (Value, Value))
    requires x in ps
    ensures x in Sort(b, ps)
    decreases |ps|
  {
    hide Insert;
    assert ps == [ps[0]] + ps[1..];
    if x != ps[0] {
      SortHas(b, ps[1..], x);
    }
    InsertHas(b, ps[0], Sort(b, ps[1..]), x);
  }

  /** Sorting keeps the keys. */
  lemma SortHasKey(b: seq<byte>, ps: seq<(Value, Value)>, k: Chars)
    requires KeysReadable(b, ps)
    ensures KeysReadable(b, Sort(b, ps)) && (HasKey(b, Sort(b, ps), k) <==> HasKey(b, ps, k))
  {
    hide Sort, KeyReadable;
    var sorted := Sort(b, ps);
    forall i | 0 <= i < |sorted|
      ensures KeyReadable(b, sorted[i].0)
    {
      assert sorted[i] in ps;
    }
    if HasKey(b, ps, k) {
      var i :| 0 <= i < |ps| && KeyChars(b, ps[i].0) == k;
      SortHas(b, ps, ps[i]);
      var j :| 0 <= j < |sorted| && sorted[j] == ps[i];
    }
    if HasKey(b, sorted, k) {
      var i :| 0 <= i < |sorted| && KeyChars(b, sorted[i].0) == k;
      assert sorted[i] in ps;
      var j :| 0 <= j < |ps| && ps[j] == sorted[i];
    }
  }

  /** The keys on the stack are distinct exactly when those of the members they stand for are. */
  lemma DistinctInBuffer(b: seq<byte>, ps: seq<(Value, Value)>, ms: seq<(Chars, Flex)>)
    requires PairsHold(b, ps, ms)
    ensures KeysReadable(b, ps) && (DistinctKeys(b, ps) <==> Distinct(ms))
  {
    hide CStr;
    forall i | 0 <= i < |ps|
      ensures KeyReadable(b, ps[i].0) && KeyChars(b, ps[i].0) == ms[i].0
    {
      assert PairHolds(b, ps[i], ms[i]);
    }
    hide KeyReadable, KeyChars;
  }
}
