/** Map::operator[]: binary search over the keys of a map finds what a linear scan would. */
module FlexLookup {
  import opened Wrappers
  import opened Bytes
  import opened StringOrder
  import opened FlexFormat
  import opened FlexReader
  import opened FlexOrder
  import opened FlexRuns

  predicate KeysSorted(ks: seq<Chars>) {
    forall i, j :: 0 <= i < j < |ks| ==> StringLessThan(ks[i], ks[j])
  }

  predicate AllNulFree(ks: seq<Chars>) {
    forall i :: 0 <= i < |ks| ==> NulFree(ks[i])
  }

  /** The key at `mid` rules out one side. */
  lemma SideRuledOut(ks: seq<Chars>, key: Chars, mid: nat)
    requires KeysSorted(ks) && AllNulFree(ks) && NulFree(key) && mid < |ks|
    ensures Strcmp(key, ks[mid]) < 0 ==> forall j :: mid <= j < |ks| ==> ks[j] != key
    ensures Strcmp(key, ks[mid]) > 0 ==> forall j :: 0 <= j <= mid ==> ks[j] != key
    ensures Strcmp(key, ks[mid]) == 0 ==> ks[mid] == key
  {
    hide StringLessThan, Strcmp;
    StrcmpIsOrder(key, ks[mid]);
    IncomparableIsEqual(key, ks[mid]);
    forall j | 0 <= j < |ks| && j != mid
      ensures j > mid && StringLessThan(key, ks[mid]) ==> ks[j] != key
      ensures j < mid && StringLessThan(ks[mid], key) ==> ks[j] != key
    {
      IncomparableIsEqual(ks[j], ks[mid]);
    }
  }

  /** std::bsearch over the vector of keys. */
  method FindIndex(b: seq<byte>, keys: Sized, key: Chars, ghost ks: seq<Chars>) returns (index: Option<nat>)
    requires |ks| == keys.size && forall i :: 0 <= i < |ks| ==> KeyGet(b, keys, i) == Some(ks[i])
    requires KeysSorted(ks) && AllNulFree(ks) && NulFree(key)
    ensures index.Some? ==> index.value < |ks| && ks[index.value] == key
    ensures index.None? ==> key !in ks
  {
    hide KeyGet, Strcmp, KeysSorted;
    var low, high := 0, keys.size;
    while low < high
      invariant 0 <= low <= high <= |ks|
      invariant forall j :: 0 <= j < |ks| && (j < low || high <= j) ==> ks[j] != key
    {
      var mid := (low + high) / 2;
      SideRuledOut(ks, key, mid);
      var order := Strcmp(key, KeyGet(b, keys, mid).value);
      if order == 0 {
        return Some(mid);
      } else if order < 0 {
        high := mid;
      } else {
        low := mid + 1;
      }
    }
    return None;
  }

  lemma NullIsNull(b: seq<byte>)
    ensures Denotes(b, NullRef(), FNull)
  {
  }

  /** An index past the end of a vector gives null. */
  lemma PastTheEnd(b: seq<byte>, v: Sized, i: nat)
    requires i >= v.size
    ensures var r := VectorGet(b, v, i); r.Some? && forall t :: Denotes(b, r.value, t) <==> t == FNull
  {
    hide Elements, MapKeys;
  }

  /** The value of a key, or a null reference. */
  method MapGet(b: seq<byte>, map_: Sized, key: Chars, ghost ks: seq<Chars>, ghost values: seq<Flex>)
    returns (r: Ref)
    requires |ks| == |values| == map_.size && KeysSorted(ks) && AllNulFree(ks) && NulFree(key)
    requires Elements(b, map_.data, map_.byteWidth, values) && MapKeys(b, map_.data, map_.byteWidth, ks)
    ensures forall i :: 0 <= i < |ks| && ks[i] == key ==> Denotes(b, r, values[i])
    ensures key !in ks ==> Denotes(b, r, FNull)
  {
    NullIsNull(b);
    hide KeyGet, VectorGet, Denotes, KeysSorted, SizedAt, Keys;
    var keys := Keys(b, map_).value;
    if keys.byteWidth != 1 && keys.byteWidth != 2 && keys.byteWidth != 4 && keys.byteWidth != 8 {
      return NullRef();
    }
    var index := FindIndex(b, keys, key, ks);
    if index.None? {
      return NullRef();
    }
    OnlyOnce(ks, index.value);
    r := VectorGet(b, map_, index.value).value;
  }

  lemma OnlyOnce(ks: seq<Chars>, i: nat)
    requires KeysSorted(ks) && i < |ks|
    ensures forall j :: 0 <= j < |ks| && ks[j] == ks[i] ==> j == i
  {
    hide StringLessThan;
    forall j | 0 <= j < |ks| && j != i
      ensures ks[j] != ks[i]
    {
      IncomparableIsEqual(ks[j], ks[i]);
    }
  }

  // -------------------------------------------------- what a linear scan finds

  /** The value added under a key. */
  function Scan(ms: seq<(Chars, Flex)>, key: Chars): Option<Flex> {
    if ms == [] then None
    else if ms[0].0 == key then Some(ms[0].1)
    else Scan(ms[1..], key)
  }

  lemma {:induction false} ScanFinds(ms: seq<(Chars, Flex)>, key: Chars)
    requires Distinct(ms)
    ensures forall v :: (key, v) in ms <==> Scan(ms, key) == Some(v)
  {
    if ms != [] {
      ScanFinds(ms[1..], key);
      assert ms == [ms[0]] + ms[1..];
      forall i | 0 <= i < |ms[1..]|
        ensures ms[1..][i].0 != ms[0].0
      {
        assert ms[1..][i] == ms[i + 1];
      }
    }
  }

  /** The map a builder makes of distinct members has each member's value under its key, and no other key. */
  lemma MapOfFinds(ms: seq<(Chars, Flex)>, key: Chars)
    requires Distinct(ms)
    ensures var m := MapOf(ms);
      && |m.keys| == |m.values| && KeysSorted(m.keys)
      && (Scan(ms, key).None? ==> key !in m.keys)
      && forall i :: 0 <= i < |m.keys| && m.keys[i] == key ==> Scan(ms, key) == Some(m.values[i])
  {
    hide StringLessThan, SortMembers, Scan;
    SortSorts(ms);
    ScanFinds(ms, key);
    var sorted := SortMembers(ms);
    forall i | 0 <= i < |sorted| && sorted[i].0 == key
      ensures Scan(ms, key) == Some(sorted[i].1)
    {
      assert sorted[i] in multiset(sorted);
      assert (key, sorted[i].1) in multiset(ms);
    }
  }

  /** AsMap and operator[]: what was added under the key, and null for an absent key. */
  method LookupAdded(b: seq<byte>, ref: Ref, key: Chars, ghost ms: seq<(Chars, Flex)>) returns (r: Ref)
    requires Distinct(ms) && NulFree(key) && AllNulFree(MapOf(ms).keys)
    requires Denotes(b, ref, MapOf(ms))
    ensures Scan(ms, key).Some? ==> Denotes(b, r, Scan(ms, key).value)
    ensures Scan(ms, key).None? ==> Denotes(b, r, FNull)
  {
    hide MapKeys, Denotes, KeysSorted, AllNulFree, Scan, SortMembers, VectorGet, SizedAt;
    ghost var m := MapOf(ms);
    MapOfFinds(ms, key);
    KeysOfMap(ms, key);
    MapTarget(b, ref, m);
    var map_ := SizedAt(b, Indirect(b, ref.data, ref.parentWidth).value, ref.byteWidth).value;
    r := MapGet(b, map_, key, m.keys, m.values);
  }

  lemma MapTarget(b: seq<byte>, ref: Ref, m: Flex)
    requires m.FMap? && Denotes(b, ref, m)
    ensures Indirect(b, ref.data, ref.parentWidth).Some?
    ensures Target(b, Indirect(b, ref.data, ref.parentWidth).value, ref.byteWidth, FBT_MAP, m)
  {
    hide Elements, MapKeys;
  }

  lemma KeysOfMap(ms: seq<(Chars, Flex)>, key: Chars)
    requires Distinct(ms)
    ensures |MapOf(ms).keys| == |ms|
    ensures Scan(ms, key).Some? ==> exists i :: 0 <= i < |MapOf(ms).keys| && MapOf(ms).keys[i] == key
  {
    hide StringLessThan, SortMembers, Scan;
    SortSorts(ms);
    ScanFinds(ms, key);
    var sorted := SortMembers(ms);
    assert |sorted| == |multiset(sorted)| == |multiset(ms)| == |ms|;
    if Scan(ms, key).Some? {
      assert (key, Scan(ms, key).value) in multiset(ms);
      var i :| 0 <= i < |sorted| && sorted[i] == (key, Scan(ms, key).value);
      assert MapOf(ms).keys[i] == key;
    }
  }
}
