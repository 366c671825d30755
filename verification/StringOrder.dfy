/** `StringLessThan` of buffer.h, the ordering behind the pool of shared strings. */
module StringOrder {
  import opened Bytes

  /** memcmp: the first difference decides. */
  function Compare(a: seq<byte>, b: seq<byte>, n: nat): int
    requires n <= |a| && n <= |b|
    decreases n
  {
    if n == 0 then 0
    else if a[0] != b[0] then a[0] - b[0]
    else Compare(a[1..], b[1..], n - 1)
  }

  predicate StringLessThan(a: seq<byte>, b: seq<byte>) {
    var cmp := Compare(a, b, if |a| <= |b| then |a| else |b|);
    if cmp == 0 then |a| < |b| else cmp < 0
  }

  /** The recursive reading: an empty string first, then by the first character. */
  lemma LessStep(a: seq<byte>, b: seq<byte>)
    ensures a == [] ==> (StringLessThan(a, b) <==> b != [])
    ensures b == [] ==> !StringLessThan(a, b)
    ensures a != [] && b != [] ==>
      (StringLessThan(a, b) <==> a[0] < b[0] || (a[0] == b[0] && StringLessThan(a[1..], b[1..])))
  {
  }

  /** `a` and `b` agree up to `k`, and there `a` ends first or has the smaller byte. */
  predicate FirstDifference(a: seq<byte>, b: seq<byte>, k: nat) {
    k <= |a| && k < |b| && a[..k] == b[..k] && (k == |a| || a[k] < b[k])
  }

  lemma {:induction false} LessIff(a: seq<byte>, b: seq<byte>)
    ensures StringLessThan(a, b) <==> exists k: nat :: FirstDifference(a, b, k)
  {
    LessStep(a, b);
    hide StringLessThan;
    if a == [] || b == [] || a[0] != b[0] {
      assert FirstDifference(a, b, 0) <==> b != [] && (a == [] || a[0] < b[0]);
      if k: nat :| FirstDifference(a, b, k) {
        assert k == 0;
      }
    } else {
      LessIff(a[1..], b[1..]);
      if k: nat :| FirstDifference(a[1..], b[1..], k) {
        assert a[..k + 1] == [a[0]] + a[1..][..k] && b[..k + 1] == [b[0]] + b[1..][..k];
        assert FirstDifference(a, b, k + 1);
      }
      if k: nat :| FirstDifference(a, b, k) {
        assert a[1..][..k - 1] == a[..k][1..] && b[1..][..k - 1] == b[..k][1..];
        assert FirstDifference(a[1..], b[1..], k - 1);
      }
    }
  }

  /**
   * Two strings that the pool's ordering does not tell apart are equal, so looking a string up in
   * the pool finds exactly its own contents.
   */
  lemma {:induction false} IncomparableIsEqual(a: seq<byte>, b: seq<byte>)
    ensures !StringLessThan(a, b) && !StringLessThan(b, a) <==> a == b
    ensures !(StringLessThan(a, b) && StringLessThan(b, a))
  {
    LessStep(a, b);
    LessStep(b, a);
    if a != [] && b != [] {
      IncomparableIsEqual(a[1..], b[1..]);
      assert a == [a[0]] + a[1..] && b == [b[0]] + b[1..];
    }
  }

  lemma {:induction false} LessTransitive(a: seq<byte>, b: seq<byte>, c: seq<byte>)
    requires StringLessThan(a, b) && StringLessThan(b, c)
    ensures StringLessThan(a, c)
  {
    LessStep(a, b);
    LessStep(b, c);
    LessStep(a, c);
    if a != [] && b != [] && c != [] && a[0] == b[0] == c[0] {
      LessTransitive(a[1..], b[1..], c[1..]);
    }
  }
}
