/** `Finish`: the root offset, the optional identifier and size prefix, and the alignment of the whole buffer. */
module FinishLemmas {
  import opened Wrappers
  import opened Bytes
  import opened BuilderModel
  import opened TableLemmas
  import opened Objects

  function PrefixSize(sized: bool): nat {
    if sized then 4 else 0
  }

  function IdBytes(identifier: Option<seq<byte>>): seq<byte> {
    if identifier.Some? then identifier.value else []
  }

  /** The state just before the root offset is written. */
  function Padded(s: State, identifier: Option<seq<byte>>, sized: bool): State
    requires IsAlign(s.minalign)
  {
    var a := TrackMinAlign(s.(vtables := []), PrefixSize(sized));
    PushBytes(PreAlign(a, PrefixSize(sized) + 4 + |IdBytes(identifier)|, a.minalign), IdBytes(identifier))
  }

  lemma PaddedFacts(s: State, identifier: Option<seq<byte>>, sized: bool)
    requires IsAlign(s.minalign) && 4 <= s.minalign
    requires identifier.Some? ==> |identifier.value| == 4
    ensures var p := Padded(s, identifier, sized);
      && Grows(s.buf, p.buf) && p == s.(buf := p.buf, vtables := [])
      && Aligned(|p.buf| + 4 + PrefixSize(sized), s.minalign)
      && Aligned(|p.buf|, 4) && At(p.buf, |p.buf|, IdBytes(identifier))
  {
    hide PreAlign, Aligned, At, Grows, IsAlign;
    var id := IdBytes(identifier);
    var a := s.(vtables := []);
    var len := PrefixSize(sized) + 4 + |id|;
    var q := PreAlign(a, len, a.minalign);
    assert Padded(s, identifier, sized) == PushBytes(q, id);
    PreAlignPads(a, len, a.minalign);
    PreAlignSame(a, len);
    GrowsPush(id, q.buf);
    GrowsTrans(s.buf, q.buf, id + q.buf);
    AtFront(id, q.buf);
    assert |id + q.buf| + 4 + PrefixSize(sized) == |q.buf| + len;
    WordsAligned(|id + q.buf|, s.minalign, sized);
  }

  lemma WordsAligned(n: nat, m: nat, sized: bool)
    requires IsAlign(m) && 4 <= m && Aligned(n + 4 + PrefixSize(sized), m)
    ensures Aligned(n, 4)
  {
    hide Aligned;
    AlignDivides(n + 4 + PrefixSize(sized), m, 4);
    AlignedSelf(4);
    AlignedPlus(n + 4 + PrefixSize(sized), 4, 4);
    if sized {
      AlignedPlus(n + 4, 4, 4);
    }
  }

  lemma PreAlignSame(a: State, len: nat)
    requires IsAlign(a.minalign)
    ensures PreAlign(a, len, a.minalign).minalign == a.minalign
  {
    hide PaddingBytes, Zeros;
  }

  predicate FinishedAs(s: State, root: nat, identifier: Option<seq<byte>>, sized: bool, r: State) {
    var n := PrefixSize(sized);
    && Grows(s.buf, r.buf) && r.finished && r.minalign == s.minalign
    && r.minalign > 0 && Aligned(|r.buf|, r.minalign) && root + 4 <= |r.buf| - n
    && ReadU(r.buf, n, 4) == Some(|r.buf| - n - root)
    && (sized ==> ReadU(r.buf, 0, 4) == Some(|r.buf| - 4))
    && (identifier.Some? ==> At(r.buf, |r.buf| - n - 4, identifier.value))
  }

  /**
   * The finished buffer is a multiple of the largest alignment used, so an object aligned from the
   * end is aligned from the start; the root offset leads to the root, the identifier and the size
   * prefix are where a reader looks for them, and the contents are untouched.
   */
  lemma FinishHolds(s: State, root: nat, identifier: Option<seq<byte>>, sized: bool)
    requires 0 < root <= |s.buf| && IsAlign(s.minalign) && 4 <= s.minalign
    requires identifier.Some? ==> |identifier.value| == 4
    requires |Finish(s, root, identifier, sized).buf| < TWO_31
    ensures FinishedAs(s, root, identifier, sized, Finish(s, root, identifier, sized))
  {
    hide Padded, PushOffset, PushElement, Aligned, At, LE, Grows;
    PaddedFacts(s, identifier, sized);
    var p := Padded(s, identifier, sized);
    GrowsLength(s.buf, p.buf);
    var r := Finish(s, root, identifier, sized);
    FinishIs(s, root, identifier, sized);
    FinishRoot(p, root, sized);
    GrowsTrans(s.buf, p.buf, r.buf);
    if identifier.Some? {
      AtGrows(p.buf, r.buf, |p.buf|, identifier.value);
    }
  }

  lemma GrowsLength(b: seq<byte>, b': seq<byte>)
    requires Grows(b, b')
    ensures |b| <= |b'|
  {
  }

  function WithRoot(p: State, root: nat, sized: bool): State
    requires 0 < root <= |p.buf|
  {
    var c := PushOffset(p, root);
    if sized then PushElement(c, |c.buf| % TWO_32, 4) else c
  }

  lemma FinishIs(s: State, root: nat, identifier: Option<seq<byte>>, sized: bool)
    requires 0 < root <= |s.buf| && IsAlign(s.minalign)
    requires identifier.Some? ==> |identifier.value| == 4
    ensures |Padded(s, identifier, sized).buf| >= |s.buf|
    ensures Finish(s, root, identifier, sized)
         == WithRoot(Padded(s, identifier, sized), root, sized).(finished := true)
  {
    hide PaddingBytes, PushOffset, PushElement, Zeros;
  }

  lemma FinishRoot(p: State, root: nat, sized: bool)
    requires 0 < root <= |p.buf| && Aligned(|p.buf|, 4) && 4 <= p.minalign
    requires |WithRoot(p, root, sized).buf| < TWO_31
    ensures var r := WithRoot(p, root, sized);
      && Grows(p.buf, r.buf) && |r.buf| == |p.buf| + 4 + PrefixSize(sized)
      && r == p.(buf := r.buf)
      && ReadU(r.buf, PrefixSize(sized), 4) == Some(|r.buf| - PrefixSize(sized) - root)
      && (sized ==> ReadU(r.buf, 0, 4) == Some(|r.buf| - 4))
  {
    hide PushElement, Aligned, LE, Grows;
    Pow256Values();
    PushOffsetLength(p, root);
    PushOffsetIs(p, root);
    var c := PushOffset(p, root);
    var d := |p.buf| + 4 - root;
    GrowsPush(LE(d, 4), p.buf);
    AtFront(LE(d, 4), p.buf);
    AtRead(c.buf, |c.buf|, d, 4);
    SmallMod(d, TWO_32);
    if sized {
      AlignedSelf(4);
      AlignedPlus(|p.buf|, 4, 4);
      AlignedPushElement(c, |c.buf| % TWO_32);
      SmallMod(|c.buf|, TWO_32);
      var r := WithRoot(p, root, sized);
      var size := LE(|c.buf|, 4);
      GrowsPush(size, c.buf);
      GrowsTrans(p.buf, c.buf, r.buf);
      AtFront(size, c.buf);
      AtRead(r.buf, |r.buf|, |c.buf|, 4);
      AtGrows(c.buf, r.buf, |c.buf|, LE(d, 4));
      AtRead(r.buf, |c.buf|, d, 4);
    }
  }

  lemma PushOffsetLength(p: State, root: nat)
    requires 0 < root <= |p.buf|
    ensures |WithRoot(p, root, false).buf| >= |p.buf| + 4
    ensures |WithRoot(p, root, true).buf| >= |p.buf| + 4
  {
    hide PaddingBytes, Zeros, LE;
  }
}
