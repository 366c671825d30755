/**
 * What each patch operation does to a document, in terms of what is found at which path and of array
 * positions (sections 4.1 to 4.6 of RFC 6902).
 */
module JsonLaws {
  import opened Wrappers
  import opened Json

  // ----------------------------------------------------------------- indices

  lemma DigitOnly(c: char)
    requires DigitValue(c).Some?
    ensures var d := DigitValue(c).value; d < 10 && Digit(d) == c && (d == 0 ==> c == '0')
  {
  }

  lemma {:induction false} DecimalIsOnly(s: string)
    requires DigitsValue(s).Some? && s != [] && (|s| > 1 ==> s[0] != '0')
    ensures s == Decimal(DigitsValue(s).value)
    ensures DigitsValue(s).value == 0 ==> s[0] == '0'
    decreases |s|
  {
    var rest, c := s[..|s| - 1], s[|s| - 1];
    DigitOnly(c);
    hide DigitValue, Digit;
    assert s == rest + [c];
    if rest != [] {
      DecimalIsOnly(rest);
    } else {
      assert DigitsValue(rest) == Some(0);
    }
  }

  /** The tokens that name the element `n` are exactly its decimal form, so no two tokens name the same one. */
  lemma IndexIff(token: string, n: nat)
    ensures ArrayIndex(token) == Index(n) <==> token == Decimal(n)
  {
    if ArrayIndex(token) == Index(n) {
      DecimalIsOnly(token);
    }
    IndexRoundTrip(n);
  }

  lemma DecimalInjective(i: nat, j: nat)
    requires Decimal(i) == Decimal(j)
    ensures i == j
  {
    IndexRoundTrip(i);
    IndexRoundTrip(j);
  }

  /** Tokens that are no index, error by error. */
  lemma IndexErrors(token: string)
    requires forall n :: token != Decimal(n)
    ensures |token| > 1 && token[0] == '0' ==> ArrayIndex(token) == NoIndex(LeadingZero)
    ensures |token| > 1 && token[0] !in "0123456789" ==> ArrayIndex(token) == NoIndex(NotANumber)
    ensures |token| <= 1 || token[0] in "123456789" ==> ArrayIndex(token) == NoIndex(UnresolvedToken)
  {
    hide Decimal, DigitsValue;
    if ArrayIndex(token).Index? {
      IndexIff(token, ArrayIndex(token).value);
    }
  }

  /** The error for an index outside an array, with 64-bit indices. */
  function TooFar(i: nat): Error {
    if i < 18_446_744_073_709_551_615 then IndexOutOfRange
    else if i == 18_446_744_073_709_551_615 then IndexTooLarge
    else UnresolvedToken
  }

  /** What one token finds in an array, error by error. */
  lemma Elements(es: seq<Json>, i: nat)
    ensures var r := Child(JArray(es), Decimal(i));
      && (i < |es| ==> r == Found(es[i]))
      && (i >= |es| ==> r == Missing(TooFar(i)))
    ensures Child(JArray(es), "-") == Missing(PastTheEnd)
  {
    IndexRoundTrip(i);
  }

  /** Everything an array finds lies at a decimal token. */
  lemma OnlyElements(es: seq<Json>, token: string)
    requires Child(JArray(es), token).Found?
    ensures exists i :: 0 <= i < |es| && token == Decimal(i) && Child(JArray(es), token) == Found(es[i])
  {
    var i := ArrayIndex(token).value;
    IndexIff(token, i);
    assert token == Decimal(i);
  }

  // ------------------------------------------------------ assignment and paths

  /** The two paths part somewhere: neither leads through the other. */
  predicate Apart(p: Path, q: Path)
    decreases |p|
  {
    p != [] && q != [] && (p[0] != q[0] || Apart(p[1..], q[1..]))
  }

  lemma {:induction false} GetConcat(doc: Json, p: Path, q: Path)
    ensures Get(doc, p + q) == match Get(doc, p) case Missing(e) => Missing(e) case Found(c) => Get(c, q)
    decreases |p|
  {
    if p == [] {
      assert p + q == q;
    } else {
      assert (p + q)[0] == p[0] && (p + q)[1..] == p[1..] + q;
      if Child(doc, p[0]).Found? {
        GetConcat(Child(doc, p[0]).value, p[1..], q);
      }
    }
  }

  lemma SetChildGet(doc: Json, token: string, v: Json)
    requires Child(doc, token).Found?
    ensures Child(SetChild(doc, token, v), token) == Found(v)
  {
  }

  lemma SetChildKeeps(doc: Json, token: string, v: Json, other: string)
    requires Child(doc, token).Found? && other != token
    ensures Child(SetChild(doc, token, v), other) == Child(doc, other)
  {
    if doc.JArray? && ArrayIndex(other).Index? {
      IndexIff(token, ArrayIndex(token).value);
      IndexIff(other, ArrayIndex(other).value);
    }
  }

  /** What is assigned is found, with all below it. */
  lemma {:induction false} SetGet(doc: Json, path: Path, v: Json, rest: Path)
    requires Get(doc, path).Found?
    ensures Get(Set(doc, path, v), path + rest) == Get(v, rest)
    decreases |path|
  {
    if path == [] {
      assert path + rest == rest;
    } else {
      var c := Child(doc, path[0]).value;
      SetChildGet(doc, path[0], Set(c, path[1..], v));
      SetGet(c, path[1..], v, rest);
      assert (path + rest)[0] == path[0] && (path + rest)[1..] == path[1..] + rest;
      hide SetChild, Child;
    }
  }

  /** What lies apart is as it was. */
  lemma {:induction false} SetKeeps(doc: Json, path: Path, v: Json, q: Path)
    requires Get(doc, path).Found? && Apart(path, q)
    ensures Get(Set(doc, path, v), q) == Get(doc, q)
    decreases |path|
  {
    var c := Child(doc, path[0]).value;
    if q[0] != path[0] {
      SetChildKeeps(doc, path[0], Set(c, path[1..], v), q[0]);
    } else {
      SetChildGet(doc, path[0], Set(c, path[1..], v));
      SetKeeps(c, path[1..], v, q[1..]);
    }
    hide SetChild, Child;
  }

  lemma {:induction false} SetSame(doc: Json, path: Path)
    requires Get(doc, path).Found?
    ensures Set(doc, path, Get(doc, path).value) == doc
    decreases |path|
  {
    if path != [] {
      SetSame(Child(doc, path[0]).value, path[1..]);
    }
  }

  // -------------------------------------------------------------------- test

  /** "test" changes nothing and succeeds exactly when that value is there; a malformed index stays an error. */
  lemma TestLaw(doc: Json, path: Path, v: Json)
    ensures var r := ApplyOp(doc, Test(path, v)); var at := Get(doc, path);
      && r.doc == doc
      && (r.error.None? <==> at == Found(v))
      && (r.error.Some? ==>
            r.error.value == if at.Missing? && (at.error.LeadingZero? || at.error.NotANumber?) then at.error
                             else TestFailed)
  {
    if Get(doc, path).Missing? {
      GetErrors(doc, path);
    }
  }

  lemma {:induction false} GetErrors(doc: Json, path: Path)
    requires Get(doc, path).Missing?
    ensures var e := Get(doc, path).error;
      e.LeadingZero? || e.NotANumber? || e.IndexOutOfRange? || e.PastTheEnd? || e.KeyNotFound?
      || e.UnresolvedToken? || e.IndexTooLarge?
    decreases |path|
  {
    if Child(doc, path[0]).Found? {
      GetErrors(Child(doc, path[0]).value, path[1..]);
    }
  }

  // --------------------------------------------------------------------- add

  /** The parent of an addition: an object, null, or an array with room at that index. */
  predicate HasRoom(parent: Json, last: string) {
    || parent.JNull? || parent.JObject?
    || (parent.JArray? && (last == "-" || exists i :: 0 <= i <= |parent.elems| && last == Decimal(i)))
  }

  predicate Addable(doc: Json, path: Path) {
    path == [] || (Get(doc, Parent(path)).Found? && HasRoom(Get(doc, Parent(path)).value, Last(path)))
  }

  /** Where the value added ends up: behind the last element for "-". */
  function Landing(doc: Json, path: Path): Path {
    if path != [] && Last(path) == "-" && Get(doc, Parent(path)).Found? && Get(doc, Parent(path)).value.JArray?
    then Parent(path) + [Decimal(|Get(doc, Parent(path)).value.elems|)]
    else path
  }

  /** `fs` is `es` with `v` put in as the `i`th element. */
  predicate InsertedAt(es: seq<Json>, fs: seq<Json>, i: nat, v: Json) {
    && i <= |es| && |fs| == |es| + 1 && fs[i] == v
    && (forall j :: 0 <= j < i ==> fs[j] == es[j])
    && (forall j :: i <= j < |es| ==> fs[j + 1] == es[j])
  }

  lemma {:induction false} FirstFound(doc: Json, path: Path)
    requires |path| > 1 && Get(doc, Parent(path)).Found?
    ensures Get(doc, path[..1]).Found?
  {
    var rest := Parent(path)[1..];
    assert Parent(path) == path[..1] + rest;
    GetConcat(doc, path[..1], rest);
  }

  /** Below the root, an addition assigns what AddTo makes of the parent. */
  lemma AddAssigns(doc: Json, path: Path, v: Json)
    requires path != [] && Get(doc, Parent(path)).Found?
    ensures var parent := Get(doc, Parent(path)).value; var r := AddTo(parent, Last(path), v);
      && ApplyAdd(doc, path, v) == Outcome(Set(doc, Parent(path), r.doc), r.error)
      && Get(ApplyAdd(doc, path, v).doc, Parent(path)) == Found(r.doc)
  {
    if |path| > 1 {
      FirstFound(doc, path);
    }
    hide AddTo;
    SetGet(doc, Parent(path), AddTo(Get(doc, Parent(path)).value, Last(path), v).doc, []);
    assert Parent(path) + [] == Parent(path);
  }

  /** An addition to an array. */
  lemma AddToArray(doc: Json, path: Path, v: Json, es: seq<Json>, i: nat)
    requires path != [] && Get(doc, Parent(path)) == Found(JArray(es)) && i <= |es|
    requires Last(path) == Decimal(i) || (Last(path) == "-" && i == |es|)
    ensures var r := ApplyAdd(doc, path, v); var parent := Get(r.doc, Parent(path));
      r.error == None && parent.Found? && parent.value.JArray? && InsertedAt(es, parent.value.elems, i, v)
  {
    IndexRoundTrip(i);
    AddAssigns(doc, path, v);
    hide Get, Set, ApplyAdd, Decimal, ArrayIndex;
  }

  /** An addition to an object, or to null, which becomes one: that member and no other. */
  lemma AddToObject(doc: Json, path: Path, v: Json)
    requires path != [] && Get(doc, Parent(path)).Found?
    requires var parent := Get(doc, Parent(path)).value; parent.JObject? || parent.JNull?
    ensures var r := ApplyAdd(doc, path, v); var parent, was := Get(r.doc, Parent(path)), Get(doc, Parent(path)).value;
      && r.error == None && parent.Found? && parent.value.JObject?
      && Last(path) in parent.value.members && parent.value.members[Last(path)] == v
      && forall k :: k != Last(path) ==>
        (k in parent.value.members <==> was.JObject? && k in was.members)
        && (k in parent.value.members ==> parent.value.members[k] == was.members[k])
  {
    AddAssigns(doc, path, v);
    hide Get, Set;
  }

  /** What is added is found where it landed. */
  lemma AddedIsThere(doc: Json, path: Path, v: Json)
    requires Addable(doc, path)
    ensures Get(ApplyAdd(doc, path, v).doc, Landing(doc, path)) == Found(v)
  {
    if path != [] {
      var parent := Get(doc, Parent(path)).value;
      var last := if parent.JArray? && Last(path) == "-" then Decimal(|parent.elems|) else Last(path);
      var landing := Parent(path) + [last];
      assert Landing(doc, path) == landing;
      AddAssigns(doc, path, v);
      hide Get, Set, ApplyAdd, Addable, Landing, AddTo;
      GetLast(ApplyAdd(doc, path, v).doc, landing);
      assert Parent(landing) == Parent(path) && Last(landing) == last;
      AddedChild(parent, Last(path), v, last);
    }
  }

  lemma AddedChild(parent: Json, last: string, v: Json, landed: string)
    requires HasRoom(parent, last)
    requires landed == if parent.JArray? && last == "-" then Decimal(|parent.elems|) else last
    ensures Child(AddTo(parent, last, v).doc, landed) == Found(v)
  {
    if parent.JArray? {
      IndexRoundTrip(|parent.elems|);
      if last != "-" {
        var i :| 0 <= i <= |parent.elems| && last == Decimal(i);
        IndexRoundTrip(i);
      }
    }
  }

  lemma OneToken(doc: Json, token: string)
    ensures Get(doc, [token]) == Child(doc, token)
  {
    assert [token][1..] == [];
  }

  /** Exactly then it succeeds; otherwise the document is as it was. */
  lemma AddLaw(doc: Json, path: Path, v: Json)
    ensures var r := ApplyAdd(doc, path, v);
      && (r.error.None? <==> Addable(doc, path))
      && (r.error.Some? ==> r.doc == doc)
      && (path == [] ==> r.doc == v)
      && (path != [] && Get(doc, Parent(path)).Missing? ==> r.error == Some(Get(doc, Parent(path)).error))
  {
    if path != [] {
      if Get(doc, Parent(path)).Found? {
        AddAssigns(doc, path, v);
        AddToLaw(Get(doc, Parent(path)).value, Last(path), v);
        SetSame(doc, Parent(path));
        hide Get, Set, ApplyAdd, AddTo, HasRoom;
      } else if |path| > 1 {
        var rest := Parent(path)[1..];
        assert Parent(path) == path[..1] + rest;
        GetConcat(doc, path[..1], rest);
      }
    }
  }

  lemma AddToLaw(parent: Json, last: string, v: Json)
    ensures var r := AddTo(parent, last, v);
      (r.error.None? <==> HasRoom(parent, last)) && (r.error.Some? ==> r.doc == parent)
  {
    if parent.JArray? && last != "-" {
      if HasRoom(parent, last) {
        var i :| 0 <= i <= |parent.elems| && last == Decimal(i);
        IndexRoundTrip(i);
      }
      if ArrayIndex(last).Index? {
        IndexIff(last, ArrayIndex(last).value);
      }
    }
  }

  /** The errors of an addition whose parent exists. */
  lemma AddErrors(doc: Json, path: Path, v: Json)
    requires path != [] && Get(doc, Parent(path)).Found? && !Addable(doc, path)
    ensures var e := ApplyAdd(doc, path, v).error; var parent := Get(doc, Parent(path)).value;
      && (!parent.JArray? ==> e == Some(AssertionFailed))
      && (parent.JArray? && ArrayIndex(Last(path)).NoIndex? ==> e == Some(ArrayIndex(Last(path)).error))
      && forall i: nat :: parent.JArray? && Last(path) == Decimal(i) ==> e == Some(TooFar(i))
  {
    AddAssigns(doc, path, v);
    hide Get, Set, ApplyAdd;
    var parent := Get(doc, Parent(path)).value;
    forall i: nat | Last(path) == Decimal(i)
      ensures ArrayIndex(Last(path)) == Index(i) && Last(path) != "-"
    {
      IndexRoundTrip(i);
    }
    if ArrayIndex(Last(path)).Index? {
      IndexIff(Last(path), ArrayIndex(Last(path)).value);
    }
  }

  /** Nothing else is touched: what lies apart from the parent stays. */
  lemma AddKeeps(doc: Json, path: Path, v: Json, q: Path)
    requires path != [] && Apart(Parent(path), q)
    ensures Get(ApplyAdd(doc, path, v).doc, q) == Get(doc, q)
  {
    if Get(doc, Parent(path)).Found? {
      AddAssigns(doc, path, v);
      SetKeeps(doc, Parent(path), AddTo(Get(doc, Parent(path)).value, Last(path), v).doc, q);
    }
  }

  // ------------------------------------------------------------------ remove

  lemma RemoveAssigns(doc: Json, path: Path)
    requires path != [] && Get(doc, Parent(path)).Found?
    ensures var r := RemoveFrom(Get(doc, Parent(path)).value, Last(path));
      && ApplyRemove(doc, path) == Outcome(Set(doc, Parent(path), r.doc), r.error)
      && Get(ApplyRemove(doc, path).doc, Parent(path)) == Found(r.doc)
  {
    hide RemoveFrom;
    SetGet(doc, Parent(path), RemoveFrom(Get(doc, Parent(path)).value, Last(path)).doc, []);
    assert Parent(path) + [] == Parent(path);
  }

  /** A removal from an array closes the gap. */
  lemma RemoveFromArray(doc: Json, path: Path, es: seq<Json>, i: nat)
    requires path != [] && Get(doc, Parent(path)) == Found(JArray(es)) && i < |es| && Last(path) == Decimal(i)
    ensures var r := ApplyRemove(doc, path); var parent := Get(r.doc, Parent(path));
      r.error == None && parent.Found? && parent.value.JArray? && InsertedAt(parent.value.elems, es, i, es[i])
  {
    IndexRoundTrip(i);
    RemoveAssigns(doc, path);
    hide Get, Set;
  }

  /** A removal from an object takes that member and no other. */
  lemma RemoveFromObject(doc: Json, path: Path, m: map<string, Json>)
    requires path != [] && Get(doc, Parent(path)) == Found(JObject(m)) && Last(path) in m
    ensures var r := ApplyRemove(doc, path); var parent := Get(r.doc, Parent(path));
      && r.error == None && parent.Found? && parent.value.JObject?
      && Last(path) !in parent.value.members
      && forall k :: k != Last(path) ==>
        (k in parent.value.members <==> k in m) && (k in m ==> parent.value.members[k] == m[k])
  {
    RemoveAssigns(doc, path);
    hide Get, Set;
  }

  /**
   * It succeeds exactly when the value is there, or the parent is neither object nor array; then nothing
   * happens. On an error the document is as it was.
   */
  lemma RemoveLaw(doc: Json, path: Path)
    ensures var r := ApplyRemove(doc, path);
      && (path == [] ==> r.error == Some(NoParent))
      && (path != [] ==>
            var parent := Get(doc, Parent(path));
            && (r.error.None? <==>
                  parent.Found? && (parent.value.JObject? || parent.value.JArray? ==> Get(doc, path).Found?))
            && (parent.Missing? ==> r.error == Some(parent.error))
            && (parent.Found? && r.error.Some? && Last(path) != "-" ==> r.error == Some(Get(doc, path).error))
            && (parent.Found? && !parent.value.JObject? && !parent.value.JArray? ==> r.doc == doc))
      && (r.error.Some? ==> r.doc == doc)
  {
    if path != [] {
      GetLast(doc, path);
      if Get(doc, Parent(path)).Found? {
        RemoveAssigns(doc, path);
        RemoveFromLaw(Get(doc, Parent(path)).value, Last(path));
        SetSame(doc, Parent(path));
        hide Get, Set, ApplyRemove, RemoveFrom, Child;
      }
    }
  }

  lemma RemoveFromLaw(parent: Json, last: string)
    ensures var r := RemoveFrom(parent, last);
      && (r.error.None? <==> (parent.JObject? || parent.JArray? ==> Child(parent, last).Found?))
      && (r.error.Some? ==> r.doc == parent)
      && (r.error.Some? && last != "-" ==> r.error == Some(Child(parent, last).error))
      && (!parent.JObject? && !parent.JArray? ==> r.doc == parent)
  {
  }

  /** The last token is looked up in the parent. */
  lemma GetLast(doc: Json, path: Path)
    requires path != []
    ensures Get(doc, path) == match Get(doc, Parent(path))
      case Missing(e) => Missing(e)
      case Found(parent) => Child(parent, Last(path))
  {
    assert path == Parent(path) + [Last(path)];
    GetConcat(doc, Parent(path), [Last(path)]);
    if Get(doc, Parent(path)).Found? {
      OneToken(Get(doc, Parent(path)).value, Last(path));
    }
  }

  lemma RemoveKeeps(doc: Json, path: Path, q: Path)
    requires path != [] && Apart(Parent(path), q)
    ensures Get(ApplyRemove(doc, path).doc, q) == Get(doc, q)
  {
    if Get(doc, Parent(path)).Found? {
      SetKeeps(doc, Parent(path), RemoveFrom(Get(doc, Parent(path)).value, Last(path)).doc, q);
    }
  }

  // --------------------------------------------------- replace, copy and move

  /** "replace" puts the value where one was, and touches nothing else. */
  lemma ReplaceLaw(doc: Json, path: Path, v: Json)
    ensures var r := ApplyOp(doc, Replace(path, v)); var at := Get(doc, path);
      && (at.Missing? ==> r == Outcome(doc, Some(at.error)))
      && (at.Found? ==> r.error == None && Get(r.doc, path) == Found(v)
                        && forall q :: Apart(path, q) ==> Get(r.doc, q) == Get(doc, q))
  {
    if Get(doc, path).Found? {
      SetGet(doc, path, v, []);
      assert path + [] == path;
      forall q | Apart(path, q)
        ensures Get(Set(doc, path, v), q) == Get(doc, q)
      {
        SetKeeps(doc, path, v, q);
      }
    }
  }

  /** "copy" adds the value found at `from`, which is then found at `path`. */
  lemma CopyLaw(doc: Json, path: Path, from: Path)
    ensures var r := ApplyOp(doc, Copy(path, from)); var at := Get(doc, from);
      && (at.Missing? ==> r == Outcome(doc, Some(at.error)))
      && (at.Found? ==> r == ApplyOp(doc, Add(path, at.value)))
      && (r.error.None? <==> at.Found? && Addable(doc, path))
      && (r.error.None? ==> Get(r.doc, Landing(doc, path)) == at)
      && (r.error.Some? ==> r.doc == doc)
  {
    if Get(doc, from).Found? {
      AddLaw(doc, path, Get(doc, from).value);
      if Addable(doc, path) {
        AddedIsThere(doc, path, Get(doc, from).value);
      }
    }
  }

  /** "move" adds the value found at `from` to the document without it, where it is then found at `path`. */
  lemma MoveLaw(doc: Json, path: Path, from: Path)
    ensures var r := ApplyOp(doc, Move(path, from)); var at := Get(doc, from);
      var removed := ApplyOp(doc, Remove(from));
      && (at.Missing? ==> r == Outcome(doc, Some(at.error)))
      && (at.Found? && from == [] ==> r == Outcome(doc, Some(NoParent)))
      && (at.Found? && from != [] ==> removed.error == None && r == ApplyOp(removed.doc, Add(path, at.value)))
      && (r.error.None? <==> at.Found? && from != [] && Addable(removed.doc, path))
      && (r.error.None? ==> Get(r.doc, Landing(removed.doc, path)) == at)
  {
    var at := Get(doc, from);
    if at.Found? && from != [] {
      GetLast(doc, from);
      RemoveLaw(doc, from);
      hide Get, ApplyRemove, ApplyAdd, Addable, Landing;
      var removed := ApplyRemove(doc, from).doc;
      AddLaw(removed, path, at.value);
      if Addable(removed, path) {
        AddedIsThere(removed, path, at.value);
      }
    }
  }

  // -------------------------------------------------------------- whole patches

  /** The operations before have been done, the first error ends the patch, and nothing after it is done. */
  lemma {:induction false} PatchLaw(doc: Json, before: seq<Op>, op: Op, after: seq<Op>)
    requires ApplyAll(doc, before).error.None?
    ensures var now := ApplyOp(ApplyAll(doc, before).doc, op);
      ApplyAll(doc, before + [op] + after) == if now.error.Some? then now else ApplyAll(now.doc, after)
    decreases |before|
  {
    hide ApplyOp;
    var ops := before + [op] + after;
    if before == [] {
      assert ops[0] == op && ops[1..] == after;
    } else {
      assert ops[0] == before[0] && ops[1..] == before[1..] + [op] + after;
      PatchLaw(ApplyOp(doc, before[0]).doc, before[1..], op, after);
    }
  }
}
