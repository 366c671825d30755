/**
 * `diff` of Common/library/nlohmann/json.hpp: the patch it emits, applied step by step to the source
 * document, yields the target document.
 */
module JsonDiff {
  import opened Wrappers
  import opened Json
  import opened JsonLaws

  /**
   * The order in which a document's objects list their members. Each object, known by the path to it,
   * has an order of its own, so documents that keep the order of insertion are covered.
   */
  type Order = (Path, set<string>) -> seq<string>

  ghost predicate Enumerates(ord: Order) {
    forall at: Path, ks: set<string> {:trigger ord(at, ks)} ::
      && (forall i, j :: 0 <= i < j < |ord(at, ks)| ==> ord(at, ks)[i] != ord(at, ks)[j])
      && (forall k :: k in ord(at, ks) <==> k in ks)
  }

  /** The orders of the two documents compared. */
  datatype Orders = Orders(source: Order, target: Order)

  ghost predicate BothEnumerate(ord: Orders) {
    Enumerates(ord.source) && Enumerates(ord.target)
  }

  predicate SameType(s: Json, t: Json) {
    match s
    case JNull => t.JNull?
    case JBool(_) => t.JBool?
    case JNumber(_) => t.JNumber?
    case JString(_) => t.JString?
    case JArray(_) => t.JArray?
    case JObject(_) => t.JObject?
  }

  function Prefixed(prefix: Path, op: Op): Op {
    match op
    case Add(p, v) => Add(prefix + p, v)
    case Remove(p) => Remove(prefix + p)
    case Replace(p, v) => Replace(prefix + p, v)
    case Move(p, f) => Move(prefix + p, prefix + f)
    case Copy(p, f) => Copy(prefix + p, prefix + f)
    case Test(p, v) => Test(prefix + p, v)
  }

  function PrefixAll(prefix: Path, ops: seq<Op>): seq<Op> {
    if ops == [] then [] else [Prefixed(prefix, ops[0])] + PrefixAll(prefix, ops[1..])
  }

  lemma {:induction false} PrefixPointwise(prefix: Path, ops: seq<Op>)
    ensures |PrefixAll(prefix, ops)| == |ops|
    ensures forall i :: 0 <= i < |ops| ==> PrefixAll(prefix, ops)[i] == Prefixed(prefix, ops[i])
  {
    if ops != [] {
      PrefixPointwise(prefix, ops[1..]);
    }
  }

  // --------------------------------------------------------------- the patch

  /** The patch from `s` to `t`, which are found at the path `at`; its own paths are relative to them. */
  function Diff(ord: Orders, at: Path, s: Json, t: Json): seq<Op>
    decreases s, 2
  {
    if s == t then []
    else if !SameType(s, t) then [Replace([], t)]
    else if s.JArray? then
      DiffElements(ord, at, s, t, 0) + Removals(|s.elems|, |t.elems|) + Appends(t.elems, |s.elems|)
    else if s.JObject? then
      DiffMembers(ord, at, s, t, ord.source(at, s.members.Keys)) + NewMembers(s, t, ord.target(at, t.members.Keys))
    else [Replace([], t)]
  }

  /** The first pass over arrays: the elements both have, from `i` on. */
  function DiffElements(ord: Orders, at: Path, s: Json, t: Json, i: nat): seq<Op>
    requires s.JArray? && t.JArray?
    decreases s, 1, |s.elems| - i
  {
    if i < |s.elems| && i < |t.elems| then
      PrefixAll([Decimal(i)], Diff(ord, at + [Decimal(i)], s.elems[i], t.elems[i])) + DiffElements(ord, at, s, t, i + 1)
    else []
  }

  /** Elements beyond the target's length, last first. */
  function Removals(n: nat, m: nat): seq<Op> {
    if n <= m then [] else [Remove([Decimal(n - 1)])] + Removals(n - 1, m)
  }

  function Appends(fs: seq<Json>, i: nat): seq<Op>
    decreases |fs| - i
  {
    if i < |fs| then [Add(["-"], fs[i])] + Appends(fs, i + 1) else []
  }

  /** The first pass over objects: the source's members `ks`. */
  function DiffMembers(ord: Orders, at: Path, s: Json, t: Json, ks: seq<string>): seq<Op>
    requires s.JObject? && t.JObject?
    decreases s, 1, |ks|
  {
    if ks == [] then []
    else
      var k := ks[0];
      (if k !in s.members then []
       else if k in t.members then PrefixAll([k], Diff(ord, at + [k], s.members[k], t.members[k]))
       else [Remove([k])])
      + DiffMembers(ord, at, s, t, ks[1..])
  }

  /** The second pass over objects: the target's members `ks` that the source lacks. */
  function NewMembers(s: Json, t: Json, ks: seq<string>): seq<Op>
    requires s.JObject? && t.JObject?
    decreases |ks|
  {
    if ks == [] then []
    else
      var k := ks[0];
      (if k in t.members && k !in s.members then [Add([k], t.members[k])] else [])
      + NewMembers(s, t, ks[1..])
  }

  // ------------------------------------------------------------------ frames

  /** Operations that act inside the value they are applied to, rather than on its place in a parent. */
  predicate Inner(op: Op) {
    match op
    case Add(p, _) => p != []
    case Remove(p) => p != []
    case Replace(_, _) => true
    case _ => false
  }

  predicate AllInner(ops: seq<Op>) {
    forall i :: 0 <= i < |ops| ==> Inner(ops[i])
  }

  lemma SetChildTwice(doc: Json, k: string, v: Json, w: Json)
    requires Child(doc, k).Found?
    ensures Child(SetChild(doc, k, v), k).Found?
    ensures SetChild(SetChild(doc, k, v), k, w) == SetChild(doc, k, w)
  {
  }

  lemma SetChildSame(doc: Json, k: string)
    requires Child(doc, k).Found?
    ensures SetChild(doc, k, Child(doc, k).value) == doc
  {
  }

  lemma GetInside(doc: Json, k: string, p: Path)
    requires Child(doc, k).Found?
    ensures Get(doc, [k] + p) == Get(Child(doc, k).value, p)
    ensures Get(doc, [k]) == Child(doc, k)
  {
    assert ([k] + p)[1..] == p;
    assert [k][1..] == [];
  }

  lemma SetInside(doc: Json, k: string, p: Path, v: Json)
    requires Child(doc, k).Found? && Get(Child(doc, k).value, p).Found?
    ensures Get(doc, [k] + p).Found?
    ensures Set(doc, [k] + p, v) == SetChild(doc, k, Set(Child(doc, k).value, p, v))
  {
    GetInside(doc, k, p);
    assert ([k] + p)[1..] == p;
  }

  lemma PathInside(k: string, p: Path)
    requires p != []
    ensures Parent([k] + p) == [k] + Parent(p) && Last([k] + p) == Last(p) && ([k] + p)[..1] == [k]
  {
  }

  /** An operation that succeeds on a child changes that child alone when its path is prefixed. */
  lemma OpInside(doc: Json, k: string, op: Op)
    requires Child(doc, k).Found? && Inner(op)
    requires ApplyOp(Child(doc, k).value, op).error == None
    ensures ApplyOp(doc, Prefixed([k], op))
         == Outcome(SetChild(doc, k, ApplyOp(Child(doc, k).value, op).doc), None)
  {
    var c := Child(doc, k).value;
    match op {
      case Add(p, v) =>
        PathInside(k, p);
        GetInside(doc, k, Parent(p));
        SetInside(doc, k, Parent(p), AddTo(Get(c, Parent(p)).value, Last(p), v).doc);
      case Remove(p) =>
        PathInside(k, p);
        GetInside(doc, k, Parent(p));
        SetInside(doc, k, Parent(p), RemoveFrom(Get(c, Parent(p)).value, Last(p)).doc);
      case Replace(p, v) =>
        GetInside(doc, k, p);
        SetInside(doc, k, p, v);
    }
  }

  /** The same for a whole patch. */
  lemma {:induction false} PatchInside(doc: Json, k: string, ops: seq<Op>)
    requires Child(doc, k).Found? && AllInner(ops)
    requires ApplyAll(Child(doc, k).value, ops).error == None
    ensures ApplyAll(doc, PrefixAll([k], ops))
         == Outcome(SetChild(doc, k, ApplyAll(Child(doc, k).value, ops).doc), None)
    decreases |ops|
  {
    hide ApplyOp;
    if ops == [] {
      SetChildSame(doc, k);
    } else {
      var c := Child(doc, k).value;
      OpInside(doc, k, ops[0]);
      var c' := ApplyOp(c, ops[0]).doc;
      var doc' := SetChild(doc, k, c');
      SetChildGet(doc, k, c');
      PatchInside(doc', k, ops[1..]);
      SetChildTwice(doc, k, c', ApplyAll(c', ops[1..]).doc);
      assert PrefixAll([k], ops)[1..] == PrefixAll([k], ops[1..]);
    }
  }

  lemma {:induction false} ApplyConcat(doc: Json, a: seq<Op>, b: seq<Op>)
    requires ApplyAll(doc, a).error == None
    ensures ApplyAll(doc, a + b) == ApplyAll(ApplyAll(doc, a).doc, b)
    decreases |a|
  {
    hide ApplyOp;
    if a == [] {
      assert a + b == b;
    } else {
      assert (a + b)[0] == a[0] && (a + b)[1..] == a[1..] + b;
      ApplyConcat(ApplyOp(doc, a[0]).doc, a[1..], b);
    }
  }

  lemma InnerPrefixed(k: string, ops: seq<Op>)
    requires AllInner(ops)
    ensures AllInner(PrefixAll([k], ops))
  {
    PrefixPointwise([k], ops);
  }

  // ------------------------------------------------------------------ arrays

  /** The patch turns `doc` into `want` without an error, and stays inside `doc`. */
  predicate Turns(doc: Json, ops: seq<Op>, want: Json) {
    AllInner(ops) && ApplyAll(doc, ops) == Outcome(want, None)
  }

  lemma TurnsConcat(doc: Json, a: seq<Op>, mid: Json, b: seq<Op>, want: Json)
    requires Turns(doc, a, mid) && Turns(mid, b, want)
    ensures Turns(doc, a + b, want)
  {
    ApplyConcat(doc, a, b);
  }

  lemma TurnsOne(doc: Json, op: Op)
    requires Inner(op) && ApplyOp(doc, op).error == None
    ensures Turns(doc, [op], ApplyOp(doc, op).doc)
  {
    assert [op][1..] == [];
  }

  /** Removing from the last index down never invalidates an index still to come. */
  lemma {:induction false} RemovalsTruncate(es: seq<Json>, m: nat)
    requires m <= |es|
    ensures Turns(JArray(es), Removals(|es|, m), JArray(es[..m]))
    decreases |es|
  {
    if |es| <= m {
      assert es[..m] == es;
    } else {
      var n := |es|;
      var op := Remove([Decimal(n - 1)]);
      IndexRoundTrip(n - 1);
      assert Parent(op.path) == [] && es[..n - 1] + es[n..] == es[..n - 1];
      TurnsOne(JArray(es), op);
      RemovalsTruncate(es[..n - 1], m);
      assert es[..n - 1][..m] == es[..m];
      TurnsConcat(JArray(es), [op], JArray(es[..n - 1]), Removals(n - 1, m), JArray(es[..m]));
    }
  }

  lemma {:induction false} AppendsExtend(es: seq<Json>, fs: seq<Json>, i: nat)
    requires i <= |fs|
    ensures Turns(JArray(es), Appends(fs, i), JArray(es + fs[i..]))
    decreases |fs| - i
  {
    if i == |fs| {
      assert es + fs[i..] == es;
    } else {
      var op := Add(["-"], fs[i]);
      assert Parent(op.path) == [];
      TurnsOne(JArray(es), op);
      AppendsExtend(es + [fs[i]], fs, i + 1);
      assert es + [fs[i]] + fs[i + 1..] == es + fs[i..];
      TurnsConcat(JArray(es), [op], JArray(es + [fs[i]]), Appends(fs, i + 1), JArray(es + fs[i..]));
    }
  }

  /** A patch for one child, prefixed with its token, replaces that child. */
  lemma ChildTurns(doc: Json, k: string, ops: seq<Op>, want: Json)
    requires Child(doc, k).Found? && Turns(Child(doc, k).value, ops, want)
    ensures Turns(doc, PrefixAll([k], ops), SetChild(doc, k, want))
  {
    PatchInside(doc, k, ops);
    InnerPrefixed(k, ops);
  }

  /** The array after the first pass has reached index `i`. */
  function Mixed(s: Json, t: Json, i: nat): seq<Json>
    requires s.JArray? && t.JArray? && i <= |s.elems| && i <= |t.elems|
  {
    t.elems[..i] + s.elems[i..]
  }

  lemma ElementsTurn(ord: Orders, at: Path, s: Json, t: Json, i: nat)
    requires BothEnumerate(ord) && s.JArray? && t.JArray? && i <= |s.elems| && i <= |t.elems|
    ensures var m := if |s.elems| <= |t.elems| then |s.elems| else |t.elems|;
      Turns(JArray(Mixed(s, t, i)), DiffElements(ord, at, s, t, i), JArray(Mixed(s, t, m)))
    decreases s, 1, |s.elems| - i
  {
    if i < |s.elems| && i < |t.elems| {
      var m := if |s.elems| <= |t.elems| then |s.elems| else |t.elems|;
      var doc := JArray(Mixed(s, t, i));
      var k := Decimal(i);
      IndexRoundTrip(i);
      DiffTurns(ord, at + [Decimal(i)], s.elems[i], t.elems[i]);
      var step := PrefixAll([k], Diff(ord, at + [Decimal(i)], s.elems[i], t.elems[i]));
      ChildTurns(doc, k, Diff(ord, at + [Decimal(i)], s.elems[i], t.elems[i]), t.elems[i]);
      assert Mixed(s, t, i)[i := t.elems[i]] == Mixed(s, t, i + 1);
      ElementsTurn(ord, at, s, t, i + 1);
      TurnsConcat(doc, step, JArray(Mixed(s, t, i + 1)), DiffElements(ord, at, s, t, i + 1), JArray(Mixed(s, t, m)));
    }
  }

  /** The source is no longer than the target: the rest is appended. */
  lemma GrowTurn(ord: Orders, at: Path, s: Json, t: Json)
    requires BothEnumerate(ord) && s.JArray? && t.JArray? && s != t && |s.elems| <= |t.elems|
    requires Turns(JArray(Mixed(s, t, 0)), DiffElements(ord, at, s, t, 0), JArray(Mixed(s, t, |s.elems|)))
    ensures Turns(s, Diff(ord, at, s, t), t)
  {
    hide Turns, DiffElements;
    var es, fs := s.elems, t.elems;
    var first := DiffElements(ord, at, s, t, 0);
    assert Mixed(s, t, 0) == es && Mixed(s, t, |es|) == fs[..|es|];
    AppendsExtend(fs[..|es|], fs, |es|);
    assert fs[..|es|] + fs[|es|..] == fs;
    TurnsConcat(s, first, JArray(fs[..|es|]), Appends(fs, |es|), t);
    assert first + Removals(|es|, |fs|) + Appends(fs, |es|) == first + Appends(fs, |es|);
  }

  /** The source is longer: the rest is removed, last first. */
  lemma ShrinkTurn(ord: Orders, at: Path, s: Json, t: Json)
    requires BothEnumerate(ord) && s.JArray? && t.JArray? && s != t && |s.elems| > |t.elems|
    requires Turns(JArray(Mixed(s, t, 0)), DiffElements(ord, at, s, t, 0), JArray(Mixed(s, t, |t.elems|)))
    ensures Turns(s, Diff(ord, at, s, t), t)
  {
    hide Turns, DiffElements;
    var es, fs := s.elems, t.elems;
    var first := DiffElements(ord, at, s, t, 0);
    var mid := Mixed(s, t, |fs|);
    assert Mixed(s, t, 0) == es && mid[..|fs|] == fs;
    RemovalsTruncate(mid, |fs|);
    TurnsConcat(s, first, JArray(mid), Removals(|es|, |fs|), t);
    assert first + Removals(|es|, |fs|) + Appends(fs, |es|) == first + Removals(|es|, |fs|);
  }

  lemma ArraysTurn(ord: Orders, at: Path, s: Json, t: Json)
    requires BothEnumerate(ord) && s.JArray? && t.JArray? && s != t
    ensures Turns(s, Diff(ord, at, s, t), t)
    decreases s, 2, 0
  {
    hide Turns, DiffElements, Diff;
    ElementsTurn(ord, at, s, t, 0);
    if |s.elems| <= |t.elems| {
      GrowTurn(ord, at, s, t);
    } else {
      ShrinkTurn(ord, at, s, t);
    }
  }

  // ----------------------------------------------------------------- objects

  /** The members after the source members `done` have been dealt with. */
  function Half(s: map<string, Json>, t: map<string, Json>, done: set<string>): map<string, Json> {
    map k | k in s.Keys && !(k in done && k !in t) :: if k in done then t[k] else s[k]
  }

  lemma MembersTurn(ord: Orders, at: Path, s: Json, t: Json, done: set<string>, ks: seq<string>)
    requires BothEnumerate(ord) && s.JObject? && t.JObject?
    requires (forall i :: 0 <= i < |ks| ==> ks[i] in s.members && ks[i] !in done)
    requires forall i, j :: 0 <= i < j < |ks| ==> ks[i] != ks[j]
    ensures Turns(JObject(Half(s.members, t.members, done)), DiffMembers(ord, at, s, t, ks),
                  JObject(Half(s.members, t.members, done + Keys(ks))))
    decreases s, 1, |ks|
  {
    if ks == [] {
      assert done + Keys(ks) == done;
    } else {
      var k := ks[0];
      var doc := JObject(Half(s.members, t.members, done));
      var done' := done + {k};
      var doc' := JObject(Half(s.members, t.members, done'));
      MemberTurns(ord, at, s, t, done, k);
      MembersTurn(ord, at, s, t, done', ks[1..]);
      assert done' + Keys(ks[1..]) == done + Keys(ks) by { SetSplit(ks); }
      TurnsConcat(doc, MemberOps(ord, at, s, t, k), doc', DiffMembers(ord, at, s, t, ks[1..]),
                  JObject(Half(s.members, t.members, done + Keys(ks))));
    }
  }

  function Keys(ks: seq<string>): set<string> {
    set k | k in ks
  }

  lemma SetSplit(ks: seq<string>)
    requires ks != []
    ensures Keys(ks) == {ks[0]} + Keys(ks[1..])
  {
    assert ks == [ks[0]] + ks[1..];
  }

  /** What the first pass emits for the member `k` of the source. */
  function MemberOps(ord: Orders, at: Path, s: Json, t: Json, k: string): seq<Op>
    requires s.JObject? && t.JObject?
  {
    if k !in s.members then []
    else if k in t.members then PrefixAll([k], Diff(ord, at + [k], s.members[k], t.members[k]))
    else [Remove([k])]
  }

  lemma MemberTurns(ord: Orders, at: Path, s: Json, t: Json, done: set<string>, k: string)
    requires BothEnumerate(ord) && s.JObject? && t.JObject? && k in s.members && k !in done
    ensures Turns(JObject(Half(s.members, t.members, done)), MemberOps(ord, at, s, t, k),
                  JObject(Half(s.members, t.members, done + {k})))
    decreases s, 1, 0
  {
    var doc := JObject(Half(s.members, t.members, done));
    var after := Half(s.members, t.members, done + {k});
    if k in t.members {
      DiffTurns(ord, at + [k], s.members[k], t.members[k]);
      ChildTurns(doc, k, Diff(ord, at + [k], s.members[k], t.members[k]), t.members[k]);
      assert doc.members[k := t.members[k]] == after;
    } else {
      assert Parent([k]) == [];
      TurnsOne(doc, Remove([k]));
      assert doc.members - {k} == after;
    }
  }

  lemma {:induction false} NewTurn(s: Json, t: Json, doc: map<string, Json>, ks: seq<string>)
    requires s.JObject? && t.JObject?
    ensures Turns(JObject(doc), NewMembers(s, t, ks), JObject(WithNew(s.members, t.members, doc, Keys(ks))))
    decreases |ks|
  {
    hide Turns, Keys, WithNew;
    if ks == [] {
      WithNewNone(s.members, t.members, doc);
      TurnsNone(JObject(doc));
    } else {
      var k := ks[0];
      SetSplit(ks);
      var doc' := if k in t.members && k !in s.members then doc[k := t.members[k]] else doc;
      NewStep(s, t, doc, k);
      NewTurn(s, t, doc', ks[1..]);
      WithNewStep(s.members, t.members, doc, k, Keys(ks[1..]));
      TurnsConcat(JObject(doc), NewOps(s, t, k), JObject(doc'), NewMembers(s, t, ks[1..]),
                  JObject(WithNew(s.members, t.members, doc, Keys(ks))));
    }
  }

  lemma WithNewNone(s: map<string, Json>, t: map<string, Json>, doc: map<string, Json>)
    ensures WithNew(s, t, doc, Keys([])) == doc
  {
    assert Keys([]) == {};
  }

  lemma WithNewStep(s: map<string, Json>, t: map<string, Json>, doc: map<string, Json>, k: string, ks: set<string>)
    ensures WithNew(s, t, if k in t && k !in s then doc[k := t[k]] else doc, ks) == WithNew(s, t, doc, {k} + ks)
  {
  }

  lemma TurnsNone(doc: Json)
    ensures Turns(doc, [], doc)
  {
  }

  /** What the second pass emits for the member `k` of the target. */
  function NewOps(s: Json, t: Json, k: string): seq<Op>
    requires s.JObject? && t.JObject?
  {
    if k in t.members && k !in s.members then [Add([k], t.members[k])] else []
  }

  lemma NewStep(s: Json, t: Json, doc: map<string, Json>, k: string)
    requires s.JObject? && t.JObject?
    ensures Turns(JObject(doc), NewOps(s, t, k),
                  JObject(if k in t.members && k !in s.members then doc[k := t.members[k]] else doc))
  {
    if k in t.members && k !in s.members {
      assert Parent([k]) == [];
      TurnsOne(JObject(doc), Add([k], t.members[k]));
    }
  }

  /** `doc` with those of the target's members `ks` that the source lacks. */
  function WithNew(s: map<string, Json>, t: map<string, Json>, doc: map<string, Json>, ks: set<string>)
    : map<string, Json>
  {
    doc + (map k | k in ks && k in t && k !in s :: t[k])
  }

  /** Before the passes the document is the source, after them the target. */
  lemma HalfEnds(s: map<string, Json>, t: map<string, Json>, ks: seq<string>, ls: seq<string>)
    requires forall k :: k in ks <==> k in s.Keys
    requires forall k :: k in ls <==> k in t.Keys
    ensures Half(s, t, {}) == s
    ensures WithNew(s, t, Half(s, t, {} + Keys(ks)), Keys(ls)) == t
  {
    assert Half(s, t, {} + Keys(ks)).Keys == s.Keys * t.Keys;
  }

  lemma ObjectsTurn(ord: Orders, at: Path, s: Json, t: Json)
    requires BothEnumerate(ord) && s.JObject? && t.JObject? && s != t
    ensures Turns(s, Diff(ord, at, s, t), t)
    decreases s, 2, 0
  {
    hide Turns, Half, WithNew, Keys, DiffMembers, NewMembers;
    var ks, ls := ord.source(at, s.members.Keys), ord.target(at, t.members.Keys);
    HalfEnds(s.members, t.members, ks, ls);
    MembersTurn(ord, at, s, t, {}, ks);
    var mid := Half(s.members, t.members, {} + Keys(ks));
    NewTurn(s, t, mid, ls);
    TurnsConcat(s, DiffMembers(ord, at, s, t, ks), JObject(mid), NewMembers(s, t, ls), t);
  }

  /**
   * For all documents, and whatever the order of members, applying the patch never raises an error
   * and yields exactly the target.
   */
  lemma DiffTurns(ord: Orders, at: Path, s: Json, t: Json)
    requires BothEnumerate(ord)
    ensures Turns(s, Diff(ord, at, s, t), t)
    decreases s, 3, 0
  {
    if s == t {
    } else if !SameType(s, t) || !(s.JArray? || s.JObject?) {
      TurnsOne(s, Replace([], t));
    } else if s.JArray? {
      ArraysTurn(ord, at, s, t);
    } else {
      ObjectsTurn(ord, at, s, t);
    }
  }

  // ------------------------------------------------------------------ economy

  /** The patch is empty exactly for equal documents. */
  lemma EmptyDiff(ord: Orders, at: Path, s: Json, t: Json)
    requires BothEnumerate(ord)
    ensures Diff(ord, at, s, t) == [] <==> s == t
  {
    hide Diff;
    DiffTurns(ord, at, s, t);
    DiffSame(ord, at, s);
  }

  lemma DiffSame(ord: Orders, at: Path, s: Json)
    ensures Diff(ord, at, s, s) == []
  {
  }

  /** No operation is about the member `k` or anything in it, or about the whole document. */
  predicate Avoids(ops: seq<Op>, k: string) {
    forall i :: 0 <= i < |ops| ==> ops[i].path != [] && ops[i].path[0] != k
  }

  lemma PrefixAvoids(k: string, k': string, ops: seq<Op>)
    requires k != k'
    ensures Avoids(PrefixAll([k'], ops), k)
  {
    PrefixPointwise([k'], ops);
  }

  lemma {:induction false} MembersAvoid(ord: Orders, at: Path, s: Json, t: Json, ks: seq<string>, k: string)
    requires s.JObject? && t.JObject? && k in s.members && k in t.members && s.members[k] == t.members[k]
    ensures Avoids(DiffMembers(ord, at, s, t, ks), k)
    decreases |ks|
  {
    hide PrefixAll, Diff;
    if ks != [] {
      MembersAvoid(ord, at, s, t, ks[1..], k);
      var k' := ks[0];
      if k' == k {
        DiffSame(ord, at + [k], s.members[k]);
        PrefixPointwise([k], []);
      } else if k' in s.members && k' in t.members {
        PrefixAvoids(k, k', Diff(ord, at + [k'], s.members[k'], t.members[k']));
      }
    }
  }

  lemma {:induction false} NewAvoid(s: Json, t: Json, ks: seq<string>, k: string)
    requires s.JObject? && t.JObject? && k in s.members
    ensures Avoids(NewMembers(s, t, ks), k)
    decreases |ks|
  {
    if ks != [] {
      NewAvoid(s, t, ks[1..], k);
    }
  }

  /** A member the documents agree on is never mentioned by the patch between them. */
  lemma AgreedMemberUntouched(ord: Orders, at: Path, s: Json, t: Json, k: string)
    requires s.JObject? && t.JObject? && k in s.members && k in t.members && s.members[k] == t.members[k]
    ensures Avoids(Diff(ord, at, s, t), k)
  {
    hide DiffMembers, NewMembers;
    if s != t {
      MembersAvoid(ord, at, s, t, ord.source(at, s.members.Keys), k);
      NewAvoid(s, t, ord.target(at, t.members.Keys), k);
    }
  }

  lemma {:induction false} ElementsAvoid(ord: Orders, at: Path, s: Json, t: Json, i: nat, j: nat)
    requires s.JArray? && t.JArray? && j < |s.elems| && j < |t.elems| && s.elems[j] == t.elems[j]
    ensures Avoids(DiffElements(ord, at, s, t, i), Decimal(j))
    decreases |s.elems| - i
  {
    hide PrefixAll, Diff, Decimal;
    if i < |s.elems| && i < |t.elems| {
      ElementsAvoid(ord, at, s, t, i + 1, j);
      if i == j {
        DiffSame(ord, at + [Decimal(i)], s.elems[i]);
        PrefixPointwise([Decimal(i)], []);
      } else {
        if Decimal(i) == Decimal(j) {
          DecimalInjective(i, j);
        }
        PrefixAvoids(Decimal(j), Decimal(i), Diff(ord, at + [Decimal(i)], s.elems[i], t.elems[i]));
      }
    }
  }

  lemma {:induction false} RemovalsAvoid(n: nat, m: nat, j: nat)
    requires j < m
    ensures Avoids(Removals(n, m), Decimal(j))
  {
    hide Decimal;
    if n > m {
      RemovalsAvoid(n - 1, m, j);
      if Decimal(n - 1) == Decimal(j) {
        DecimalInjective(n - 1, j);
      }
    }
  }

  lemma {:induction false} AppendsAvoid(fs: seq<Json>, i: nat, j: nat)
    ensures Avoids(Appends(fs, i), Decimal(j))
    decreases |fs| - i
  {
    IndexRoundTrip(j);
    if i < |fs| {
      AppendsAvoid(fs, i + 1, j);
    }
  }

  /** Nor is an element two arrays agree on. */
  lemma AgreedElementUntouched(ord: Orders, at: Path, s: Json, t: Json, j: nat)
    requires s.JArray? && t.JArray? && j < |s.elems| && j < |t.elems| && s.elems[j] == t.elems[j]
    ensures Avoids(Diff(ord, at, s, t), Decimal(j))
  {
    hide DiffElements, Removals, Appends, Decimal;
    if s != t {
      ElementsAvoid(ord, at, s, t, 0, j);
      RemovalsAvoid(|s.elems|, |t.elems|, j);
      AppendsAvoid(t.elems, |s.elems|, j);
    }
  }
}
