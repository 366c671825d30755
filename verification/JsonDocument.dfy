/**
 * A JSON document that is patched in place, with the loops of Common/library/nlohmann/json.hpp.
 */
module JsonDocumentModule {
  import opened Wrappers
  import opened Json
  import opened JsonDiff
  import opened JsonMerge
  import opened JsonLaws

  lemma {:induction false} PrefixConcat(path: Path, a: seq<Op>, b: seq<Op>)
    ensures PrefixAll(path, a + b) == PrefixAll(path, a) + PrefixAll(path, b)
  {
    if a == [] {
      assert a + b == b;
    } else {
      assert (a + b)[0] == a[0] && (a + b)[1..] == a[1..] + b;
      PrefixConcat(path, a[1..], b);
    }
  }

  lemma PrefixCons(path: Path, op: Op, rest: seq<Op>)
    ensures PrefixAll(path, [op] + rest) == [Prefixed(path, op)] + PrefixAll(path, rest)
  {
    assert ([op] + rest)[1..] == rest;
  }

  /** A prefix of a prefixed patch is one longer prefix. */
  lemma {:induction false} PrefixTwice(path: Path, k: string, ops: seq<Op>)
    ensures PrefixAll(path, PrefixAll([k], ops)) == PrefixAll(path + [k], ops)
  {
    hide Prefixed;
    if ops != [] {
      PrefixedTwice(path, k, ops[0]);
      PrefixTwice(path, k, ops[1..]);
      assert PrefixAll([k], ops)[1..] == PrefixAll([k], ops[1..]);
    }
  }

  lemma PrefixedTwice(path: Path, k: string, op: Op)
    ensures Prefixed(path, Prefixed([k], op)) == Prefixed(path + [k], op)
  {
    assert path + ([k] + op.path) == path + [k] + op.path;
    if op.Move? || op.Copy? {
      assert path + ([k] + op.from) == path + [k] + op.from;
    }
  }

  lemma Associate(a: seq<Op>, b: seq<Op>, c: seq<Op>)
    ensures a + (b + c) == a + b + c
  {
  }

  lemma {:induction false} NoPrefix(ops: seq<Op>)
    ensures PrefixAll([], ops) == ops
  {
    if ops != [] {
      NoPrefixOne(ops[0]);
      NoPrefix(ops[1..]);
    }
  }

  lemma NoPrefixOne(op: Op)
    ensures Prefixed([], op) == op
  {
    assert [] + op.path == op.path;
    if op.Move? || op.Copy? {
      assert [] + op.from == op.from;
    }
  }

  // Each loop emits what the recursive definition of the patch unfolds to.

  lemma NoRemovals(path: Path, n: nat, m: nat)
    requires n <= m
    ensures PrefixAll(path, Removals(n, m)) == []
  {
  }

  /** Inserting at a fixed place turns the removals round: the last index comes first. */
  lemma RemovalsGrow(path: Path, n: nat, m: nat)
    requires m <= n
    ensures PrefixAll(path, Removals(n + 1, m)) == [Remove(path + [Decimal(n)])] + PrefixAll(path, Removals(n, m))
  {
    PrefixCons(path, Remove([Decimal(n)]), Removals(n, m));
  }

  lemma NoAppends(path: Path, fs: seq<Json>, i: nat)
    requires |fs| <= i
    ensures PrefixAll(path, Appends(fs, i)) == []
  {
  }

  lemma AppendsFirst(path: Path, fs: seq<Json>, i: nat)
    requires i < |fs|
    ensures PrefixAll(path, Appends(fs, i)) == [Add(path + ["-"], fs[i])] + PrefixAll(path, Appends(fs, i + 1))
  {
    PrefixCons(path, Add(["-"], fs[i]), Appends(fs, i + 1));
  }

  lemma NoElements(ord: Orders, s: Json, t: Json, path: Path, i: nat)
    requires s.JArray? && t.JArray? && (i >= |s.elems| || i >= |t.elems|)
    ensures PrefixAll(path, DiffElements(ord, path, s, t, i)) == []
  {
  }

  lemma ElementsFirst(ord: Orders, s: Json, t: Json, path: Path, i: nat)
    requires s.JArray? && t.JArray? && i < |s.elems| && i < |t.elems|
    ensures PrefixAll(path, DiffElements(ord, path, s, t, i))
         == PrefixAll(path + [Decimal(i)], Diff(ord, path + [Decimal(i)], s.elems[i], t.elems[i]))
          + PrefixAll(path, DiffElements(ord, path, s, t, i + 1))
  {
    hide Diff, PrefixAll;
    var here := Diff(ord, path + [Decimal(i)], s.elems[i], t.elems[i]);
    PrefixConcat(path, PrefixAll([Decimal(i)], here), DiffElements(ord, path, s, t, i + 1));
    PrefixTwice(path, Decimal(i), here);
  }

  lemma ArraysPatch(ord: Orders, s: Json, t: Json, path: Path)
    requires s.JArray? && t.JArray? && s != t
    ensures PrefixAll(path, Diff(ord, path, s, t))
         == PrefixAll(path, DiffElements(ord, path, s, t, 0)) + PrefixAll(path, Removals(|s.elems|, |t.elems|))
          + PrefixAll(path, Appends(t.elems, |s.elems|))
  {
    hide PrefixAll, DiffElements, Removals, Appends;
    var a, b, c := DiffElements(ord, path, s, t, 0), Removals(|s.elems|, |t.elems|), Appends(t.elems, |s.elems|);
    PrefixConcat(path, a + b, c);
    PrefixConcat(path, a, b);
  }

  lemma NoMembers(ord: Orders, s: Json, t: Json, path: Path)
    requires s.JObject? && t.JObject?
    ensures PrefixAll(path, DiffMembers(ord, path, s, t, [])) == []
  {
  }

  lemma MembersFirst(ord: Orders, s: Json, t: Json, path: Path, ks: seq<string>)
    requires s.JObject? && t.JObject? && ks != [] && ks[0] in s.members
    ensures PrefixAll(path, DiffMembers(ord, path, s, t, ks))
         == (if ks[0] in t.members then
               PrefixAll(path + [ks[0]], Diff(ord, path + [ks[0]], s.members[ks[0]], t.members[ks[0]]))
             else [Remove(path + [ks[0]])])
          + PrefixAll(path, DiffMembers(ord, path, s, t, ks[1..]))
  {
    hide Diff, PrefixAll;
    var k := ks[0];
    if k in t.members {
      var here := Diff(ord, path + [k], s.members[k], t.members[k]);
      PrefixConcat(path, PrefixAll([k], here), DiffMembers(ord, path, s, t, ks[1..]));
      PrefixTwice(path, k, here);
    } else {
      PrefixCons(path, Remove([k]), DiffMembers(ord, path, s, t, ks[1..]));
    }
  }

  lemma NoNew(s: Json, t: Json, path: Path)
    requires s.JObject? && t.JObject?
    ensures PrefixAll(path, NewMembers(s, t, [])) == []
  {
  }

  lemma NewFirst(s: Json, t: Json, path: Path, ks: seq<string>)
    requires s.JObject? && t.JObject? && ks != [] && ks[0] in t.members
    ensures PrefixAll(path, NewMembers(s, t, ks))
         == (if ks[0] !in s.members then [Add(path + [ks[0]], t.members[ks[0]])] else [])
          + PrefixAll(path, NewMembers(s, t, ks[1..]))
  {
    hide PrefixAll;
    var rest := NewMembers(s, t, ks[1..]);
    if ks[0] !in s.members {
      PrefixCons(path, Add([ks[0]], t.members[ks[0]]), rest);
    } else {
      assert [] + rest == rest && [] + PrefixAll(path, rest) == PrefixAll(path, rest);
    }
  }

  lemma ObjectsPatch(ord: Orders, s: Json, t: Json, path: Path)
    requires s.JObject? && t.JObject? && s != t
    ensures PrefixAll(path, Diff(ord, path, s, t))
         == PrefixAll(path, DiffMembers(ord, path, s, t, ord.source(path, s.members.Keys)))
          + PrefixAll(path, NewMembers(s, t, ord.target(path, t.members.Keys)))
  {
    hide PrefixAll, DiffMembers, NewMembers;
    PrefixConcat(path, DiffMembers(ord, path, s, t, ord.source(path, s.members.Keys)),
                 NewMembers(s, t, ord.target(path, t.members.Keys)));
  }

  // -------------------------------------------------------------------- diff

  /** `diff(source, target, path)`. */
  method DiffAt(ord: Orders, source: Json, target: Json, path: Path) returns (result: seq<Op>)
    requires BothEnumerate(ord)
    ensures result == PrefixAll(path, Diff(ord, path, source, target))
    decreases source, 2
  {
    if source == target {
      return [];
    }
    if !SameType(source, target) {
      return [Replace(path + [], target)];
    }
    match source
    case JArray(_) => result := DiffArrays(ord, source, target, path);
    case JObject(_) => result := DiffObjects(ord, source, target, path);
    case _ => result := [Replace(path + [], target)];
  }

  method DiffArrays(ord: Orders, source: Json, target: Json, path: Path) returns (result: seq<Op>)
    requires BothEnumerate(ord) && source.JArray? && target.JArray? && source != target
    ensures result == PrefixAll(path, Diff(ord, path, source, target))
    decreases source, 1
  {
    hide PrefixAll, DiffElements, Removals, Appends, Diff;
    var es, fs := source.elems, target.elems;
    result := CommonElements(ord, source, target, path);
    ghost var first := result;
    var i := if |es| <= |fs| then |es| else |fs|;

    var endIndex := |result|;
    NoRemovals(path, i, |fs|);
    while i < |es|
      invariant |es| <= |fs| ==> i == |es|
      invariant |fs| < |es| ==> |fs| <= i <= |es|
      invariant result == first + PrefixAll(path, Removals(i, |fs|))
    {
      RemovalsGrow(path, i, |fs|);
      result := result[..endIndex] + [Remove(path + [Decimal(i)])] + result[endIndex..];
      i := i + 1;
    }

    ghost var second := result;
    while i < |fs|
      invariant |es| <= i && (|fs| < |es| ==> i == |es|)
      invariant result + PrefixAll(path, Appends(fs, i)) == second + PrefixAll(path, Appends(fs, |es|))
    {
      AppendsFirst(path, fs, i);
      result := result + [Add(path + ["-"], fs[i])];
      i := i + 1;
    }
    NoAppends(path, fs, i);
    ArraysPatch(ord, source, target, path);
  }

  /** The first pass: the elements both arrays have. */
  method CommonElements(ord: Orders, source: Json, target: Json, path: Path) returns (result: seq<Op>)
    requires BothEnumerate(ord) && source.JArray? && target.JArray?
    ensures result == PrefixAll(path, DiffElements(ord, path, source, target, 0))
    decreases source, 0
  {
    hide PrefixAll, DiffElements, Diff;
    result := [];
    var i := 0;
    while i < |source.elems| && i < |target.elems|
      invariant i <= |source.elems| && i <= |target.elems|
      invariant result + PrefixAll(path, DiffElements(ord, path, source, target, i))
             == PrefixAll(path, DiffElements(ord, path, source, target, 0))
    {
      var tempDiff := DiffAt(ord, source.elems[i], target.elems[i], path + [Decimal(i)]);
      ElementsFirst(ord, source, target, path, i);
      result := result + tempDiff;
      i := i + 1;
    }
    NoElements(ord, source, target, path, i);
  }

  method DiffObjects(ord: Orders, source: Json, target: Json, path: Path) returns (result: seq<Op>)
    requires BothEnumerate(ord) && source.JObject? && target.JObject? && source != target
    ensures result == PrefixAll(path, Diff(ord, path, source, target))
    decreases source, 1
  {
    hide PrefixAll, DiffMembers, NewMembers, Diff;
    result := SourceMembers(ord, source, target, path);
    ghost var first := result;
    var ks := ord.target(path, target.members.Keys);
    var i := 0;
    while i < |ks|
      invariant i <= |ks|
      invariant result + PrefixAll(path, NewMembers(source, target, ks[i..]))
             == first + PrefixAll(path, NewMembers(source, target, ks))
    {
      var k := ks[i];
      NewFirst(source, target, path, ks[i..]);
      assert ks[i..][1..] == ks[i + 1..];
      if k !in source.members {
        result := result + [Add(path + [k], target.members[k])];
      }
      i := i + 1;
    }
    ObjectsPatch(ord, source, target, path);
    NoNew(source, target, path);
    assert ks[i..] == [];
  }

  /** The first pass: the source's members. */
  method SourceMembers(ord: Orders, source: Json, target: Json, path: Path) returns (result: seq<Op>)
    requires BothEnumerate(ord) && source.JObject? && target.JObject?
    ensures result == PrefixAll(path, DiffMembers(ord, path, source, target, ord.source(path, source.members.Keys)))
    decreases source, 0
  {
    hide PrefixAll, DiffMembers, Diff;
    result := [];
    var ks := ord.source(path, source.members.Keys);
    var i := 0;
    while i < |ks|
      invariant i <= |ks|
      invariant result + PrefixAll(path, DiffMembers(ord, path, source, target, ks[i..]))
             == PrefixAll(path, DiffMembers(ord, path, source, target, ks))
    {
      var k := ks[i];
      MembersFirst(ord, source, target, path, ks[i..]);
      assert ks[i..][1..] == ks[i + 1..];
      var ops := [Remove(path + [k])];
      if k in target.members {
        ops := DiffAt(ord, source.members[k], target.members[k], path + [k]);
      }
      Associate(result, ops, PrefixAll(path, DiffMembers(ord, path, source, target, ks[i + 1..])));
      result := result + ops;
      i := i + 1;
    }
    NoMembers(ord, source, target, path);
    assert ks[i..] == [];
  }

  // -------------------------------------------------------- in-place patching

  class JsonDocument {
    var root: Json

    constructor (value: Json)
      ensures root == value
    {
      root := value;
    }

    method OperationAdd(path: Path, v: Json) returns (error: Option<Error>)
      modifies this
      ensures Outcome(root, error) == ApplyAdd(old(root), path, v)
      ensures error.None? <==> Addable(old(root), path)
      ensures error.None? ==> Get(root, Landing(old(root), path)) == Found(v)
    {
      AddLaw(root, path, v);
      if Addable(root, path) {
        AddedIsThere(root, path, v);
      }
      hide Addable, Landing;
      if path == [] {
        root := v;
        return None;
      }
      if path[..1] != path {
        var top := Get(root, path[..1]);
        if top.Missing? {
          return Some(top.error);
        }
      }
      var last := Last(path);
      var at := Get(root, Parent(path));
      if at.Missing? {
        return Some(at.error);
      }
      var parent := at.value;
      match parent {
        case JNull | JObject(_) =>
          root := Set(root, Parent(path), JObject(MembersOf(parent)[last := v]));
        case JArray(es) =>
          if last == "-" {
            root := Set(root, Parent(path), JArray(es + [v]));
          } else {
            var idx := ArrayIndex(last);
            if idx.NoIndex? {
              SetSame(root, Parent(path));
              return Some(idx.error);
            }
            if idx.value > |es| {
              SetSame(root, Parent(path));
              return Some(Outside(idx.value));
            }
            root := Set(root, Parent(path), JArray(es[..idx.value] + [v] + es[idx.value..]));
          }
        case _ =>
          SetSame(root, Parent(path));
          return Some(AssertionFailed);
      }
      return None;
    }

    method OperationRemove(path: Path) returns (error: Option<Error>)
      modifies this
      ensures Outcome(root, error) == ApplyRemove(old(root), path)
    {
      if path == [] {
        return Some(NoParent);
      }
      var last := Last(path);
      var at := Get(root, Parent(path));
      if at.Missing? {
        return Some(at.error);
      }
      SetSame(root, Parent(path));
      match at.value {
        case JObject(m) =>
          if last !in m {
            return Some(KeyNotFound);
          }
          root := Set(root, Parent(path), JObject(m - {last}));
        case JArray(es) =>
          var idx := ArrayIndex(last);
          if idx.NoIndex? {
            return Some(idx.error);
          }
          if idx.value >= |es| {
            return Some(Outside(idx.value));
          }
          root := Set(root, Parent(path), JArray(es[..idx.value] + es[idx.value + 1..]));
        case _ =>
      }
      return None;
    }

    /** `patch_inplace`: one operation after the other; what was done before an error stays done. */
    method PatchInplace(ops: seq<Op>) returns (error: Option<Error>)
      modifies this
      ensures Outcome(root, error) == ApplyAll(old(root), ops)
    {
      var i := 0;
      while i < |ops|
        invariant i <= |ops|
        invariant ApplyAll(root, ops[i..]) == ApplyAll(old(root), ops)
      {
        assert ops[i..][1..] == ops[i + 1..];
        error := Step(ops[i]);
        if error.Some? {
          return;
        }
        i := i + 1;
      }
      return None;
    }

    method Step(op: Op) returns (error: Option<Error>)
      modifies this
      ensures Outcome(root, error) == ApplyOp(old(root), op)
    {
      hide Get, Set, ApplyAdd, ApplyRemove;
      match op {
        case Add(path, v) =>
          error := OperationAdd(path, v);
        case Remove(path) =>
          error := OperationRemove(path);
        case Replace(path, v) =>
          var at := Get(root, path);
          if at.Missing? {
            return Some(at.error);
          }
          root := Set(root, path, v);
          return None;
        case Move(path, from) =>
          var at := Get(root, from);
          if at.Missing? {
            return Some(at.error);
          }
          error := OperationRemove(from);
          if error.None? {
            error := OperationAdd(path, at.value);
          }
        case Copy(path, from) =>
          var at := Get(root, from);
          if at.Missing? {
            return Some(at.error);
          }
          error := OperationAdd(path, at.value);
        case Test(path, v) =>
          var success := false;
          match Get(root, path) {
            case Found(w) => success := w == v;
            case Missing(e) =>
              if !OutOfRange(e) {
                return Some(e);
              }
          }
          return if success then None else Some(TestFailed);
      }
    }

    /** A document patched with its own difference from another becomes that other. */
    method Become(ord: Orders, target: Json) returns (error: Option<Error>)
      requires BothEnumerate(ord)
      modifies this
      ensures root == target && error == None
    {
      var patch := DiffAt(ord, root, target, []);
      NoPrefix(Diff(ord, [], root, target));
      DiffTurns(ord, [], root, target);
      error := PatchInplace(patch);
    }

    /** `merge_patch` of a document found at the path `at` of the whole one. */
    method MergePatch(ord: Order, at: Path, patch: Json)
      requires Enumerates(ord)
      modifies this
      ensures root == Merged(old(root), patch)
      decreases patch
    {
      hide Merged;
      MergeIsMerged(ord, at, root, patch);
      if patch.JObject? {
        if !root.JObject? {
          root := JObject(map[]);
        }
        var ks := ord(at, patch.members.Keys);
        var i := 0;
        while i < |ks|
          invariant i <= |ks| && root.JObject?
          invariant MergeMembers(ord, at, root.members, patch, ks[i..])
                 == MergeMembers(ord, at, MembersOf(old(root)), patch, ks)
        {
          var k := ks[i];
          var v := patch.members[k];
          assert ks[i..][1..] == ks[i + 1..];
          if v.JNull? {
            root := JObject(root.members - {k});
          } else {
            var child := new JsonDocument(MemberOrNull(root.members, k));
            MergeIsMerged(ord, at + [k], child.root, v);
            child.MergePatch(ord, at + [k], v);
            root := JObject(root.members[k := child.root]);
          }
          i := i + 1;
        }
      } else {
        root := patch;
      }
    }
  }
}
