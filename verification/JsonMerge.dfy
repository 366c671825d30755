/**
 * `merge_patch` of Common/library/nlohmann/json.hpp: the loop over the patch's members, in whatever
 * order, computes the MergePatch of section 2 of RFC 7396.
 */
module JsonMerge {
  import opened Json
  import opened JsonDiff

  function MembersOf(j: Json): map<string, Json> {
    if j.JObject? then j.members else map[]
  }

  /** What `operator[]` refers to: a missing member is created as null. */
  function MemberOrNull(m: map<string, Json>, k: string): Json {
    if k in m then m[k] else JNull
  }

  // ------------------------------------------------------------------ the loop

  function Merge(ord: Order, at: Path, target: Json, patch: Json): Json
    requires Enumerates(ord)
    decreases patch, 1
  {
    if patch.JObject? then JObject(MergeMembers(ord, at, MembersOf(target), patch, ord(at, patch.members.Keys)))
    else patch
  }

  function MergeMembers(ord: Order, at: Path, m: map<string, Json>, patch: Json, ks: seq<string>)
    : map<string, Json>
    requires Enumerates(ord) && patch.JObject? && forall k :: k in ks ==> k in patch.members
    decreases patch, 0, |ks|
  {
    if ks == [] then m
    else
      var k := ks[0];
      var v := patch.members[k];
      var m' := if v.JNull? then m - {k} else m[k := Merge(ord, at + [k], MemberOrNull(m, k), v)];
      MergeMembers(ord, at, m', patch, ks[1..])
  }

  // --------------------------------------------------------- the specification

  /** Member by member, without an order: null deletes, any other value is merged, the rest stays. */
  function Merged(target: Json, patch: Json): Json
    decreases patch
  {
    if patch.JObject? then
      var m, p := MembersOf(target), patch.members;
      JObject(map k | k in m.Keys + p.Keys && !(k in p && p[k].JNull?) ::
                if k in p then Merged(MemberOrNull(m, k), p[k]) else m[k])
    else patch
  }

  /** The members after those of `done` have been merged into `m`. */
  ghost function Partly(m: map<string, Json>, patch: Json, done: set<string>): map<string, Json>
    requires patch.JObject? && done <= patch.members.Keys
  {
    map k | k in m.Keys + done && !(k in done && patch.members[k].JNull?) ::
      if k in done then Merged(MemberOrNull(m, k), patch.members[k]) else m[k]
  }

  /** One turn of the loop. */
  lemma PartlyStep(m: map<string, Json>, patch: Json, done: set<string>, k: string)
    requires patch.JObject? && done <= patch.members.Keys && k in patch.members && k !in done
    ensures var now, v := Partly(m, patch, done), patch.members[k];
      Partly(m, patch, done + {k}) ==
      if v.JNull? then now - {k} else now[k := Merged(MemberOrNull(now, k), v)]
  {
    hide Merged;
    var now, v := Partly(m, patch, done), patch.members[k];
    assert MemberOrNull(now, k) == MemberOrNull(m, k);
  }

  lemma PartlyEnds(target: Json, patch: Json)
    requires patch.JObject?
    ensures Partly(MembersOf(target), patch, {}) == MembersOf(target)
    ensures JObject(Partly(MembersOf(target), patch, patch.members.Keys)) == Merged(target, patch)
  {
  }

  lemma {:induction false} MergeMembersIsPartly(ord: Order, at: Path, m: map<string, Json>, patch: Json,
                                                done: set<string>, ks: seq<string>)
    requires Enumerates(ord) && patch.JObject? && done <= patch.members.Keys
    requires forall i :: 0 <= i < |ks| ==> ks[i] in patch.members && ks[i] !in done
    requires forall i, j :: 0 <= i < j < |ks| ==> ks[i] != ks[j]
    ensures done + Keys(ks) <= patch.members.Keys
    ensures MergeMembers(ord, at, Partly(m, patch, done), patch, ks) == Partly(m, patch, done + Keys(ks))
    decreases patch, 0, |ks|
  {
    hide Partly;
    if ks == [] {
      assert done + Keys(ks) == done;
    } else {
      var k := ks[0];
      var v := patch.members[k];
      if !v.JNull? {
        MergeIsMerged(ord, at + [k], MemberOrNull(Partly(m, patch, done), k), v);
      }
      PartlyStep(m, patch, done, k);
      MergeMembersIsPartly(ord, at, m, patch, done + {k}, ks[1..]);
      assert done + {k} + Keys(ks[1..]) == done + Keys(ks) by { SetSplit(ks); }
    }
  }

  /** Whatever the order of members, the loop computes the specification; so the order does not matter. */
  lemma {:induction false} MergeIsMerged(ord: Order, at: Path, target: Json, patch: Json)
    requires Enumerates(ord)
    ensures Merge(ord, at, target, patch) == Merged(target, patch)
    decreases patch, 1
  {
    if patch.JObject? {
      hide Partly, Merged;
      var ks := ord(at, patch.members.Keys);
      PartlyEnds(target, patch);
      MergeMembersIsPartly(ord, at, MembersOf(target), patch, {}, ks);
      assert {} + Keys(ks) == patch.members.Keys;
    }
  }

  // ---------------------------------------------------------------- properties

  /** Merging the same patch again changes nothing. */
  lemma {:induction false} Idempotent(target: Json, patch: Json)
    ensures Merged(Merged(target, patch), patch) == Merged(target, patch)
    decreases patch
  {
    if patch.JObject? {
      var m, p := MembersOf(target), patch.members;
      var once := Merged(target, patch).members;
      forall k | k in once
        ensures k in p ==> Merged(once[k], p[k]) == once[k]
      {
        if k in p {
          Idempotent(MemberOrNull(m, k), p[k]);
        }
      }
      var twice := Merged(Merged(target, patch), patch).members;
      assert twice.Keys == once.Keys;
      assert twice == once;
    }
  }

  /** What happens to one member: the patch decides those it mentions, and no others. */
  lemma OneMember(target: Json, patch: Json, k: string)
    requires patch.JObject?
    ensures Merged(target, patch).JObject?
    ensures k !in patch.members ==>
      (k in Merged(target, patch).members <==> target.JObject? && k in target.members)
    ensures k !in patch.members && target.JObject? && k in target.members ==>
      Merged(target, patch).members[k] == target.members[k]
    ensures k in patch.members ==>
      (k in Merged(target, patch).members <==> patch.members[k] != JNull)
  {
  }

  /** There are objects all along the path, and one at its end. */
  predicate Objects(j: Json, path: Path)
    decreases |path|
  {
    j.JObject? && (path != [] ==> path[0] in j.members && Objects(j.members[path[0]], path[1..]))
  }

  lemma {:induction false} ObjectsFound(j: Json, path: Path)
    requires Objects(j, path)
    ensures Get(j, path).Found? && Get(j, path).value.JObject?
    decreases |path|
  {
    if path != [] {
      ObjectsFound(j.members[path[0]], path[1..]);
    }
  }

  /** Below a missing member or behind something that is no object, merging starts from nothing. */
  lemma {:induction false} NothingKept(target: Json, patch: Json, path: Path, k: string, rest: Path)
    requires Objects(patch, path) && Get(patch, path).Found? && Get(patch, path).value.JObject?
    requires k !in Get(patch, path).value.members && !Objects(target, path)
    ensures Get(Merged(target, patch), path + [k] + rest) == Missing(KeyNotFound)
    decreases |path|
  {
    var whole := path + [k] + rest;
    var r := Merged(target, patch);
    if path == [] {
      assert whole[0] == k && k !in r.members;
    } else {
      var m := MembersOf(target);
      var here := path[0];
      assert whole[0] == here && whole[1..] == path[1..] + [k] + rest;
      ObjectsFound(patch, path);
      NothingKept(MemberOrNull(m, here), patch.members[here], path[1..], k, rest);
    }
  }

  /** A member the patch does not mention, at any depth, is there with all below it exactly if it was. */
  lemma {:induction false} UnmentionedStays(target: Json, patch: Json, path: Path, k: string, rest: Path)
    requires Objects(patch, path) && Get(patch, path).Found? && Get(patch, path).value.JObject?
    requires k !in Get(patch, path).value.members
    ensures Get(Merged(target, patch), path + [k] + rest)
         == if Objects(target, path) then Get(target, path + [k] + rest) else Missing(KeyNotFound)
    decreases |path|
  {
    if !Objects(target, path) {
      NothingKept(target, patch, path, k, rest);
    } else {
      var whole := path + [k] + rest;
      if path == [] {
        assert whole[0] == k && whole[1..] == rest;
      } else {
        var here := path[0];
        assert whole[0] == here && whole[1..] == path[1..] + [k] + rest;
        ObjectsFound(patch, path);
        UnmentionedStays(target.members[here], patch.members[here], path[1..], k, rest);
      }
    }
  }

  /** A member the patch mentions, at any depth: null removes it, any other value but an object replaces it. */
  lemma {:induction false} MentionedIs(target: Json, patch: Json, path: Path, k: string)
    requires Objects(patch, path) && Get(patch, path).Found? && Get(patch, path).value.JObject?
    requires k in Get(patch, path).value.members
    ensures var v := Get(patch, path).value.members[k];
      && (v.JNull? ==> Get(Merged(target, patch), path + [k]) == Missing(KeyNotFound))
      && (!v.JNull? && !v.JObject? ==> Get(Merged(target, patch), path + [k]) == Found(v))
      && (v.JObject? ==> Objects(Merged(target, patch), path + [k]))
    decreases |path|
  {
    var whole := path + [k];
    var r := Merged(target, patch);
    if path == [] {
      assert whole[0] == k && whole[1..] == [];
      if k in r.members {
        assert Get(r, whole) == Get(r.members[k], []);
      }
    } else {
      var here := path[0];
      assert whole[0] == here && whole[1..] == path[1..] + [k];
      ObjectsFound(patch, path);
      MentionedIs(MemberOrNull(MembersOf(target), here), patch.members[here], path[1..], k);
    }
  }

  /** No object reachable from `j` through objects has a null member; arrays are not looked into. */
  predicate NullFree(j: Json) {
    j.JObject? ==> forall k :: k in j.members ==> j.members[k] != JNull && NullFree(j.members[k])
  }

  /** An object patch merged into something else, or into a null-free object, leaves no null member. */
  lemma {:induction false} LeavesNoNull(target: Json, patch: Json)
    requires patch.JObject? && NullFree(target)
    ensures NullFree(Merged(target, patch))
    decreases patch
  {
    var m, p := MembersOf(target), patch.members;
    var r := Merged(target, patch);
    forall k | k in r.members
      ensures r.members[k] != JNull && NullFree(r.members[k])
    {
      if k !in p {
        assert r.members[k] == m[k];
      } else {
        assert r.members[k] == Merged(MemberOrNull(m, k), p[k]);
        if p[k].JObject? {
          LeavesNoNull(MemberOrNull(m, k), p[k]);
        }
      }
    }
  }
}
