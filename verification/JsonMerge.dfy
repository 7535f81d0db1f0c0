/**
 JSON Merge Patch (RFC 7396): the in-place loop of `merge_patch` computes the function `MergePatch` of
 section 2 of the RFC, whatever order it meets the keys in.
 */
module JsonMerge {
  import opened JsonPatch

  /** Section 2 of RFC 7396, member by member: a null deletes, anything else is merged, and what the
      patch does not mention stays. */
  function Merge(target: Json, patch: Json): Json
    decreases patch
  {
    if patch.Object? then
      var t := Members(target);
      Object(map k | k in t.Keys + patch.members.Keys && !(k in patch.members && patch.members[k].Null?)
             :: if k in patch.members then Merge(if k in t then t[k] else Null, patch.members[k]) else t[k])
    else patch
  }

  /** A target that is not an object counts as an empty one. */
  function Members(target: Json): map<string, Json> {
    if target.Object? then target.members else map[]
  }

  /** The target's members once those of the patch in `done` have been merged. */
  function Merged(t: map<string, Json>, p: map<string, Json>, done: set<string>): map<string, Json> {
    map k | k in t.Keys + (p.Keys * done) && !(k in done && k in p && p[k].Null?)
      :: if k in p && k in done then Merge(if k in t then t[k] else Null, p[k]) else t[k]
  }

  method MergePatch(target: Json, patch: Json) returns (result: Json)
    ensures result == Merge(target, patch)
    decreases patch
  {
    hide Merge, Merged;
    if !patch.Object? {
      MergedAll(target, patch);
      return patch;
    }
    var t, p := Members(target), patch.members;
    var members := t;
    var todo := p.Keys;
    ghost var done: set<string> := {};
    MergedNone(t, p);
    while todo != {}
      invariant todo + done == p.Keys && todo !! done
      invariant members == Merged(t, p, done)
      decreases |todo|
    {
      var k :| k in todo;
      if p[k].Null? {
        members := members - {k};
      } else {
        // operator[] makes a null member when there is none
        var child := if k in members then members[k] else Null;
        var merged := MergePatch(child, p[k]);
        members := members[k := merged];
      }
      MergedStep(t, p, done, k);
      todo, done := todo - {k}, done + {k};
    }
    assert done == p.Keys;
    MergedAll(target, patch);
    return Object(members);
  }

  lemma MergedNone(t: map<string, Json>, p: map<string, Json>)
    ensures Merged(t, p, {}) == t
  {}

  lemma MergedStep(t: map<string, Json>, p: map<string, Json>, done: set<string>, k: string)
    requires k in p && k !in done
    ensures var m := Merged(t, p, done);
      Merged(t, p, done + {k}) ==
      if p[k].Null? then m - {k} else m[k := Merge(if k in m then m[k] else Null, p[k])]
  {}

  lemma MergedAll(target: Json, patch: Json)
    ensures Merge(target, patch) ==
      if patch.Object? then Object(Merged(Members(target), patch.members, patch.members.Keys)) else patch
  {}

  /** What one member of the result is. */
  lemma MergeMember(target: Json, patch: Json, k: string)
    requires patch.Object?
    ensures Merge(target, patch).Object?
    ensures var t, p, m := Members(target), patch.members, Merge(target, patch).members;
      && (k in m <==> if k in p then !p[k].Null? else k in t)
      && (k in m ==> m[k] == if k in p then Merge(if k in t then t[k] else Null, p[k]) else t[k])
  {}

  /** A patch that is no object replaces the target, and a target that is none, whatever it is, counts as the
      object without members. */
  lemma MergeOfNonObjects(target: Json, patch: Json)
    ensures !patch.Object? ==> Merge(target, patch) == patch
    ensures !target.Object? ==> Merge(target, patch) == Merge(Object(map[]), patch)
    ensures Merge(target, Object(map[])) == if target.Object? then target else Object(map[])
  {
    if target.Object? { assert Merge(target, Object(map[])).members == target.members; }
  }

  /** Applying a merge patch a second time changes nothing. */
  lemma {:induction false} MergeIsIdempotent(target: Json, patch: Json)
    ensures Merge(Merge(target, patch), patch) == Merge(target, patch)
    decreases patch
  {
    if patch.Object? {
      var once := Merge(target, patch);
      var twice := Merge(once, patch);
      MergeMember(target, patch, "");
      MergeMember(once, patch, "");
      forall k ensures (k in twice.members <==> k in once.members)
        && (k in once.members ==> twice.members[k] == once.members[k])
      {
        MergeMember(target, patch, k);
        MergeMember(once, patch, k);
        hide Merge;
        if k in patch.members && !patch.members[k].Null? {
          var t := Members(target);
          MergeIsIdempotent(if k in t then t[k] else Null, patch.members[k]);
        }
      }
      hide Merge;
      assert twice.members.Keys == once.members.Keys;
    }
  }

  /** A value without null members anywhere, which is what a merge patch can produce from nothing. */
  predicate NullFree(j: Json) {
    j.Object? ==> forall k | k in j.members :: !j.members[k].Null? && NullFree(j.members[k])
  }

  /** A null-free object merged into nothing is that object: as a patch it says all there is to say. */
  lemma {:induction false} MergeIntoNothing(patch: Json)
    requires NullFree(patch)
    ensures Merge(Null, patch) == patch
    decreases patch
  {
    if patch.Object? {
      var r := Merge(Null, patch);
      MergeMember(Null, patch, "");
      forall k ensures (k in r.members <==> k in patch.members)
        && (k in patch.members ==> r.members[k] == patch.members[k])
      {
        MergeMember(Null, patch, k);
        hide Merge;
        if k in patch.members { MergeIntoNothing(patch.members[k]); }
      }
      hide Merge;
      assert r.members.Keys == patch.members.Keys;
    }
  }
}
