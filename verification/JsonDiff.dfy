/**
 `diff` and its inverse: every operation of `diff(source, target)` applies without error, and
 together they turn the source into the target. The proof needs that a patch made for a subtree works
 on the subtree in place (`ApplyAllUnder`), that array removals run from the back, and that work on
 one key of an object leaves the others alone.
 */
module JsonDiff {
  import opened Decimals
  import opened JsonPatch

  // ------------------------------------------------- operations inside a subtree

  /** The operation with its paths taken from the root above the value at `path`. */
  function Prefix(path: Pointer, op: Op): Op {
    match op
    case Add(p, v) => Add(path + p, v)
    case Remove(p) => Remove(path + p)
    case Replace(p, v) => Replace(path + p, v)
    case Move(from, p) => Move(path + from, path + p)
    case Copy(from, p) => Copy(path + from, path + p)
    case Test(p, v) => Test(path + p, v)
  }

  function PrefixAll(path: Pointer, ops: seq<Op>): seq<Op> {
    seq(|ops|, i requires 0 <= i < |ops| => Prefix(path, ops[i]))
  }

  function Under(t: string, op: Op): Op { Prefix([t], op) }

  function UnderAll(t: string, ops: seq<Op>): seq<Op> { PrefixAll([t], ops) }

  /** Operations that act inside a subtree as they act on it alone: an `add` or `remove` whose path is
      the subtree itself would act on the parent instead. */
  predicate Inner(op: Op) { op.Replace? || ((op.Add? || op.Remove?) && op.path != []) }

  predicate AllInner(ops: seq<Op>) { forall i :: 0 <= i < |ops| ==> Inner(ops[i]) }

  lemma AtUnder(doc: Json, t: string, p: Pointer)
    requires Child(doc, t).Ok?
    ensures At(doc, [t] + p) == At(Child(doc, t).value, p)
  {}

  lemma PutUnder(doc: Json, t: string, p: Pointer, v: Json)
    requires Child(doc, t).Ok? && At(Child(doc, t).value, p).Ok?
    ensures At(doc, [t] + p).Ok? && Put(doc, [t] + p, v) == SetChild(doc, t, Put(Child(doc, t).value, p, v))
  {}

  lemma ChildOfSet(doc: Json, t: string, v: Json, v': Json)
    requires Child(doc, t).Ok?
    ensures Child(SetChild(doc, t, v), t) == Ok(v)
    ensures SetChild(SetChild(doc, t, v), t, v') == SetChild(doc, t, v')
    ensures SetChild(doc, t, Child(doc, t).value) == doc
  {}

  /** The check on the first token that `operation_add` makes fails only when the parent's does. */
  lemma TopIsRedundant(doc: Json, p: Pointer)
    requires |p| > 1
    ensures At(doc, p[..1]).Err? ==> At(doc, p[..|p| - 1]) == At(doc, p[..1])
  {}

  lemma AddUnder(doc: Json, t: string, p: Pointer, v: Json)
    requires Child(doc, t).Ok? && p != []
    ensures var inner := OperationAdd(Child(doc, t).value, p, v);
      OperationAdd(doc, [t] + p, v) == if inner.Err? then inner else Ok(SetChild(doc, t, inner.value))
  {
    var c, q, front := Child(doc, t).value, [t] + p, p[..|p| - 1];
    assert q[..|q| - 1] == [t] + front && q[|q| - 1] == p[|p| - 1];
    assert q[..1] == [t] + [];
    AtUnder(doc, t, []);
    AtUnder(doc, t, front);
    if |p| > 1 { TopIsRedundant(c, p); }
    if At(c, front).Ok? && AddTo(At(c, front).value, p[|p| - 1], v).Ok? {
      PutUnder(doc, t, front, AddTo(At(c, front).value, p[|p| - 1], v).value);
    }
    hide At, Put, Child, SetChild, AddTo;
  }

  lemma RemoveUnder(doc: Json, t: string, p: Pointer)
    requires Child(doc, t).Ok? && p != []
    ensures var inner := OperationRemove(Child(doc, t).value, p);
      OperationRemove(doc, [t] + p) == if inner.Err? then inner else Ok(SetChild(doc, t, inner.value))
  {
    var c, q, front := Child(doc, t).value, [t] + p, p[..|p| - 1];
    assert q[..|q| - 1] == [t] + front && q[|q| - 1] == p[|p| - 1];
    AtUnder(doc, t, front);
    if At(c, front).Ok? && RemoveFrom(At(c, front).value, p[|p| - 1]).Ok? {
      PutUnder(doc, t, front, RemoveFrom(At(c, front).value, p[|p| - 1]).value);
    }
    hide At, Put, Child, SetChild, RemoveFrom;
  }

  lemma ApplyUnder(doc: Json, t: string, op: Op)
    requires Child(doc, t).Ok? && Inner(op)
    ensures var inner := Apply(Child(doc, t).value, op);
      Apply(doc, Under(t, op)) == Outcome(SetChild(doc, t, inner.doc), inner.error)
  {
    ChildOfSet(doc, t, Null, Null);
    var c := Child(doc, t).value;
    match op
    case Add(p, v) => AddUnder(doc, t, p, v); hide OperationAdd, SetChild, Child;
    case Remove(p) => RemoveUnder(doc, t, p); hide OperationRemove, SetChild, Child;
    case Replace(p, v) =>
      AtUnder(doc, t, p);
      if At(c, p).Ok? { PutUnder(doc, t, p, v); }
      hide At, Put, SetChild, Child;
  }

  /** The context lemma: a patch for a child, moved under its token, patches the child in place. */
  lemma {:induction false} ApplyAllUnder(doc: Json, t: string, ops: seq<Op>)
    requires Child(doc, t).Ok? && AllInner(ops)
    ensures var inner := ApplyAll(Child(doc, t).value, ops);
      ApplyAll(doc, UnderAll(t, ops)) == Outcome(SetChild(doc, t, inner.doc), inner.error)
    decreases |ops|
  {
    ChildOfSet(doc, t, Null, Null);
    if ops != [] {
      var c := Child(doc, t).value;
      ApplyUnder(doc, t, ops[0]);
      var first := Apply(c, ops[0]);
      assert UnderAll(t, ops)[0] == Under(t, ops[0]) && UnderAll(t, ops)[1..] == UnderAll(t, ops[1..]);
      if first.error.Ok? {
        ChildOfSet(doc, t, first.doc, ApplyAll(first.doc, ops[1..]).doc);
        ApplyAllUnder(SetChild(doc, t, first.doc), t, ops[1..]);
      }
      hide Apply, SetChild, Child, Under;
    }
  }

  lemma {:induction false} ApplyAppend(doc: Json, a: seq<Op>, b: seq<Op>)
    requires ApplyAll(doc, a).error.Ok?
    ensures ApplyAll(doc, a + b) == ApplyAll(ApplyAll(doc, a).doc, b)
    decreases |a|
  {
    hide Apply;
    if a == [] {
      assert a + b == b;
    } else {
      assert (a + b)[0] == a[0] && (a + b)[1..] == a[1..] + b;
      ApplyAppend(Apply(doc, a[0]).doc, a[1..], b);
    }
  }

  // -------------------------------------------------------- paths from the root

  lemma PrefixUnder(path: Pointer, t: string, ops: seq<Op>)
    ensures PrefixAll(path, UnderAll(t, ops)) == PrefixAll(path + [t], ops)
  {
    forall i | 0 <= i < |ops| ensures PrefixAll(path, UnderAll(t, ops))[i] == PrefixAll(path + [t], ops)[i] {
      PrefixUnderOne(path, t, ops[i]);
    }
  }

  lemma PrefixUnderOne(path: Pointer, t: string, op: Op)
    ensures Prefix(path, Under(t, op)) == Prefix(path + [t], op)
  {}

  lemma PrefixAppend(path: Pointer, a: seq<Op>, b: seq<Op>)
    ensures PrefixAll(path, a + b) == PrefixAll(path, a) + PrefixAll(path, b)
  {}

  lemma PrefixNothing(ops: seq<Op>)
    ensures PrefixAll([], ops) == ops
  {
    forall i | 0 <= i < |ops| ensures Prefix([], ops[i]) == ops[i] {
      assert forall p: Pointer :: [] + p == p;
    }
  }

  /** A patch for the value at `path`, its paths taken from the root, patches that value in place. */
  lemma {:induction false} ApplyAt(doc: Json, path: Pointer, ops: seq<Op>)
    requires At(doc, path).Ok? && AllInner(ops)
    ensures var inner := ApplyAll(At(doc, path).value, ops);
      ApplyAll(doc, PrefixAll(path, ops)) == Outcome(Put(doc, path, inner.doc), inner.error)
    decreases |path|
  {
    hide ApplyAll, SetChild, UnderAll, PrefixAll, AllInner;
    if path == [] {
      PrefixNothing(ops);
    } else {
      var t, rest := path[0], path[1..];
      var c := Child(doc, t).value;
      ApplyAt(c, rest, ops);
      AllInnerPrefix(rest, ops);
      ApplyAllUnder(doc, t, PrefixAll(rest, ops));
      UnderPrefix(t, rest, ops);
      assert [t] + rest == path;
    }
  }

  lemma UnderPrefix(t: string, rest: Pointer, ops: seq<Op>)
    ensures UnderAll(t, PrefixAll(rest, ops)) == PrefixAll([t] + rest, ops)
  {
    forall i | 0 <= i < |ops| ensures Under(t, Prefix(rest, ops[i])) == Prefix([t] + rest, ops[i]) {
      assert forall p: Pointer :: [t] + (rest + p) == [t] + rest + p;
    }
  }

  lemma AllInnerPrefix(path: Pointer, ops: seq<Op>)
    requires AllInner(ops)
    ensures AllInner(PrefixAll(path, ops))
  {}

  /** One more stretch of operations after a patch, seen both from the subtree and from the root. */
  lemma Extend(doc: Json, a: seq<Op>, mid: Json, b: seq<Op>, result: Json)
    requires Patches(doc, a, mid) && Patches(mid, b, result) && AllInner(a) && AllInner(b)
    ensures Patches(doc, a + b, result) && AllInner(a + b)
  {
    ApplyAppend(doc, a, b);
    hide ApplyAll;
  }

  // ---------------------------------------------------------------------- arrays

  /** Removals of the elements from `m` to `i - 1`, the last one first. */
  function Removals(m: nat, i: nat): seq<Op> {
    if i <= m then [] else [Remove([Digits(i - 1)])] + Removals(m, i - 1)
  }

  lemma RemoveLast(xs: seq<Json>)
    requires xs != []
    ensures Apply(Array(xs), Remove([Digits(|xs| - 1)])) == Outcome(Array(xs[..|xs| - 1]), Ok(()))
  {
    hide Digits, ArrayIndex;
    IndexRoundTrip(|xs| - 1);
    var p := [Digits(|xs| - 1)];
    assert p[..0] == [] && At(Array(xs), []) == Ok(Array(xs));
    assert xs[..|xs| - 1] + xs[|xs|..] == xs[..|xs| - 1];
    hide At;
  }

  lemma {:induction false} RemovalsWork(xs: seq<Json>, m: nat)
    requires m <= |xs|
    ensures Patches(Array(xs), Removals(m, |xs|), Array(xs[..m])) && AllInner(Removals(m, |xs|))
    decreases |xs|
  {
    if m == |xs| {
      assert xs[..m] == xs;
    } else {
      RemoveLast(xs);
      var ys := xs[..|xs| - 1];
      RemovalsWork(ys, m);
      assert ys[..m] == xs[..m];
      assert Removals(m, |xs|)[1..] == Removals(m, |ys|);
      hide Apply;
    }
  }

  lemma ApplyOne(doc: Json, op: Op, result: Json)
    requires Apply(doc, op) == Outcome(result, Ok(()))
    ensures Patches(doc, [op], result)
  {}

  lemma AppendWorks(xs: seq<Json>, v: Json)
    ensures Patches(Array(xs), [Add(["-"], v)], Array(xs + [v]))
  {}

  /** Patching element `i` of an array whose first `i` elements are done already. */
  lemma ElementWorks(xs: seq<Json>, i: nat, ops: seq<Op>, v: Json)
    requires i < |xs| && Patches(xs[i], ops, v) && AllInner(ops)
    ensures Patches(Array(xs), UnderAll(Digits(i), ops), Array(xs[i := v])) && AllInner(UnderAll(Digits(i), ops))
  {
    IndexRoundTrip(i);
    ApplyAllUnder(Array(xs), Digits(i), ops);
    forall k | 0 <= k < |ops| ensures Inner(Under(Digits(i), ops[k])) { assert Inner(ops[k]); }
    hide ApplyAll, Digits, ArrayIndex;
  }

  // --------------------------------------------------------------------- objects

  /** The object once the source keys in `done` have been visited. */
  function Visited(s: map<string, Json>, t: map<string, Json>, done: set<string>): map<string, Json> {
    map k | k in s.Keys && (k !in done || k in t.Keys) :: if k in done then t[k] else s[k]
  }

  /** The object once all source keys and the new keys in `added` are done. */
  function Completed(s: map<string, Json>, t: map<string, Json>, added: set<string>): map<string, Json> {
    map k | k in t.Keys && (k in s.Keys || k in added) :: t[k]
  }

  lemma MemberWorks(s: map<string, Json>, t: map<string, Json>, done: set<string>, k: string, ops: seq<Op>)
    requires k in s && k in t && k !in done && Patches(s[k], ops, t[k]) && AllInner(ops)
    ensures Patches(Object(Visited(s, t, done)), UnderAll(k, ops), Object(Visited(s, t, done + {k})))
    ensures AllInner(UnderAll(k, ops))
  {
    var m := Visited(s, t, done);
    assert k in m && m[k] == s[k];
    ApplyAllUnder(Object(m), k, ops);
    assert m[k := t[k]] == Visited(s, t, done + {k});
    forall i | 0 <= i < |ops| ensures Inner(Under(k, ops[i])) { assert Inner(ops[i]); }
    hide ApplyAll;
  }

  lemma RemoveMember(m: map<string, Json>, k: string)
    requires k in m
    ensures Patches(Object(m), [Remove([k])], Object(m - {k}))
  {}

  lemma AddMember(m: map<string, Json>, k: string, v: Json)
    ensures Patches(Object(m), [Add([k], v)], Object(m[k := v]))
  {}

  lemma LostMemberWorks(s: map<string, Json>, t: map<string, Json>, done: set<string>, k: string)
    requires k in s && k !in t && k !in done
    ensures Patches(Object(Visited(s, t, done)), [Remove([k])], Object(Visited(s, t, done + {k})))
  {
    var m := Visited(s, t, done);
    RemoveMember(m, k);
    assert m - {k} == Visited(s, t, done + {k});
  }

  lemma NewMemberWorks(s: map<string, Json>, t: map<string, Json>, added: set<string>, k: string)
    requires k !in s && k in t && k !in added
    ensures Patches(Object(Completed(s, t, added)), [Add([k], t[k])], Object(Completed(s, t, added + {k})))
  {
    var m := Completed(s, t, added);
    AddMember(m, k, t[k]);
    assert m[k := t[k]] == Completed(s, t, added + {k});
  }

  // -------------------------------------------------------------------- locality

  /** An operation stands where it has to: a replacement by what the target has, where both sides exist,
      differ and are not both arrays or both objects; a removal where only the source has something; an
      addition where only the target has. */
  predicate IsLocal(source: Json, target: Json, op: Op) {
    match op
    case Replace(p, v) =>
      && At(source, p).Ok? && At(target, p) == Ok(v) && At(source, p).value != v
      && !(At(source, p).value.Array? && v.Array?) && !(At(source, p).value.Object? && v.Object?)
    case Remove(p) => p != [] && At(source, p).Ok? && At(target, p).Err?
    case Add(p, v) =>
      && p != [] && At(source, p).Err?
      && (At(target, p) == Ok(v)
          || (p[|p| - 1] == "-" && At(target, p[..|p| - 1]).Ok? && At(target, p[..|p| - 1]).value.Array?
              && v in At(target, p[..|p| - 1]).value.items))
    case _ => false
  }

  predicate AllLocal(source: Json, target: Json, ops: seq<Op>) {
    forall i :: 0 <= i < |ops| ==> IsLocal(source, target, ops[i])
  }

  lemma LocalAppend(source: Json, target: Json, a: seq<Op>, b: seq<Op>)
    requires AllLocal(source, target, a) && AllLocal(source, target, b)
    ensures AllLocal(source, target, a + b)
  {
    hide IsLocal;
  }

  lemma LocalUnderOne(source: Json, target: Json, t: string, op: Op)
    requires Child(source, t).Ok? && Child(target, t).Ok?
    requires IsLocal(Child(source, t).value, Child(target, t).value, op)
    ensures IsLocal(source, target, Under(t, op))
  {
    AtUnder(source, t, op.path);
    AtUnder(target, t, op.path);
    if op.Add? {
      var q := [t] + op.path;
      assert q[..|q| - 1] == [t] + op.path[..|op.path| - 1] && q[|q| - 1] == op.path[|op.path| - 1];
      AtUnder(target, t, op.path[..|op.path| - 1]);
    }
    hide At, Child;
  }

  lemma LocalUnder(source: Json, target: Json, t: string, ops: seq<Op>)
    requires Child(source, t).Ok? && Child(target, t).Ok?
    requires AllLocal(Child(source, t).value, Child(target, t).value, ops)
    ensures AllLocal(source, target, UnderAll(t, ops))
  {
    hide IsLocal, Child;
    forall i | 0 <= i < |ops| ensures IsLocal(source, target, UnderAll(t, ops)[i]) {
      LocalUnderOne(source, target, t, ops[i]);
    }
  }

  lemma ChildIsElement(j: Json, i: nat)
    requires j.Array?
    ensures Child(j, Digits(i)) == if i < |j.items| then Ok(j.items[i]) else Err(INDEX_RANGE)
  {
    IndexRoundTrip(i);
    hide Digits, ArrayIndex;
  }

  lemma AtOne(j: Json, t: string)
    ensures At(j, [t]) == Child(j, t)
  {
    assert [t][1..] == [];
    hide Child;
  }

  lemma {:induction false} RemovalsAreLocal(source: Json, target: Json, from: nat, i: nat)
    requires source.Array? && target.Array? && |target.items| <= from && i <= |source.items|
    ensures AllLocal(source, target, Removals(from, i))
    decreases i
  {
    if i > from {
      RemovalsAreLocal(source, target, from, i - 1);
      ChildIsElement(source, i - 1);
      ChildIsElement(target, i - 1);
      AtOne(source, Digits(i - 1));
      AtOne(target, Digits(i - 1));
      hide At, Child, Digits;
    }
  }

  // ------------------------------------------------------------------------ diff

  /** The operations are `rel`, made for the source alone, with `path` in front of every pointer; they
      turn the source into the target, stand where the two differ, and there are none exactly when the two
      are equal. */
  ghost predicate IsDiff(source: Json, target: Json, path: Pointer, result: seq<Op>, rel: seq<Op>) {
    && result == PrefixAll(path, rel) && AllInner(rel)
    && Patches(source, rel, target) && AllLocal(source, target, rel)
    && (rel == [] <==> source == target)
  }

  lemma ReplaceWorks(source: Json, target: Json, path: Pointer)
    requires source != target && !(source.Array? && target.Array?) && !(source.Object? && target.Object?)
    ensures IsDiff(source, target, path, [Replace(path, target)], [Replace([], target)])
  {
    var op := Replace([], target);
    assert path + [] == path;
    ApplyOne(source, op, target);
  }

  method Diff(source: Json, target: Json, path: Pointer) returns (result: seq<Op>, ghost rel: seq<Op>)
    ensures IsDiff(source, target, path, result, rel)
    decreases source, 1
  {
    if source == target {
      return [], [];
    }
    if source.Array? && target.Array? {
      result, rel := DiffArray(source, target, path);
    } else if source.Object? && target.Object? {
      result, rel := DiffObject(source, target, path);
    } else {
      ReplaceWorks(source, target, path);
      result, rel := [Replace(path, target)], [Replace([], target)];
    }
  }

  /** The first pass over an array: the elements both sides have. */
  method DiffCommon(source: Json, target: Json, path: Pointer) returns (result: seq<Op>, ghost rel: seq<Op>, i: nat)
    requires source.Array? && target.Array?
    ensures i <= |source.items| && i <= |target.items| && (i == |source.items| || i == |target.items|)
    ensures result == PrefixAll(path, rel) && AllInner(rel) && AllLocal(source, target, rel)
    ensures Patches(source, rel, Array(target.items[..i] + source.items[i..]))
    ensures rel == [] <==> source.items[..i] == target.items[..i]
    decreases source, 0, 0
  {
    var s, t := source.items, target.items;
    result, rel, i := [], [], 0;
    assert t[..0] + s[0..] == s;
    while i < |s| && i < |t|
      invariant i <= |s| && i <= |t|
      invariant result == PrefixAll(path, rel) && AllInner(rel) && AllLocal(source, target, rel)
      invariant Patches(source, rel, Array(t[..i] + s[i..]))
      invariant rel == [] <==> s[..i] == t[..i]
    {
      hide ApplyAll, Digits, PrefixAll, UnderAll, AllInner, AllLocal, Patches;
      ghost var mid := t[..i] + s[i..];
      MidStep(s, t, i);
      var temp, inner := Diff(s[i], t[i], path + [Digits(i)]);
      result := result + temp;
      rel := ArrayStep(source, target, mid, path, Digits(i), i, rel, inner);
      i := i + 1;
    }
  }

  /** One more element of the target in place of one of the source. */
  lemma MidStep(s: seq<Json>, t: seq<Json>, i: nat)
    requires i < |s| && i < |t|
    ensures var mid := t[..i] + s[i..];
      |mid| == |s| && mid[i] == s[i] && mid[i := t[i]] == t[..i + 1] + s[i + 1..]
    ensures s[..i + 1] == t[..i + 1] <==> s[..i] == t[..i] && s[i] == t[i]
  {
    assert s[..i + 1] == s[..i] + [s[i]] && t[..i + 1] == t[..i] + [t[i]];
  }

  lemma ArrayStep(source: Json, target: Json, mid: seq<Json>, path: Pointer, token: string, i: nat, rel: seq<Op>,
    inner: seq<Op>)
    returns (rel': seq<Op>)
    requires source.Array? && target.Array? && i < |source.items| && i < |target.items|
    requires token == Digits(i) && i < |mid| && Patches(source, rel, Array(mid)) && AllInner(rel)
    requires mid[i] == source.items[i] && Patches(mid[i], inner, target.items[i]) && AllInner(inner)
    requires AllLocal(source, target, rel) && AllLocal(source.items[i], target.items[i], inner)
    ensures PrefixAll(path, rel') == PrefixAll(path, rel) + PrefixAll(path + [token], inner)
    ensures AllInner(rel') && AllLocal(source, target, rel') && Patches(source, rel', Array(mid[i := target.items[i]]))
    ensures rel' == [] <==> rel == [] && inner == []
  {
    hide ApplyAll, Digits, IsLocal;
    var v := target.items[i];
    ChildIsElement(source, i);
    ChildIsElement(target, i);
    LocalUnder(source, target, token, inner);
    LocalAppend(source, target, rel, UnderAll(token, inner));
    ElementWorks(mid, i, inner, v);
    rel' := rel + UnderAll(token, inner);
    Extend(source, rel, Array(mid), UnderAll(token, inner), Array(mid[i := v]));
    PrefixAppend(path, rel, UnderAll(token, inner));
    PrefixUnder(path, token, inner);
  }

  method DiffArray(source: Json, target: Json, path: Pointer) returns (result: seq<Op>, ghost rel: seq<Op>)
    requires source.Array? && target.Array? && source != target
    ensures IsDiff(source, target, path, result, rel)
    decreases source, 0
  {
    var s, t := source.items, target.items;
    var i;
    result, rel, i := DiffCommon(source, target, path);
    var m := i;
    hide ApplyAll, Digits;
    result, rel := RemoveRest(source, target, i, path, t[..i] + s[i..], result, rel);
    assert (t[..m] + s[m..])[..m] == t[..m];
    result, rel := AddRest(source, target, m, path, result, rel);
    assert s[..m] == t[..m] && |s| == m && |t| == m ==> s == t;
  }

  /** The second pass: remove what only the source has, each removal put in front of the others. */
  method RemoveRest(source: Json, ghost target: Json, from: nat, path: Pointer, ghost mid: seq<Json>, ops: seq<Op>,
    ghost before: seq<Op>)
    returns (result: seq<Op>, ghost rel: seq<Op>)
    requires source.Array? && target.Array? && from <= |source.items| == |mid|
    requires from == |source.items| || |target.items| <= from
    requires ops == PrefixAll(path, before) && AllInner(before) && Patches(source, before, Array(mid))
    requires AllLocal(source, target, before)
    ensures result == PrefixAll(path, rel) && AllInner(rel) && Patches(source, rel, Array(mid[..from]))
    ensures AllLocal(source, target, rel)
    ensures rel == [] <==> before == [] && |source.items| == from
  {
    hide ApplyAll, Digits, IsLocal;
    var i := from;
    result := ops;
    var endIndex := |result|;
    while i < |source.items|
      invariant from <= i <= |source.items|
      invariant result == ops + PrefixAll(path, Removals(from, i))
    {
      ghost var tail := Removals(from, i);
      assert result[endIndex..] == PrefixAll(path, tail) && result[..endIndex] == ops;
      result := result[..endIndex] + [Remove(path + [Digits(i)])] + result[endIndex..];
      PrefixAppend(path, [Remove([Digits(i)])], tail);
      assert Removals(from, i + 1) == [Remove([Digits(i)])] + tail;
      assert PrefixAll(path, [Remove([Digits(i)])]) == [Remove(path + [Digits(i)])];
      assert result == ops + PrefixAll(path, Removals(from, i + 1));
      i := i + 1;
    }
    RemovalsWork(mid, from);
    if from < |source.items| { RemovalsAreLocal(source, target, from, |mid|); }
    LocalAppend(source, target, before, Removals(from, |mid|));
    rel := before + Removals(from, |mid|);
    Extend(source, before, Array(mid), Removals(from, |mid|), Array(mid[..from]));
    PrefixAppend(path, before, Removals(from, |mid|));
  }

  /** The third pass: append what only the target has. */
  method AddRest(source: Json, target: Json, from: nat, path: Pointer, ops: seq<Op>, ghost before: seq<Op>)
    returns (result: seq<Op>, ghost rel: seq<Op>)
    requires source.Array? && target.Array? && from <= |target.items|
    requires ops == PrefixAll(path, before) && AllInner(before) && Patches(source, before, Array(target.items[..from]))
    requires AllLocal(source, target, before)
    ensures result == PrefixAll(path, rel) && AllInner(rel) && Patches(source, rel, target)
    ensures AllLocal(source, target, rel)
    ensures rel == [] <==> before == [] && |target.items| == from
  {
    hide ApplyAll, IsLocal;
    var i, t := from, target.items;
    result, rel := ops, before;
    while i < |t|
      invariant from <= i <= |t|
      invariant result == PrefixAll(path, rel) && AllInner(rel) && Patches(source, rel, Array(t[..i]))
      invariant AllLocal(source, target, rel)
      invariant rel == [] <==> before == [] && i == from
    {
      ghost var op := Add(["-"], t[i]);
      AppendWorks(t[..i], t[i]);
      AppendIsLocal(source, target, i);
      LocalAppend(source, target, rel, [op]);
      assert t[..i] + [t[i]] == t[..i + 1];
      Extend(source, rel, Array(t[..i]), [op], Array(t[..i + 1]));
      PrefixAppend(path, rel, [op]);
      assert PrefixAll(path, [op]) == [Add(path + ["-"], t[i])];
      result := result + [Add(path + ["-"], t[i])];
      rel := rel + [op];
      i := i + 1;
    }
    assert t[..|t|] == t;
  }

  lemma AppendIsLocal(source: Json, target: Json, i: nat)
    requires source.Array? && target.Array? && i < |target.items|
    ensures AllLocal(source, target, [Add(["-"], target.items[i])])
  {
    AtOne(source, "-");
    assert ["-"][..0] == [];
  }

  /** The first pass over an object: the source's keys, in any order. */
  method DiffMembers(source: Json, target: Json, path: Pointer) returns (result: seq<Op>, ghost rel: seq<Op>)
    requires source.Object? && target.Object?
    ensures result == PrefixAll(path, rel) && AllInner(rel) && AllLocal(source, target, rel)
    ensures Patches(source, rel, Object(Visited(source.members, target.members, source.members.Keys)))
    ensures rel == [] <==> Agree(source.members, target.members, source.members.Keys)
    decreases source, 0, 1
  {
    var s, t := source.members, target.members;
    var todo := s.Keys;
    ghost var done: set<string> := {};
    result, rel := [], [];
    hide PrefixAll, AllInner, AllLocal, Visited, Agree, Patches;
    NothingYet(source, target, path);
    while todo != {}
      invariant todo + done == s.Keys && todo !! done
      invariant result == PrefixAll(path, rel) && AllInner(rel) && AllLocal(source, target, rel)
      invariant Patches(source, rel, Object(Visited(s, t, done)))
      invariant rel == [] <==> Agree(s, t, done)
      decreases |todo|
    {
      var k :| k in todo;
      result, rel := DiffMember(source, target, path, k, done, result, rel);
      todo, done := todo - {k}, done + {k};
    }
    assert done == s.Keys;
  }

  lemma NothingYet(source: Json, target: Json, path: Pointer)
    requires source.Object? && target.Object?
    ensures PrefixAll(path, []) == [] && AllInner([]) && AllLocal(source, target, [])
    ensures Patches(source, [], Object(Visited(source.members, target.members, {})))
    ensures Agree(source.members, target.members, {})
  {
    assert Visited(source.members, target.members, {}) == source.members;
  }

  /** One of the source's keys. */
  method DiffMember(source: Json, target: Json, path: Pointer, k: string, ghost done: set<string>, ops: seq<Op>,
    ghost before: seq<Op>)
    returns (result: seq<Op>, ghost rel: seq<Op>)
    requires source.Object? && target.Object? && k in source.members && k !in done
    requires ops == PrefixAll(path, before) && AllInner(before) && AllLocal(source, target, before)
    requires Patches(source, before, Object(Visited(source.members, target.members, done)))
    requires before == [] <==> Agree(source.members, target.members, done)
    ensures result == PrefixAll(path, rel) && AllInner(rel) && AllLocal(source, target, rel)
    ensures Patches(source, rel, Object(Visited(source.members, target.members, done + {k})))
    ensures rel == [] <==> Agree(source.members, target.members, done + {k})
    decreases source, 0, 0
  {
    hide ApplyAll, PrefixAll, UnderAll, AllInner, AllLocal, Visited, Agree;
    var s, t := source.members, target.members;
    AgreeStep(s, t, done, k);
    if k in t {
      var temp, inner := Diff(s[k], t[k], path + [k]);
      result := ops + temp;
      MemberIsLocal(source, target, k, before, inner);
      rel := MemberStep(source, s, t, done, path, k, before, inner);
    } else {
      result := ops + [Remove(path + [k])];
      LossIsLocal(source, target, k, before);
      rel := LostStep(source, s, t, done, path, k, before);
    }
  }

  lemma MemberIsLocal(source: Json, target: Json, k: string, rel: seq<Op>, inner: seq<Op>)
    requires source.Object? && target.Object? && k in source.members && k in target.members
    requires AllLocal(source, target, rel) && AllLocal(source.members[k], target.members[k], inner)
    ensures AllLocal(source, target, rel + UnderAll(k, inner))
  {
    hide IsLocal, UnderAll;
    LocalUnder(source, target, k, inner);
    LocalAppend(source, target, rel, UnderAll(k, inner));
  }

  lemma LossIsLocal(source: Json, target: Json, k: string, rel: seq<Op>)
    requires source.Object? && target.Object? && k in source.members && k !in target.members
    requires AllLocal(source, target, rel)
    ensures AllLocal(source, target, rel + [Remove([k])])
  {
    AtOne(source, k);
    AtOne(target, k);
    hide At;
  }

  lemma GainIsLocal(source: Json, target: Json, k: string, rel: seq<Op>)
    requires source.Object? && target.Object? && k !in source.members && k in target.members
    requires AllLocal(source, target, rel)
    ensures AllLocal(source, target, rel + [Add([k], target.members[k])])
  {
    AtOne(source, k);
    AtOne(target, k);
    hide At;
  }

  /** Source and target have the same value for each of the keys. */
  predicate Agree(s: map<string, Json>, t: map<string, Json>, keys: set<string>) {
    forall k | k in keys :: k in s && k in t && s[k] == t[k]
  }

  lemma AgreeStep(s: map<string, Json>, t: map<string, Json>, done: set<string>, k: string)
    requires k in s
    ensures Agree(s, t, done + {k}) <==> Agree(s, t, done) && k in t && s[k] == t[k]
  {}

  lemma MemberStep(source: Json, s: map<string, Json>, t: map<string, Json>, done: set<string>, path: Pointer,
                   k: string, rel: seq<Op>, inner: seq<Op>) returns (rel': seq<Op>)
    requires k in s && k in t && k !in done && Patches(s[k], inner, t[k]) && AllInner(inner)
    requires Patches(source, rel, Object(Visited(s, t, done))) && AllInner(rel)
    ensures PrefixAll(path, rel') == PrefixAll(path, rel) + PrefixAll(path + [k], inner)
    ensures AllInner(rel') && Patches(source, rel', Object(Visited(s, t, done + {k})))
    ensures rel' == rel + UnderAll(k, inner) && (rel' == [] <==> rel == [] && inner == [])
  {
    hide ApplyAll, Visited;
    MemberWorks(s, t, done, k, inner);
    rel' := rel + UnderAll(k, inner);
    Extend(source, rel, Object(Visited(s, t, done)), UnderAll(k, inner), Object(Visited(s, t, done + {k})));
    PrefixAppend(path, rel, UnderAll(k, inner));
    PrefixUnder(path, k, inner);
  }

  lemma LostStep(source: Json, s: map<string, Json>, t: map<string, Json>, done: set<string>, path: Pointer,
                 k: string, rel: seq<Op>) returns (rel': seq<Op>)
    requires k in s && k !in t && k !in done
    requires Patches(source, rel, Object(Visited(s, t, done))) && AllInner(rel)
    ensures PrefixAll(path, rel') == PrefixAll(path, rel) + [Remove(path + [k])]
    ensures AllInner(rel') && Patches(source, rel', Object(Visited(s, t, done + {k}))) && rel' == rel + [Remove([k])]
  {
    hide ApplyAll, Visited;
    LostMemberWorks(s, t, done, k);
    rel' := rel + [Remove([k])];
    Extend(source, rel, Object(Visited(s, t, done)), [Remove([k])], Object(Visited(s, t, done + {k})));
    PrefixAppend(path, rel, [Remove([k])]);
    assert PrefixAll(path, [Remove([k])]) == [Remove(path + [k])];
  }

  method DiffObject(source: Json, target: Json, path: Pointer) returns (result: seq<Op>, ghost rel: seq<Op>)
    requires source.Object? && target.Object? && source != target
    ensures IsDiff(source, target, path, result, rel)
    decreases source, 0
  {
    var s, t := source.members, target.members;
    result, rel := DiffMembers(source, target, path);
    assert Visited(s, t, s.Keys) == Completed(s, t, {});
    hide ApplyAll;
    result, rel := AddMembers(source, target, path, result, rel);
    assert Agree(s, t, s.Keys) && t.Keys <= s.Keys ==> s == t;
  }

  /** The second pass over an object: the target's keys that the source lacks, in any order. */
  method AddMembers(source: Json, target: Json, path: Pointer, ops: seq<Op>, ghost before: seq<Op>)
    returns (result: seq<Op>, ghost rel: seq<Op>)
    requires source.Object? && target.Object?
    requires ops == PrefixAll(path, before) && AllInner(before)
    requires Patches(source, before, Object(Completed(source.members, target.members, {})))
    requires AllLocal(source, target, before)
    ensures result == PrefixAll(path, rel) && AllInner(rel) && Patches(source, rel, target)
    ensures AllLocal(source, target, rel)
    ensures rel == [] <==> before == [] && target.members.Keys <= source.members.Keys
  {
    hide ApplyAll;
    var s, t := source.members, target.members;
    var todo := t.Keys;
    ghost var added: set<string> := {};
    result, rel := ops, before;
    while todo != {}
      invariant todo <= t.Keys && added !! todo && added <= t.Keys - s.Keys
      invariant t.Keys - s.Keys <= added + todo
      invariant result == PrefixAll(path, rel) && AllInner(rel) && AllLocal(source, target, rel)
      invariant Patches(source, rel, Object(Completed(s, t, added)))
      invariant rel == [] <==> before == [] && added == {}
      decreases |todo|
    {
      hide PrefixAll, AllInner, AllLocal, Completed;
      var k :| k in todo;
      if k !in s {
        result := result + [Add(path + [k], t[k])];
        GainIsLocal(source, target, k, rel);
        rel := NewStep(source, s, t, added, path, k, rel);
        added := added + {k};
      }
      todo := todo - {k};
    }
    assert Completed(s, t, added) == t;
  }

  lemma NewStep(source: Json, s: map<string, Json>, t: map<string, Json>, added: set<string>, path: Pointer,
                k: string, rel: seq<Op>) returns (rel': seq<Op>)
    requires k !in s && k in t && k !in added
    requires Patches(source, rel, Object(Completed(s, t, added))) && AllInner(rel)
    ensures PrefixAll(path, rel') == PrefixAll(path, rel) + [Add(path + [k], t[k])]
    ensures AllInner(rel') && Patches(source, rel', Object(Completed(s, t, added + {k})))
    ensures rel' == rel + [Add([k], t[k])]
  {
    hide ApplyAll, Completed;
    NewMemberWorks(s, t, added, k);
    rel' := rel + [Add([k], t[k])];
    Extend(source, rel, Object(Completed(s, t, added)), [Add([k], t[k])], Object(Completed(s, t, added + {k})));
    PrefixAppend(path, rel, [Add([k], t[k])]);
    assert PrefixAll(path, [Add([k], t[k])]) == [Add(path + [k], t[k])];
  }

  /** `diff` at the root: the patch turns the source into the target, and is empty exactly when there
      is nothing to do. */
  method DiffDocuments(source: Json, target: Json) returns (patch: seq<Op>)
    ensures Patches(source, patch, target) && AllLocal(source, target, patch)
    ensures patch == [] <==> source == target
  {
    hide ApplyAll;
    ghost var rel;
    patch, rel := Diff(source, target, []);
    PrefixNothing(rel);
  }

  /** `diff` with a path: inside any document that has the source at that path, the patch replaces it
      by the target and touches nothing else. */
  method DiffInside(source: Json, target: Json, path: Pointer, ghost doc: Json) returns (patch: seq<Op>)
    requires At(doc, path) == Ok(source)
    ensures Patches(doc, patch, Put(doc, path, target))
  {
    hide ApplyAll;
    ghost var rel;
    patch, rel := Diff(source, target, path);
    ApplyAt(doc, path, rel);
  }

  /** Making a patch and applying it in place is assignment. */
  method DiffThenPatch(doc: Document, target: Json) returns (thrown: Result<()>)
    modifies doc
    ensures doc.value == target && thrown == Ok(())
  {
    var patch := DiffDocuments(doc.value, target);
    thrown := doc.PatchInPlace(patch);
  }
}
