/**
 `json_value::destroy`: a tree is flattened onto a heap-allocated stack, so that no value still has
 children when it is released and the call stack does not grow with the tree. A node is identified by
 the pointer that leads to it from the root.
 */
module JsonDestroy {
  import opened Decimals
  import opened JsonPatch
  import opened JsonLaws

  predicate HasChildren(j: Json) { (j.Array? && j.items != []) || (j.Object? && j.members != map[]) }

  /** The value after `clear()` on its container. */
  function Emptied(j: Json): Json {
    match j
    case Array(_) => Array([])
    case Object(_) => Object(map[])
    case _ => j
  }

  /** The pointers to all nodes of a tree. */
  ghost function Nodes(j: Json): set<Pointer> {
    {[]} + match j
           case Array(xs) => (set i: nat, p | i < |xs| && p in Nodes(xs[i]) :: [Digits(i)] + p)
           case Object(m) => (set k, p | k in m.Keys && p in Nodes(m[k]) :: [k] + p)
           case _ => {}
  }

  lemma {:induction false} NodesAreReachable(j: Json, p: Pointer)
    requires At(j, p).Ok?
    ensures p in Nodes(j)
    decreases |p|
  {
    if p != [] {
      var c := Child(j, p[0]).value;
      NodesAreReachable(c, p[1..]);
      assert p == [p[0]] + p[1..];
      if j.Array? {
        IndexIsUnique(p[0]);
        var i := ArrayIndex(p[0]).value;
        assert i < |j.items| && p[1..] in Nodes(j.items[i]);
      }
      hide ArrayIndex, Digits;
    }
  }

  lemma {:induction false} NodesLead(j: Json, p: Pointer)
    requires p in Nodes(j)
    ensures At(j, p).Ok?
    decreases |p|
  {
    if p != [] {
      match j
      case Array(xs) =>
        var i: nat, q :| i < |xs| && q in Nodes(xs[i]) && p == [Digits(i)] + q;
        NodesLead(xs[i], q);
        IndexRoundTrip(i);
        assert p[0] == Digits(i) && p[1..] == q;
        hide ArrayIndex, Digits;
      case Object(m) =>
        var k, q :| k in m.Keys && q in Nodes(m[k]) && p == [k] + q;
        NodesLead(m[k], q);
        assert p[0] == k && p[1..] == q;
      case _ =>
    }
  }

  /** Different things, counted as a set. */
  lemma {:induction false} CountDistinct(ps: seq<Pointer>)
    requires forall i, k :: 0 <= i < k < |ps| ==> ps[i] != ps[k]
    ensures |set p | p in ps| == |ps|
  {
    if ps != [] {
      var n := |ps| - 1;
      CountDistinct(ps[..n]);
      assert (set p | p in ps) == (set p | p in ps[..n]) + {ps[n]};
      assert ps[n] !in ps[..n];
    }
  }

  // ------------------------------------------------------------------- the stack

  /** The tokens of all children of a value, each once. */
  ghost predicate ListsChildren(j: Json, tokens: seq<string>) {
    && (forall i, k :: 0 <= i < k < |tokens| ==> tokens[i] != tokens[k])
    && (forall i :: 0 <= i < |tokens| ==> Child(j, tokens[i]).Ok?)
    && (forall t :: Child(j, t).Ok? ==> t in tokens)
  }

  /** Move the children of a value to the back of the stack. */
  method PushChildren(stack: seq<Json>, item: Json) returns (result: seq<Json>, ghost tokens: seq<string>)
    ensures ListsChildren(item, tokens)
    ensures result == stack + seq(|tokens|, i requires 0 <= i < |tokens| => Child(item, tokens[i]).value)
  {
    hide Digits, ArrayIndex;
    result, tokens := stack, [];
    if item.Array? {
      result, tokens := PushItems(stack, item);
    } else if item.Object? {
      result, tokens := PushMembers(stack, item);
    }
  }

  method PushItems(stack: seq<Json>, item: Json) returns (result: seq<Json>, ghost tokens: seq<string>)
    requires item.Array?
    ensures ListsChildren(item, tokens)
    ensures result == stack + seq(|tokens|, i requires 0 <= i < |tokens| => Child(item, tokens[i]).value)
  {
    var xs := item.items;
    result, tokens := stack + xs, seq(|xs|, (i: nat) => Digits(i));
    ItemsListed(item, tokens);
    hide Digits, Child;
    assert forall i :: 0 <= i < |xs| ==> Child(item, tokens[i]) == Ok(xs[i]);
  }

  lemma ItemsListed(item: Json, tokens: seq<string>)
    requires item.Array? && |tokens| == |item.items| && forall i: nat :: i < |tokens| ==> tokens[i] == Digits(i)
    ensures ListsChildren(item, tokens)
    ensures forall i :: 0 <= i < |tokens| ==> Child(item, tokens[i]) == Ok(item.items[i])
  {
    hide Digits, ArrayIndex;
    forall i: nat | i < |tokens| ensures Child(item, tokens[i]) == Ok(item.items[i]) { IndexRoundTrip(i); }
    forall i: nat, k: nat | i < k < |tokens| ensures tokens[i] != tokens[k] {
      DigitsRoundTrip(i);
      DigitsRoundTrip(k);
    }
    forall t | Child(item, t).Ok? ensures t in tokens {
      IndexIsUnique(t);
      assert tokens[ArrayIndex(t).value] == t;
    }
  }

  method PushMembers(stack: seq<Json>, item: Json) returns (result: seq<Json>, ghost tokens: seq<string>)
    requires item.Object?
    ensures ListsChildren(item, tokens)
    ensures result == stack + seq(|tokens|, i requires 0 <= i < |tokens| => Child(item, tokens[i]).value)
  {
    var m := item.members;
    var todo := m.Keys;
    result, tokens := stack, [];
    while todo != {}
      invariant todo <= m.Keys
      invariant forall k :: k in m.Keys <==> k in todo || k in tokens
      invariant forall i :: 0 <= i < |tokens| ==> tokens[i] in m && tokens[i] !in todo
      invariant forall i, k :: 0 <= i < k < |tokens| ==> tokens[i] != tokens[k]
      invariant |result| == |stack| + |tokens| && stack <= result
      invariant forall i :: 0 <= i < |tokens| ==> result[|stack| + i] == m[tokens[i]]
      decreases |todo|
    {
      var k :| k in todo;
      result, tokens := result + [m[k]], tokens + [k];
      todo := todo - {k};
    }
  }

  // --------------------------------------------------------------- the invariant

  /** The stack entries lead to the values on the stack, and none is above another. */
  predicate Stacked(root: Json, stack: seq<Json>, paths: seq<Pointer>) {
    && |paths| == |stack|
    && (forall i :: 0 <= i < |paths| ==> paths[i] != [] && At(root, paths[i]) == Ok(stack[i]))
    && (forall i, k :: 0 <= i < |paths| && 0 <= k < |paths| && i != k ==> !(paths[i] <= paths[k]))
  }

  /** Nodes released so far: proper descendants, each once, none of them below a stacked one. */
  predicate Done(root: Json, popped: seq<Pointer>, paths: seq<Pointer>) {
    && (forall i, k :: 0 <= i < k < |popped| ==> popped[i] != popped[k])
    && (forall i :: 0 <= i < |popped| ==> popped[i] != [] && At(root, popped[i]).Ok?)
    && (forall i, k :: 0 <= i < |popped| && 0 <= k < |paths| ==> !(paths[k] <= popped[i]))
  }

  predicate Covered(p: Pointer, popped: seq<Pointer>, paths: seq<Pointer>) {
    p in popped || exists i :: 0 <= i < |paths| && paths[i] <= p
  }

  /** Every proper descendant is released already or at or below a stacked node. */
  ghost predicate Complete(root: Json, popped: seq<Pointer>, paths: seq<Pointer>) {
    forall p :: p != [] && At(root, p).Ok? ==> Covered(p, popped, paths)
  }

  function Below(q: Pointer, tokens: seq<string>): seq<Pointer> {
    seq(|tokens|, i requires 0 <= i < |tokens| => q + [tokens[i]])
  }

  lemma NotAboveChild(a: Pointer, q: Pointer, t: string)
    requires !(a <= q) && !(q <= a)
    ensures !(a <= q + [t])
  {}

  lemma NotBelowChild(q: Pointer, t: string, b: Pointer)
    requires !(q <= b)
    ensures !(q + [t] <= b)
  {}

  lemma SiblingsApart(q: Pointer, t: string, u: string)
    requires t != u
    ensures !(q + [t] <= q + [u])
  {
    assert (q + [t])[|q|] == t && (q + [u])[|q|] == u;
  }

  lemma AtChild(root: Json, q: Pointer, t: string)
    requires At(root, q).Ok? && Child(At(root, q).value, t).Ok?
    ensures At(root, q + [t]) == Child(At(root, q).value, t)
  {
    AtLast(root, q + [t]);
    assert (q + [t])[..|q + [t]| - 1] == q;
    hide At, Child;
  }

  lemma StackedStep(root: Json, stack: seq<Json>, paths: seq<Pointer>, q: Pointer, item: Json, tokens: seq<string>)
    requires Stacked(root, stack + [item], paths + [q]) && ListsChildren(item, tokens)
    ensures var children := seq(|tokens|, i requires 0 <= i < |tokens| => Child(item, tokens[i]).value);
      Stacked(root, stack + children, paths + Below(q, tokens))
  {
    var n, all, below := |paths|, paths + [q], Below(q, tokens);
    var children := seq(|tokens|, i requires 0 <= i < |tokens| => Child(item, tokens[i]).value);
    var stack', paths' := stack + children, paths + below;
    assert all[n] == q && At(root, q) == Ok((stack + [item])[n]);
    hide At, Child;
    forall i | 0 <= i < |paths'| ensures paths'[i] != [] && At(root, paths'[i]) == Ok(stack'[i]) {
      if i < n { assert all[i] == paths'[i] && (stack + [item])[i] == stack'[i]; }
      else { AtChild(root, q, tokens[i - n]); }
    }
    forall i, k | 0 <= i < |paths'| && 0 <= k < |paths'| && i != k ensures !(paths'[i] <= paths'[k]) {
      if i < n {
        assert !(all[i] <= all[n]) && !(all[n] <= all[i]);
        if k < n { assert !(all[i] <= all[k]); } else { NotAboveChild(paths[i], q, tokens[k - n]); }
      } else if k < n {
        assert !(all[n] <= all[k]);
        NotBelowChild(q, tokens[i - n], paths[k]);
      } else {
        assert tokens[i - n] != tokens[k - n];
        SiblingsApart(q, tokens[i - n], tokens[k - n]);
      }
    }
  }

  lemma DoneStep(root: Json, popped: seq<Pointer>, stack: seq<Json>, paths: seq<Pointer>, q: Pointer,
    item: Json, tokens: seq<string>)
    requires Stacked(root, stack + [item], paths + [q]) && Done(root, popped, paths + [q])
    ensures Done(root, popped + [q], paths + Below(q, tokens))
  {
    var n, all, popped', paths' := |paths|, paths + [q], popped + [q], paths + Below(q, tokens);
    hide At, Child;
    assert all[n] == q && At(root, q) == Ok((stack + [item])[n]);
    forall i | 0 <= i < |popped| ensures popped[i] != q { assert !(all[n] <= popped[i]); }
    forall i, k | 0 <= i < |popped'| && 0 <= k < |paths'| ensures !(paths'[k] <= popped'[i]) {
      if i < |popped| {
        if k < n { assert !(all[k] <= popped[i]); }
        else { assert !(all[n] <= popped[i]); assert q <= paths'[k]; }
      } else if k < n { assert !(all[k] <= all[n]); }
    }
  }

  lemma CompleteStep(root: Json, popped: seq<Pointer>, paths: seq<Pointer>, q: Pointer, item: Json, tokens: seq<string>)
    requires Complete(root, popped, paths + [q]) && At(root, q) == Ok(item) && ListsChildren(item, tokens)
    ensures Complete(root, popped + [q], paths + Below(q, tokens))
  {
    var popped', paths' := popped + [q], paths + Below(q, tokens);
    forall p | p != [] && At(root, p).Ok? ensures Covered(p, popped', paths') {
      assert Covered(p, popped, paths + [q]);
      CoveredStep(root, p, popped, paths, q, item, tokens);
    }
  }

  lemma CoveredStep(root: Json, p: Pointer, popped: seq<Pointer>, paths: seq<Pointer>, q: Pointer, item: Json,
    tokens: seq<string>)
    requires Covered(p, popped, paths + [q]) && At(root, p).Ok?
    requires At(root, q) == Ok(item) && ListsChildren(item, tokens)
    ensures Covered(p, popped + [q], paths + Below(q, tokens))
  {
    var all, paths' := paths + [q], paths + Below(q, tokens);
    if p in popped {
      assert p in popped + [q];
    } else {
      var i :| 0 <= i < |all| && all[i] <= p;
      if i < |paths| {
        assert paths'[i] <= p;
      } else if p == q {
        assert (popped + [q])[|popped|] == p;
      } else {
        var t := p[|q|];
        assert p == q + p[|q|..] && p[|q|..][0] == t;
        AtAppend(root, q, p[|q|..]);
        assert Child(item, t).Ok?;
        hide At, Child;
        assert t in tokens;
        var k :| 0 <= k < |tokens| && tokens[k] == t;
        assert paths'[|paths| + k] == q + [t] <= p;
      }
    }
  }

  // ------------------------------------------------------------------- destroy

  /** Release a tree. Every proper descendant of the root is popped exactly once, and each popped item
      is childless when it goes out of scope. */
  method Destroy(root: Json) returns (released: seq<Json>, ghost popped: seq<Pointer>)
    ensures |released| == |popped| == |Nodes(root)| - 1
    ensures forall i :: 0 <= i < |released| ==> !HasChildren(released[i])
    ensures forall i, k :: 0 <= i < k < |popped| ==> popped[i] != popped[k]
    ensures forall p :: p in popped <==> p != [] && At(root, p).Ok?
    ensures forall i :: 0 <= i < |released| ==>
      && At(root, popped[i]).Ok?
      && var was := At(root, popped[i]).value;
         released[i] == if was.Array? then Array([]) else if was.Object? then Object(map[]) else was
  {
    hide At, Child, Stacked, Done, Complete, Covered, ListsChildren, Nodes, Emptied, HasChildren;
    released, popped := [], [];
    var stack: seq<Json>;
    ghost var paths: seq<Pointer>;
    stack, paths := Unroll(root);
    while stack != []
      invariant Stacked(root, stack, paths) && Done(root, popped, paths) && Complete(root, popped, paths)
      invariant |released| == |popped|
      invariant forall i :: 0 <= i < |released| ==>
        At(root, popped[i]).Ok? && released[i] == Emptied(At(root, popped[i]).value)
      decreases |Nodes(root) - (set p | p in popped)|
    {
      var n := |stack| - 1;
      var current := stack[n];
      assert |paths| == |stack| by { StackedSize(root, stack, paths); }
      ghost var q := paths[n];
      assert stack == stack[..n] + [current] && paths == paths[..n] + [q];
      TopOfStack(root, stack, paths, popped);
      Shrinks(root, popped, q);
      var rest, tokens := PushChildren(stack[..n], current);
      StackedStep(root, stack[..n], paths[..n], q, current, tokens);
      DoneStep(root, popped, stack[..n], paths[..n], q, current, tokens);
      CompleteStep(root, popped, paths[..n], q, current, tokens);
      stack, paths := rest, paths[..n] + Below(q, tokens);
      current := Emptied(current);
      released, popped := released + [current], popped + [q];
    }
    AllReleased(root, popped, paths);
    CountReleased(root, popped);
    ReleasedEmpty(root, popped, released);
  }

  lemma ReleasedEmpty(root: Json, popped: seq<Pointer>, released: seq<Json>)
    requires |released| == |popped|
    requires forall i :: 0 <= i < |released| ==>
      At(root, popped[i]).Ok? && released[i] == Emptied(At(root, popped[i]).value)
    ensures forall i :: 0 <= i < |released| ==> !HasChildren(released[i])
    ensures forall i :: 0 <= i < |released| ==>
      var was := At(root, popped[i]).value;
      released[i] == if was.Array? then Array([]) else if was.Object? then Object(map[]) else was
  {
    hide At;
  }

  lemma CountReleased(root: Json, popped: seq<Pointer>)
    requires forall i, k :: 0 <= i < k < |popped| ==> popped[i] != popped[k]
    requires forall p :: p in popped <==> p != [] && At(root, p).Ok?
    ensures |popped| == |Nodes(root)| - 1
  {
    CountDistinct(popped);
    assert [] in Nodes(root);
    hide At, Nodes;
    forall p ensures p in Nodes(root) <==> p == [] || p in popped {
      if p in Nodes(root) { NodesLead(root, p); }
      if p in popped { NodesAreReachable(root, p); }
    }
    assert Nodes(root) == {[]} + (set p | p in popped);
  }

  lemma AllReleased(root: Json, popped: seq<Pointer>, paths: seq<Pointer>)
    requires Stacked(root, [], paths) && Done(root, popped, paths) && Complete(root, popped, paths)
    ensures forall i, k :: 0 <= i < k < |popped| ==> popped[i] != popped[k]
    ensures forall p :: p in popped <==> p != [] && At(root, p).Ok?
  {}

  lemma StackedSize(root: Json, stack: seq<Json>, paths: seq<Pointer>)
    requires Stacked(root, stack, paths)
    ensures |paths| == |stack|
  {}

  lemma TopOfStack(root: Json, stack: seq<Json>, paths: seq<Pointer>, popped: seq<Pointer>)
    requires Stacked(root, stack, paths) && Done(root, popped, paths) && stack != []
    ensures At(root, paths[|stack| - 1]) == Ok(stack[|stack| - 1]) && paths[|stack| - 1] !in popped
  {}

  lemma Shrinks(root: Json, popped: seq<Pointer>, q: Pointer)
    requires At(root, q).Ok? && q !in popped
    ensures |Nodes(root) - (set p | p in popped + [q])| < |Nodes(root) - (set p | p in popped)|
  {
    NodesAreReachable(root, q);
    hide At, Nodes;
    var before, after := Nodes(root) - (set p | p in popped), Nodes(root) - (set p | p in popped + [q]);
    assert after == before - {q};
  }

  /** Move the top-level items to the stack. */
  method Unroll(root: Json) returns (stack: seq<Json>, ghost paths: seq<Pointer>)
    ensures Stacked(root, stack, paths) && Done(root, [], paths) && Complete(root, [], paths)
  {
    hide At, Child, Stacked, Done, Complete, ListsChildren;
    ghost var tokens;
    stack, tokens := PushChildren([], root);
    paths := Below([], tokens);
    UnrolledStack(root, stack, tokens);
    UnrolledComplete(root, tokens);
  }

  lemma UnrolledStack(root: Json, stack: seq<Json>, tokens: seq<string>)
    requires ListsChildren(root, tokens)
    requires stack == seq(|tokens|, i requires 0 <= i < |tokens| => Child(root, tokens[i]).value)
    ensures Stacked(root, stack, Below([], tokens)) && Done(root, [], Below([], tokens))
  {}

  lemma UnrolledComplete(root: Json, tokens: seq<string>)
    requires ListsChildren(root, tokens)
    ensures Complete(root, [], Below([], tokens))
  {
    var paths := Below([], tokens);
    forall p | p != [] && At(root, p).Ok? ensures Covered(p, [], paths) {
      assert Child(root, p[0]).Ok?;
      hide At, Child;
      var k :| 0 <= k < |tokens| && tokens[k] == p[0];
      assert paths[k] == [p[0]] <= p;
    }
  }
}
