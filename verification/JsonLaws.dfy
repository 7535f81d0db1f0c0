/**
 What the operations of a JSON Patch promise, one by one (section 4 of RFC 6902), and exactly where
 the library departs from it.
 */
module JsonLaws {
  import opened Decimals
  import opened JsonPatch
  import opened JsonDiff

  predicate IsPrimitive(j: Json) { j.Bool? || j.Number? || j.String? }

  // ------------------------------------------------------------- writing and reading

  /** Reading below what was written at `p` reads the new value. */
  lemma {:induction false} AtPut(doc: Json, p: Pointer, v: Json, q: Pointer)
    requires At(doc, p).Ok?
    ensures At(Put(doc, p, v), p + q) == At(v, q)
    decreases |p|
  {
    if p == [] {
      assert p + q == q;
    } else {
      var c := Child(doc, p[0]).value;
      var c' := Put(c, p[1..], v);
      AtPut(c, p[1..], v, q);
      ChildOfSet(doc, p[0], c', c');
      assert p + q == [p[0]] + (p[1..] + q);
      AtUnder(SetChild(doc, p[0], c'), p[0], p[1..] + q);
      hide Child, SetChild;
    }
  }

  /** The second write at a place wins, and writing what is there changes nothing. */
  lemma {:induction false} PutPut(doc: Json, p: Pointer, v: Json, v': Json)
    requires At(doc, p).Ok?
    ensures At(Put(doc, p, v), p) == Ok(v) && Put(Put(doc, p, v), p, v') == Put(doc, p, v')
    ensures Put(doc, p, At(doc, p).value) == doc
    decreases |p|
  {
    if p != [] {
      var t, c := p[0], Child(doc, p[0]).value;
      PutPut(c, p[1..], v, v');
      ChildOfSet(doc, t, Put(c, p[1..], v), Put(c, p[1..], v'));
      hide Child, SetChild;
    }
  }

  lemma {:induction false} AtAppend(doc: Json, p: Pointer, q: Pointer)
    ensures At(doc, p + q) == if At(doc, p).Err? then At(doc, p) else At(At(doc, p).value, q)
    decreases |p|
  {
    hide Child;
    if p == [] {
      assert p + q == q;
    } else {
      assert (p + q)[0] == p[0] && (p + q)[1..] == p[1..] + q;
      if Child(doc, p[0]).Ok? { AtAppend(Child(doc, p[0]).value, p[1..], q); }
    }
  }

  lemma AtLast(doc: Json, p: Pointer)
    requires p != []
    ensures var parent := At(doc, p[..|p| - 1]);
      At(doc, p) == if parent.Err? then parent else Child(parent.value, p[|p| - 1])
  {
    var front, last := p[..|p| - 1], p[|p| - 1];
    assert p == front + [last];
    AtAppend(doc, front, [last]);
    hide Child;
    if At(doc, front).Ok? {
      assert [last][1..] == [];
      assert At(At(doc, front).value, [last])
          == (var c := Child(At(doc, front).value, last); if c.Err? then c else At(c.value, []));
    }
  }

  // -------------------------------------------------------------------------- add

  lemma AddPlain(doc: Json, p: Pointer, v: Json)
    requires p != []
    ensures var parent := At(doc, p[..|p| - 1]);
      OperationAdd(doc, p, v) ==
      if parent.Err? then parent
      else
        var n := AddTo(parent.value, p[|p| - 1], v);
        if n.Err? then n else Ok(Put(doc, p[..|p| - 1], n.value))
  {
    if |p| > 1 { TopIsRedundant(doc, p); }
    hide At, AddTo, Put;
  }

  /** What was added is there, unless it was appended with "-", where it is the last element. */
  lemma AddThenAt(doc: Json, p: Pointer, v: Json)
    requires OperationAdd(doc, p, v).Ok?
    ensures var r := OperationAdd(doc, p, v).value;
      if p == [] then r == v
      else if At(doc, p[..|p| - 1]).value.Array? && p[|p| - 1] == "-" then
        && At(r, p[..|p| - 1]).Ok?
        && At(r, p[..|p| - 1]).value == Array(At(doc, p[..|p| - 1]).value.items + [v])
      else At(r, p) == Ok(v)
  {
    if p != [] {
      var front, last := p[..|p| - 1], p[|p| - 1];
      AddPlain(doc, p, v);
      var parent := At(doc, front).value;
      var n := AddTo(parent, last, v).value;
      PutPut(doc, front, n, n);
      AtLast(Put(doc, front, n), p);
      hide At, Put, OperationAdd;
    }
  }

  lemma {:induction false} AtErrors(doc: Json, p: Pointer)
    ensures At(doc, p).Err? ==> At(doc, p).code != ASSERTION
    decreases |p|
  {
    if p != [] && Child(doc, p[0]).Ok? { AtErrors(Child(doc, p[0]).value, p[1..]); }
  }

  /** An `add` trips the library's assertion exactly when the parent exists and is primitive, the case
      the source holds to be impossible. */
  lemma AddAssertsOnPrimitiveParent(doc: Json, p: Pointer, v: Json)
    ensures OperationAdd(doc, p, v) == Err(ASSERTION)
      <==> p != [] && At(doc, p[..|p| - 1]).Ok? && IsPrimitive(At(doc, p[..|p| - 1]).value)
  {
    if p != [] {
      AddPlain(doc, p, v);
      AtErrors(doc, p[..|p| - 1]);
      hide At, Put, OperationAdd;
    }
  }

  /** The smallest such document. */
  lemma PrimitiveParentExample()
    ensures Apply(Number(1), Add(["a"], Null)) == Outcome(Number(1), Err(ASSERTION))
  {}

  // ----------------------------------------------------------------------- remove

  lemma RemoveFromOk(parent: Json, token: string)
    ensures RemoveFrom(parent, token).Ok? <==> Child(parent, token).Ok? || IsPrimitive(parent) || parent.Null?
  {}

  /** The smallest document from which nothing can be removed, and is not, without an error. */
  lemma RemoveFromPrimitiveExample()
    ensures At(Number(1), ["a"]).Err? && Apply(Number(1), Remove(["a"])) == Outcome(Number(1), Ok(()))
  {}

  /** `remove` succeeds exactly when the location exists, as section 4.2 of RFC 6902 asks, or when the
      parent is neither an array nor an object, where it does nothing. */
  lemma RemoveSucceeds(doc: Json, p: Pointer)
    ensures OperationRemove(doc, p).Ok?
      <==> p != [] && At(doc, p[..|p| - 1]).Ok?
           && (At(doc, p).Ok? || !(At(doc, p[..|p| - 1]).value.Array? || At(doc, p[..|p| - 1]).value.Object?))
    ensures p != [] && At(doc, p[..|p| - 1]).Ok?
            && !(At(doc, p[..|p| - 1]).value.Array? || At(doc, p[..|p| - 1]).value.Object?)
      ==> OperationRemove(doc, p) == Ok(doc)
  {
    if p != [] {
      AtLast(doc, p);
      if At(doc, p[..|p| - 1]).Ok? {
        RemoveFromOk(At(doc, p[..|p| - 1]).value, p[|p| - 1]);
        PutPut(doc, p[..|p| - 1], Null, Null);
      }
      hide At, Put;
    }
  }

  lemma AddThenRemoveChild(parent: Json, token: string, v: Json)
    requires AddTo(parent, token, v).Ok? && token != "-"
    requires parent.Array? || (parent.Object? && token !in parent.members)
    ensures RemoveFrom(AddTo(parent, token, v).value, token) == Ok(parent)
  {
    match parent
    case Object(m) => assert m[token := v] - {token} == m;
    case Array(xs) =>
      var i := ArrayIndex(token).value;
      var ys := xs[..i] + [v] + xs[i..];
      assert ys[..i] == xs[..i] && ys[i + 1..] == xs[i..] && xs[..i] + xs[i..] == xs;
      hide ArrayIndex;
  }

  /** Removing what was just added restores the document, for a new member and for any array index. */
  lemma AddThenRemove(doc: Json, p: Pointer, v: Json)
    requires p != [] && OperationAdd(doc, p, v).Ok? && p[|p| - 1] != "-"
    requires var parent := At(doc, p[..|p| - 1]).value; parent.Array? || (parent.Object? && At(doc, p).Err?)
    ensures OperationRemove(OperationAdd(doc, p, v).value, p) == Ok(doc)
  {
    var front, last := p[..|p| - 1], p[|p| - 1];
    AddPlain(doc, p, v);
    AtLast(doc, p);
    var parent := At(doc, front).value;
    AddThenRemoveChild(parent, last, v);
    PutPut(doc, front, AddTo(parent, last, v).value, parent);
    hide At, Put, OperationAdd, AddTo, RemoveFrom;
  }

  // ------------------------------------------------------------- move, copy and test

  /** A `move` that succeeds leaves at the target what was at the source, unless it appended it. */
  lemma MoveThenAt(doc: Json, from: Pointer, p: Pointer)
    requires Apply(doc, Move(from, p)).error.Ok?
    ensures At(doc, from).Ok? && OperationRemove(doc, from).Ok?
    ensures var r, mid := Apply(doc, Move(from, p)).doc, OperationRemove(doc, from).value;
      p == [] || !(At(mid, p[..|p| - 1]).Ok? && At(mid, p[..|p| - 1]).value.Array? && p[|p| - 1] == "-")
      ==> At(r, p) == At(doc, from)
  {
    AddThenAt(OperationRemove(doc, from).value, p, At(doc, from).value);
    if p != [] { AddPlain(OperationRemove(doc, from).value, p, At(doc, from).value); }
    hide OperationAdd, OperationRemove, AddTo;
  }

  /** `test` never changes the document, and succeeds exactly when the value is there. */
  lemma TestIsPure(doc: Json, p: Pointer, v: Json)
    ensures Apply(doc, Test(p, v)).doc == doc
    ensures Apply(doc, Test(p, v)).error.Ok? <==> At(doc, p) == Ok(v)
  {}

  // ------------------------------------------------------------------ which error

  /** An array index is the numeral of a number, as section 4 of RFC 6901 has it; what else is tried gets
      exception 106, 109 or 404. */
  lemma IndexTokens(t: string)
    ensures ArrayIndex(t).Ok? <==> exists i: nat :: t == Digits(i)
    ensures forall i: nat :: t == Digits(i) ==> ArrayIndex(t) == Ok(i)
    ensures ArrayIndex(t).Err? ==>
      ArrayIndex(t).code ==
      if |t| <= 1 then 404 else if t[0] == '0' then 106 else if '1' <= t[0] <= '9' then 404 else 109
  {
    forall i: nat | t == Digits(i) ensures ArrayIndex(t) == Ok(i) { IndexRoundTrip(i); }
    if ArrayIndex(t).Ok? {
      IndexIsUnique(t);
    }
    hide Digits, ValueOf;
  }

  /** Reading a child: 403 for a missing member, 402 for "-", 401 past the end of an array, and 404 below
      anything that is no container. */
  lemma ReadErrors(j: Json, t: string)
    ensures j.Object? ==> if t in j.members then Child(j, t) == Ok(j.members[t]) else Child(j, t) == Err(403)
    ensures j.Array? && t == "-" ==> Child(j, t) == Err(402)
    ensures j.Array? ==> forall i: nat :: t == Digits(i) ==>
      Child(j, t) == if i < |j.items| then Ok(j.items[i]) else Err(401)
    ensures j.Array? && t != "-" && ArrayIndex(t).Err? ==> Child(j, t) == Err(ArrayIndex(t).code)
    ensures !j.Object? && !j.Array? ==> Child(j, t) == Err(404)
  {
    forall i: nat | t == Digits(i) ensures ArrayIndex(t) == Ok(i) && t != "-" { IndexRoundTrip(i); }
    hide Digits, ArrayIndex;
  }

  /** An `add` fails as reading the parent does; or, into an array, with 401 past its end and as the index. */
  lemma AddErrors(doc: Json, p: Pointer, v: Json)
    requires p != []
    ensures var parent, t := At(doc, p[..|p| - 1]), p[|p| - 1];
      && (parent.Err? ==> Apply(doc, Add(p, v)) == Outcome(doc, Err(parent.code)))
      && (parent.Ok? && parent.value.Array? && t != "-" ==>
            if ArrayIndex(t).Err? then Apply(doc, Add(p, v)) == Outcome(doc, Err(ArrayIndex(t).code))
            else if ArrayIndex(t).value > |parent.value.items| then Apply(doc, Add(p, v)) == Outcome(doc, Err(401))
            else Apply(doc, Add(p, v)).error.Ok?)
      && (parent.Ok? && (parent.value.Object? || parent.value.Null? || (parent.value.Array? && t == "-")) ==>
            Apply(doc, Add(p, v)).error.Ok?)
  {
    AddPlain(doc, p, v);
    hide At, Put, OperationAdd, ArrayIndex;
  }

  /** A `remove` of the root fails with 405, one below it as reading the parent does, with 403 for a missing
      member, and in an array with 401 past its end and as the index. */
  lemma RemoveErrors(doc: Json, p: Pointer)
    ensures p == [] ==> Apply(doc, Remove(p)) == Outcome(doc, Err(405))
    ensures p != [] ==>
      var parent, t := At(doc, p[..|p| - 1]), p[|p| - 1];
      && (parent.Err? ==> Apply(doc, Remove(p)) == Outcome(doc, Err(parent.code)))
      && (parent.Ok? && parent.value.Object? && t !in parent.value.members ==>
            Apply(doc, Remove(p)) == Outcome(doc, Err(403)))
      && (parent.Ok? && parent.value.Array? ==>
            if ArrayIndex(t).Err? then Apply(doc, Remove(p)) == Outcome(doc, Err(ArrayIndex(t).code))
            else if ArrayIndex(t).value >= |parent.value.items| then Apply(doc, Remove(p)) == Outcome(doc, Err(401))
            else Apply(doc, Remove(p)).error.Ok?)
  {
    hide At, Put, ArrayIndex;
  }

  /** A `test` fails with 501, except on a token that is no array index in form. */
  lemma TestErrors(doc: Json, p: Pointer, v: Json)
    ensures Apply(doc, Test(p, v)).error ==
      if At(doc, p) == Ok(v) then Ok(())
      else if At(doc, p) == Err(106) || At(doc, p) == Err(109) then Err(At(doc, p).code)
      else Err(501)
  {
    hide At;
  }

  // --------------------------------------------------------------- one by another

  /** Section 4.3 of RFC 6902: `replace` is `remove` and then `add` at the same place. At the root it is
      assignment, and it fails as reading the place does. */
  lemma ReplaceIsRemoveThenAdd(doc: Json, p: Pointer, v: Json)
    ensures At(doc, p).Err? ==> Apply(doc, Replace(p, v)) == Outcome(doc, Err(At(doc, p).code))
    ensures p == [] ==> Apply(doc, Replace(p, v)) == Outcome(v, Ok(()))
    ensures p != [] && At(doc, p).Ok? ==>
      && Apply(doc, Remove(p)).error.Ok? && Apply(doc, Replace(p, v)).error.Ok?
      && Apply(doc, Replace(p, v)) == Apply(Apply(doc, Remove(p)).doc, Add(p, v))
  {
    if p != [] && At(doc, p).Ok? {
      var front, last := p[..|p| - 1], p[|p| - 1];
      AtLast(doc, p);
      var parent := At(doc, front).value;
      hide At, Put, OperationAdd, OperationRemove, AddTo, RemoveFrom, Child, SetChild;
      SetIsRemoveThenAdd(parent, last, v);
      RemovePlain(doc, p);
      var without := RemoveFrom(parent, last).value;
      PutPut(doc, front, without, SetChild(parent, last, v));
      AddPlain(Put(doc, front, without), p, v);
      PutLast(doc, p, v);
    }
  }

  lemma RemovePlain(doc: Json, p: Pointer)
    requires p != []
    ensures var parent := At(doc, p[..|p| - 1]);
      OperationRemove(doc, p) ==
      if parent.Err? then parent
      else
        var n := RemoveFrom(parent.value, p[|p| - 1]);
        if n.Err? then n else Ok(Put(doc, p[..|p| - 1], n.value))
  {
    hide At, RemoveFrom, Put;
  }

  lemma SetIsRemoveThenAdd(parent: Json, t: string, v: Json)
    requires Child(parent, t).Ok?
    ensures RemoveFrom(parent, t).Ok?
    ensures AddTo(RemoveFrom(parent, t).value, t, v) == Ok(SetChild(parent, t, v))
  {
    match parent
    case Object(m) => assert (m - {t})[t := v] == m[t := v];
    case Array(xs) =>
      var i := ArrayIndex(t).value;
      var ys := xs[..i] + xs[i + 1..];
      assert ys[..i] + [v] + ys[i..] == xs[i := v];
      hide ArrayIndex;
  }

  /** Writing at a place is writing a child of the value above it. */
  lemma {:induction false} PutLast(doc: Json, p: Pointer, v: Json)
    requires p != [] && At(doc, p).Ok?
    ensures At(doc, p[..|p| - 1]).Ok? && Child(At(doc, p[..|p| - 1]).value, p[|p| - 1]).Ok?
    ensures Put(doc, p, v) == Put(doc, p[..|p| - 1], SetChild(At(doc, p[..|p| - 1]).value, p[|p| - 1], v))
    decreases |p|
  {
    AtLast(doc, p);
    hide Child, SetChild;
    if |p| == 1 {
      assert p[1..] == [] && p[..0] == [];
    } else {
      PutLast(Child(doc, p[0]).value, p[1..], v);
      assert p[1..][..|p| - 2] == p[..|p| - 1][1..] && p[1..][|p| - 2] == p[|p| - 1];
    }
  }

  /** Section 4.5: `copy` is `add` of what is at the source, which stays; it fails as reading the source. */
  lemma CopyIsAdd(doc: Json, from: Pointer, p: Pointer)
    ensures Apply(doc, Copy(from, p)) ==
      if At(doc, from).Ok? then Apply(doc, Add(p, At(doc, from).value)) else Outcome(doc, Err(At(doc, from).code))
  {
    hide At, OperationAdd;
  }

  /** Section 4.4: `move` is `remove` and then `add` of what was removed; it fails as reading the source, and
      with 405 for the root. When the target fails, the source stays removed. */
  lemma MoveIsRemoveThenAdd(doc: Json, from: Pointer, p: Pointer)
    ensures At(doc, from).Err? ==> Apply(doc, Move(from, p)) == Outcome(doc, Err(At(doc, from).code))
    ensures from == [] ==> Apply(doc, Move(from, p)) == Outcome(doc, Err(405))
    ensures from != [] && At(doc, from).Ok? ==>
      && Apply(doc, Remove(from)).error.Ok?
      && Apply(doc, Move(from, p)) == Apply(Apply(doc, Remove(from)).doc, Add(p, At(doc, from).value))
  {
    RemoveSucceeds(doc, from);
    if from != [] { AtLast(doc, from); }
    hide OperationAdd, OperationRemove;
  }

  /** What was copied is at the target, unless it was appended. */
  lemma CopyThenAt(doc: Json, from: Pointer, p: Pointer)
    requires Apply(doc, Copy(from, p)).error.Ok?
    ensures At(doc, from).Ok?
    ensures p == [] || !(At(doc, p[..|p| - 1]).Ok? && At(doc, p[..|p| - 1]).value.Array? && p[|p| - 1] == "-")
      ==> At(Apply(doc, Copy(from, p)).doc, p) == At(doc, from)
  {
    CopyIsAdd(doc, from, p);
    if At(doc, from).Ok? {
      AddThenAt(doc, p, At(doc, from).value);
      if p != [] { AddPlain(doc, p, At(doc, from).value); }
    }
    hide OperationAdd, AddTo, At, Put;
  }

  // ------------------------------------------------------------- and nothing else

  /** Neither place lies within the other. */
  predicate Elsewhere(p: Pointer, q: Pointer) { !(p <= q) && !(q <= p) }

  lemma {:induction false} PutElsewhere(doc: Json, p: Pointer, v: Json, q: Pointer)
    requires At(doc, p).Ok? && Elsewhere(p, q)
    ensures At(Put(doc, p, v), q) == At(doc, q)
    decreases |p|
  {
    var c := Child(doc, p[0]).value;
    if q[0] == p[0] {
      assert Elsewhere(p[1..], q[1..]);
      PutElsewhere(c, p[1..], v, q[1..]);
      ChildOfSet(doc, p[0], Put(c, p[1..], v), v);
      hide Child, SetChild;
    } else {
      OtherChild(doc, p[0], Put(c, p[1..], v), q[0]);
      hide Child, SetChild;
    }
  }

  lemma OtherChild(j: Json, t: string, v: Json, u: string)
    requires Child(j, t).Ok? && t != u
    ensures Child(SetChild(j, t, v), u) == Child(j, u)
  {
    if j.Array? && u != "-" && ArrayIndex(u).Ok? { SameIndexSameToken(t, u); }
    hide ArrayIndex;
  }

  lemma SameIndexSameToken(t: string, u: string)
    requires ArrayIndex(t).Ok? && ArrayIndex(u).Ok? && t != u
    ensures ArrayIndex(t).value != ArrayIndex(u).value
  {
    IndexIsUnique(t);
    IndexIsUnique(u);
    hide Digits, ArrayIndex;
  }

  /** `replace`, and `add` of an object member, leave every other place as it was. */
  lemma ReplaceElsewhere(doc: Json, p: Pointer, v: Json, q: Pointer)
    requires At(doc, p).Ok? && Elsewhere(p, q)
    ensures At(Apply(doc, Replace(p, v)).doc, q) == At(doc, q)
  {
    PutElsewhere(doc, p, v, q);
    hide At, Put;
  }

  lemma AddElsewhere(doc: Json, p: Pointer, v: Json, q: Pointer)
    requires p != [] && At(doc, p[..|p| - 1]).Ok? && At(doc, p[..|p| - 1]).value.Object? && Elsewhere(p, q)
    ensures At(Apply(doc, Add(p, v)).doc, q) == At(doc, q)
  {
    var front, last := p[..|p| - 1], p[|p| - 1];
    var parent := At(doc, front).value;
    var n := Object(parent.members[last := v]);
    AddPlain(doc, p, v);
    hide At, Put, OperationAdd;
    assert p == front + [last];
    if front <= q {
      var rest := q[|front|..];
      assert q == front + rest;
      AtPut(doc, front, n, rest);
      AtAppend(doc, front, rest);
      StepAside(front, last, q);
      AtObject(parent, n, last, rest);
    } else {
      assert !(q <= front);
      PutElsewhere(doc, front, n, q);
    }
  }

  lemma StepAside(front: Pointer, last: string, q: Pointer)
    requires front <= q && Elsewhere(front + [last], q)
    ensures |q| > |front| && q[|front|] != last
  {
    assert q[..|front|] == front;
    assert |q| > |front| ==> q[..|front| + 1] == front + [q[|front|]];
  }

  lemma AtObject(parent: Json, n: Json, last: string, q: Pointer)
    requires parent.Object? && n.Object? && q != [] && q[0] != last
    requires forall k :: k != last ==> (k in n.members <==> k in parent.members)
    requires forall k :: k != last && k in n.members ==> n.members[k] == parent.members[k]
    ensures At(n, q) == At(parent, q)
  {}

  /** So a `copy` to a new object member leaves its source in place. */
  lemma CopyKeepsSource(doc: Json, from: Pointer, p: Pointer)
    requires At(doc, from).Ok? && p != [] && At(doc, p[..|p| - 1]).Ok? && At(doc, p[..|p| - 1]).value.Object?
    requires At(doc, p).Err? && !(from <= p)
    ensures At(Apply(doc, Copy(from, p)).doc, from) == At(doc, from)
  {
    if p <= from {
      var rest := from[|p|..];
      assert from == p + rest;
      AtAppend(doc, p, rest);
      assert false;
    }
    CopyIsAdd(doc, from, p);
    AddElsewhere(doc, p, At(doc, from).value, from);
  }

  // ------------------------------------------------------------------- whole patches

  /** A patch stops at the first operation that fails, and keeps what it and those before it have done. */
  lemma StopsAtTheFirstError(doc: Json, before: seq<Op>, op: Op, after: seq<Op>)
    requires ApplyAll(doc, before).error.Ok?
    ensures var mid := Apply(ApplyAll(doc, before).doc, op);
      ApplyAll(doc, before + [op] + after) == if mid.error.Err? then mid else ApplyAll(mid.doc, after)
  {
    hide Apply;
    var d := ApplyAll(doc, before).doc;
    assert before + [op] + after == before + ([op] + after);
    ApplyAppend(doc, before, [op] + after);
    assert ([op] + after)[0] == op && ([op] + after)[1..] == after;
  }
}
