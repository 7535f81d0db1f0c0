/**
 When the re-run loop of a test ends. A run goes by nothing but the next stack recorded and the paths
 traversed, which only ever become more, so a test that does not end comes back to a context it ran from.
 */
module SubcaseEnds {
  import opened Wrappers
  import opened Subcases

  // -------------------------------------------------------------- tests that never end

  /** A subcase with one subcase in it, another one, and the first again. */
  function Alternating(a: Signature, x: Signature, b: Signature, y: Signature): seq<Tree> {
    [Tree(a, [Tree(x, [])]), Tree(b, [Tree(y, [])]), Tree(a, [Tree(x, [])])]
  }

  /** A subcase with one leaf in it, entered before the leaf is reached. */
  lemma Visits(c: State, ts: seq<Tree>, i: nat, x: Signature)
    requires i < |ts| && ts[i].children == [Tree(x, [])] && !c.reachedLeaf && c.stack == [] && c.depth == 0
    requires c.next == [] || c.next == [ts[i].signature]
    ensures var path := [ts[i].signature, x];
      Body(c, ts, i) == Body(c.(reachedLeaf := true, stack := path, next := [], done := c.done + {path},
                             started := c.started + path), ts, i + 1)
  {
    EntersAt(c, ts, i);
    var d := EnterStep(c, ts[i].signature);
    EntersAt(d, ts[i].children, 0);
    var path := [ts[i].signature, x];
    assert c.started + [ts[i].signature] + [x] == c.started + path && [ts[i].signature] + [x] == path;
    var e := EnterStep(d, x);
    BodyEndsAt(e, []);
    assert e == c.(stack := path, depth := 2, started := c.started + path);
    var f := LeaveStep(e);
    assert f == e.(depth := 1, done := c.done + {path}, next := [], reachedLeaf := true);
    BodyEndsAt(f, ts[i].children);
    assert Body(d, ts[i].children, 0) == Some(f);
    assert c.done + {path} + {path} == c.done + {path};
    assert LeaveStep(f) == c.(reachedLeaf := true, stack := path, next := [], done := c.done + {path},
                           started := c.started + path);
  }

  /** The same subcase met again after the leaf. */
  lemma VisitsAgain(c: State, ts: seq<Tree>, i: nat, x: Signature)
    requires i < |ts| && ts[i].children == [Tree(x, [])] && c.reachedLeaf && c.depth == 0 && c.next != []
    requires c.stack == [ts[i].signature, x]
    ensures Body(c, ts, i) == Body(c.(started := c.started + c.stack), ts, i + 1)
  {
    EntersAt(c, ts, i);
    var d := EnterStep(c, ts[i].signature);
    EntersAt(d, ts[i].children, 0);
    assert c.started + [ts[i].signature] + [x] == c.started + [ts[i].signature, x];
  }

  lemma PassesBy(c: State, ts: seq<Tree>, i: nat)
    requires i < |ts| && !Overruns(c) && !Enters(c, ts[i].signature)
    ensures Body(c, ts, i) == Body(EnterStep(c, ts[i].signature), ts, i + 1)
  {}

  lemma BodyEndsAt(c: State, ts: seq<Tree>)
    ensures Body(c, ts, |ts|) == Some(c)
  {}

  /** A run for the first subcase records the second. */
  lemma RunsFirst(c: State, a: Signature, x: Signature, b: Signature, y: Signature)
    requires a != b && !c.reachedLeaf && c.stack == [] && c.depth == 0 && c.started == []
    requires (c.next == [] || c.next == [a]) && [a] !in c.done && [b] !in c.done
    ensures var r := Body(c, Alternating(a, x, b, y), 0);
      && r.Some? && r.value.next == [b] && r.value.started == [a, x, a, x]
      && [a] !in r.value.done && [b] !in r.value.done
  {
    hide Body;
    var ts := Alternating(a, x, b, y);
    Visits(c, ts, 0, x);
    var d := c.(reachedLeaf := true, stack := [a, x], next := [], done := c.done + {[a, x]}, started := [a, x]);
    assert c.started + [a, x] == [a, x];
    var e := d.(next := [b]);
    assert EnterStep(d, b) == e by { assert d.stack[..0] + [b] == [b]; }
    PassesBy(d, ts, 1);
    VisitsAgain(e, ts, 2, x);
    BodyEndsAt(e.(started := [a, x] + [a, x]), ts);
    assert [a, x] + [a, x] == [a, x, a, x];
  }

  /** A run for the second records the first again, because only leaf paths count as traversed. */
  lemma RunsSecond(c: State, a: Signature, x: Signature, b: Signature, y: Signature)
    requires a != b && !c.reachedLeaf && c.stack == [] && c.depth == 0 && c.started == []
    requires c.next == [b] && [a] !in c.done && [b] !in c.done
    ensures var r := Body(c, Alternating(a, x, b, y), 0);
      && r.Some? && r.value.next == [a] && r.value.started == [b, y]
      && [a] !in r.value.done && [b] !in r.value.done
  {
    hide Body;
    var ts := Alternating(a, x, b, y);
    PassesBy(c, ts, 0);
    Visits(c, ts, 1, y);
    var d := c.(reachedLeaf := true, stack := [b, y], next := [], done := c.done + {[b, y]}, started := [b, y]);
    assert c.started + [b, y] == [b, y];
    assert EnterStep(d, a) == d.(next := [a]) by { assert d.stack[..0] + [a] == [a]; }
    PassesBy(d, ts, 2);
    BodyEndsAt(d.(next := [a]), ts);
  }

  /** The re-run loop need not end: whatever the signatures, such a test runs again and again, the first
      and the second subcase in turn, and never reads past its stack. */
  lemma {:induction false} NeverEnds(a: Signature, x: Signature, b: Signature, y: Signature, n: nat)
    requires a != b
    ensures var r := TestRuns(Alternating(a, x, b, y), n);
      && r.Some? && |r.value.runs| == n
      && r.value.context.next == (if n == 0 then [] else if n % 2 == 1 then [b] else [a])
      && [a] !in r.value.context.done && [b] !in r.value.context.done
      && forall i :: 0 <= i < n ==> r.value.runs[i] == if i % 2 == 0 then [a, x, a, x] else [b, y]
    decreases n
  {
    hide Body, Alternating;
    if n > 0 {
      NeverEnds(a, x, b, y, n - 1);
      var t := TestRuns(Alternating(a, x, b, y), n - 1).value;
      if n % 2 == 1 {
        RunsFirst(Rerun(t.context), a, x, b, y);
      } else {
        RunsSecond(Rerun(t.context), a, x, b, y);
      }
    }
  }

  // ---------------------------------------------------------- tests that repeat a leaf

  /** A leaf, a subcase with a leaf in it, and the first leaf again. */
  function Repeating(b: Signature, a: Signature, x: Signature): seq<Tree> {
    [Tree(b, []), Tree(a, [Tree(x, [])]), Tree(b, [])]
  }

  lemma VisitsLeaf(c: State, ts: seq<Tree>, i: nat)
    requires i < |ts| && ts[i].children == [] && !c.reachedLeaf && c.stack == [] && c.depth == 0
    requires c.next == [] || c.next == [ts[i].signature]
    ensures var path := [ts[i].signature];
      Body(c, ts, i) == Body(c.(reachedLeaf := true, stack := path, next := [], done := c.done + {path},
                             started := c.started + path), ts, i + 1)
  {
    EntersAt(c, ts, i);
    var d := EnterStep(c, ts[i].signature);
    BodyEndsAt(d, []);
    assert [] + [ts[i].signature] == [ts[i].signature];
  }

  lemma VisitsLeafAgain(c: State, ts: seq<Tree>, i: nat)
    requires i < |ts| && ts[i].children == [] && c.reachedLeaf && c.depth == 0 && c.next != []
    requires c.stack == [ts[i].signature]
    ensures Body(c, ts, i) == Body(c.(started := c.started + c.stack), ts, i + 1)
  {
    EntersAt(c, ts, i);
    BodyEndsAt(EnterStep(c, ts[i].signature), []);
  }

  lemma FirstOfRepeating(b: Signature, a: Signature, x: Signature)
    requires a != b
    ensures Body(FRESH, Repeating(b, a, x), 0) == Some(State(true, [b], [a], {[b]}, 0, [b, b]))
  {
    hide Body;
    var ts := Repeating(b, a, x);
    VisitsLeaf(FRESH, ts, 0);
    var d := State(true, [b], [], {[b]}, 0, [b]);
    assert FRESH.started + [b] == [b] && FRESH.done + {[b]} == {[b]};
    assert d.stack[..0] + [a] == [a];
    PassesBy(d, ts, 1);
    VisitsLeafAgain(d.(next := [a]), ts, 2);
    assert [b] + [b] == [b, b];
    BodyEndsAt(State(true, [b], [a], {[b]}, 0, [b, b]), ts);
  }

  lemma SecondOfRepeating(b: Signature, a: Signature, x: Signature)
    requires a != b
    ensures Body(State(false, [], [a], {[b]}, 0, []), Repeating(b, a, x), 0)
         == Some(State(true, [a, x], [], {[b], [a, x]}, 0, [a, x]))
  {
    hide Body;
    var ts, c := Repeating(b, a, x), State(false, [], [a], {[b]}, 0, []);
    PassesBy(c, ts, 0);
    Visits(c, ts, 1, x);
    var d := State(true, [a, x], [], {[b], [a, x]}, 0, [a, x]);
    assert c.started + [a, x] == [a, x] && c.done + {[a, x]} == d.done;
    assert d.stack[..0] + [b] == [b];
    PassesBy(d, ts, 2);
    BodyEndsAt(d, ts);
  }

  /** Such a test ends after two runs, because a leaf that was traversed is not recorded again, and enters the
      repeated leaf twice in the first. */
  lemma RepeatedLeafEnds(b: Signature, a: Signature, x: Signature)
    requires a != b
    ensures var r := TestRuns(Repeating(b, a, x), 2);
      r.Some? && r.value.runs == [[b, b], [a, x]] && r.value.context.next == []
  {
    var ts := Repeating(b, a, x);
    FirstOfRepeating(b, a, x);
    SecondOfRepeating(b, a, x);
    hide Body;
    var first := Test(State(true, [b], [a], {[b]}, 0, [b, b]), [[b, b]]);
    assert [] + [[b, b]] == [[b, b]] && [[b, b]] + [[a, x]] == [[b, b], [a, x]];
    OneMoreRun(ts, 0, Test(FRESH, []), first.context);
    OneMoreRun(ts, 1, first, State(true, [a, x], [], {[b], [a, x]}, 0, [a, x]));
  }

  lemma OneMoreRun(ts: seq<Tree>, n: nat, t: Test, c: State)
    requires TestRuns(ts, n) == Some(t) && (t.runs == [] || t.context.next != [])
    requires Body(Rerun(t.context), ts, 0) == Some(c)
    ensures TestRuns(ts, n + 1) == Some(Test(c, t.runs + [c.started]))
  {
    hide Body;
  }

  /** Once the leaf is reached its path is in `fullyTraversedSubcases`, and stays on the stack: the insertion
      for a subcase whose children are all finished never adds anything. */
  lemma {:induction false} OnlyLeavesAreAdded(c: State, ts: seq<Tree>, i: nat)
    requires i <= |ts| && (c.reachedLeaf ==> c.stack in c.done)
    ensures var r := Body(c, ts, i); r.Some? && r.value.reachedLeaf ==> r.value.stack in r.value.done
    ensures c.reachedLeaf && c.depth > 0 ==> LeaveStep(c).done == c.done
    decreases ts, |ts| - i
  {
    if i < |ts| && !Overruns(c) {
      var d := EnterStep(c, ts[i].signature);
      if Enters(c, ts[i].signature) {
        OnlyLeavesAreAdded(d, ts[i].children, 0);
        EntersAt(c, ts, i);
        var r := Body(d, ts[i].children, 0);
        if r.Some? { OnlyLeavesAreAdded(LeaveStep(r.value), ts, i + 1); }
      } else {
        PassesBy(c, ts, i);
        OnlyLeavesAreAdded(d, ts, i + 1);
      }
    }
  }

  // ---------------------------------------------------------------- when a test ends

  /** The paths to the subcases of a body, and to the body itself. */
  function Paths(ts: seq<Tree>): set<Path> {
    {[]} + set i, p | 0 <= i < |ts| && p in Paths(ts[i].children) :: [ts[i].signature] + p
  }

  /** The loop has ended, or a run has overrun the stack. */
  predicate Over(r: Option<Test>) { r.None? || (r.value.runs != [] && r.value.context.next == []) }

  /** What a context holds of the paths. */
  ghost predicate Within(c: State, P: set<Path>) { c.next in P && c.done <= P && c.stack in P }

  /** The subcases below the present depth have their paths in the set. */
  ghost predicate Covers(c: State, ts: seq<Tree>, P: set<Path>) {
    && c.depth <= |c.stack| && (!c.reachedLeaf ==> c.depth == |c.stack|)
    && forall p :: p in Paths(ts) ==> c.stack[..c.depth] + p in P
  }

  lemma ChildPath(ts: seq<Tree>, i: nat, p: Path)
    requires i < |ts| && p in Paths(ts[i].children)
    ensures [ts[i].signature] + p in Paths(ts)
  {}

  lemma BodyPath(ts: seq<Tree>)
    ensures [] in Paths(ts)
  {}

  lemma CoversBelow(c: State, ts: seq<Tree>, i: nat, P: set<Path>)
    requires i < |ts| && Within(c, P) && Covers(c, ts, P) && !Overruns(c) && Enters(c, ts[i].signature)
    ensures var d := EnterStep(c, ts[i].signature);
      && Within(d, P) && Covers(d, ts[i].children, P)
      && d.depth == c.depth + 1 && d.stack[..c.depth] == c.stack[..c.depth] && d.done == c.done
  {
    var s, d := ts[i].signature, EnterStep(c, ts[i].signature);
    BodyPath(ts[i].children);
    ChildPath(ts, i, []);
    assert d.stack[..d.depth] == c.stack[..c.depth] + [s];
    assert !c.reachedLeaf ==> d.stack == c.stack[..c.depth] + [s];
    assert [s] + [] == [s];
    forall p | p in Paths(ts[i].children) ensures d.stack[..d.depth] + p in P {
      ChildPath(ts, i, p);
      assert d.stack[..d.depth] + p == c.stack[..c.depth] + ([s] + p);
    }
  }

  lemma CoversBeside(c: State, ts: seq<Tree>, i: nat, P: set<Path>)
    requires i < |ts| && Within(c, P) && Covers(c, ts, P) && !Overruns(c) && !Enters(c, ts[i].signature)
    ensures var d := EnterStep(c, ts[i].signature); Within(d, P) && Covers(d, ts, P) && d.done == c.done
  {
    BodyPath(ts[i].children);
    ChildPath(ts, i, []);
    assert [ts[i].signature] + [] == [ts[i].signature];
  }

  /** A run keeps to the paths of its tree, and forgets none it has traversed. */
  lemma {:induction false} StaysWithin(c: State, ts: seq<Tree>, i: nat, P: set<Path>)
    requires i <= |ts| && [] in P && Within(c, P) && Covers(c, ts, P)
    ensures var r := Body(c, ts, i); r.Some? ==> Within(r.value, P) && c.done <= r.value.done
    decreases ts, |ts| - i
  {
    hide Paths, EnterStep, Enters;
    if i < |ts| && !Overruns(c) {
      var d := EnterStep(c, ts[i].signature);
      if Enters(c, ts[i].signature) {
        CoversBelow(c, ts, i, P);
        StaysWithin(d, ts[i].children, 0, P);
        EntersAt(c, ts, i);
        var r := Body(d, ts[i].children, 0);
        if r.Some? {
          assert r.value.stack[..c.depth] == d.stack[..c.depth];
          StaysWithin(LeaveStep(r.value), ts, i + 1, P);
        }
      } else {
        CoversBeside(c, ts, i, P);
        PassesBy(c, ts, i);
        StaysWithin(d, ts, i + 1, P);
      }
    }
  }

  lemma {:induction false} TestWithin(ts: seq<Tree>, n: nat)
    ensures var r := TestRuns(ts, n); r.Some? ==> Within(r.value.context, Paths(ts))
    decreases n
  {
    hide Paths, Body;
    BodyPath(ts);
    if n > 0 && TestRuns(ts, n - 1).Some? {
      TestWithin(ts, n - 1);
      var c := Rerun(TestRuns(ts, n - 1).value.context);
      CoversAll(c, ts);
      StaysWithin(c, ts, 0, Paths(ts));
    }
  }

  lemma CoversAll(c: State, ts: seq<Tree>)
    requires !c.reachedLeaf && c.stack == [] && c.depth == 0
    ensures Covers(c, ts, Paths(ts))
  {
    hide Paths;
    assert forall p: Path :: [] + p == p;
  }

  /** What is traversed stays traversed. */
  lemma {:induction false} DoneGrows(ts: seq<Tree>, m: nat, n: nat)
    requires m <= n && TestRuns(ts, n).Some?
    ensures TestRuns(ts, m).Some? && TestRuns(ts, m).value.context.done <= TestRuns(ts, n).value.context.done
    decreases n
  {
    hide Paths, Body;
    if m < n {
      DoneGrows(ts, m, n - 1);
      TestWithin(ts, n - 1);
      var c := Rerun(TestRuns(ts, n - 1).value.context);
      BodyPath(ts);
      CoversAll(c, ts);
      StaysWithin(c, ts, 0, Paths(ts));
    }
  }

  lemma {:induction false} OverStays(ts: seq<Tree>, m: nat, n: nat)
    requires m <= n && Over(TestRuns(ts, m))
    ensures TestRuns(ts, n) == TestRuns(ts, m)
    decreases n
  {
    hide Body;
    if m < n { OverStays(ts, m, n - 1); }
  }

  /** All that the next run goes by. */
  predicate Alike(s: Option<Test>, t: Option<Test>) {
    && s.Some? && t.Some? && (s.value.runs == [] <==> t.value.runs == [])
    && s.value.context.next == t.value.context.next && s.value.context.done == t.value.context.done
  }

  lemma {:induction false} AlikeOn(ts: seq<Tree>, m: nat, n: nat, k: nat)
    requires Alike(TestRuns(ts, m), TestRuns(ts, n))
    ensures Over(TestRuns(ts, m + k)) <==> Over(TestRuns(ts, n + k))
    ensures TestRuns(ts, m + k).None? || Alike(TestRuns(ts, m + k), TestRuns(ts, n + k))
    decreases k
  {
    hide Body;
    if k > 0 {
      AlikeOn(ts, m, n, k - 1);
      if TestRuns(ts, m + k - 1).Some? {
        assert Rerun(TestRuns(ts, m + k - 1).value.context) == Rerun(TestRuns(ts, n + k - 1).value.context);
      }
    }
  }

  /** A context that comes back comes back for ever. */
  lemma {:induction false} RepeatsForEver(ts: seq<Tree>, m: nat, n: nat, k: nat)
    requires m < n && Alike(TestRuns(ts, m), TestRuns(ts, n)) && !Over(TestRuns(ts, n))
    ensures !Over(TestRuns(ts, k))
    decreases k
  {
    hide TestRuns;
    if k <= n {
      if Over(TestRuns(ts, k)) { OverStays(ts, k, n); }
    } else {
      AlikeOn(ts, m, n, k - n);
      RepeatsForEver(ts, m, n, k - n + m);
    }
  }

  // ------------------------------------------------------------- counting contexts

  lemma {:induction false} NoRepeats<T>(s: seq<T>, S: set<T>)
    requires (forall i :: 0 <= i < |s| ==> s[i] in S) && forall i, j :: 0 <= i < j < |s| ==> s[i] != s[j]
    ensures |s| <= |S|
    decreases |s|
  {
    if s != [] {
      var last := s[|s| - 1];
      NoRepeats(s[..|s| - 1], S - {last});
    }
  }

  function Pairs(P: set<Path>, n: nat): set<(Path, nat)> {
    if n == 0 then {} else Pairs(P, n - 1) + Tagged(P, n - 1)
  }

  function Tagged(P: set<Path>, n: nat): set<(Path, nat)> { set p | p in P :: (p, n) }

  lemma {:induction false} TagSize(P: set<Path>, n: nat)
    ensures |Tagged(P, n)| == |P|
    decreases P
  {
    if P != {} {
      var p :| p in P;
      TagSize(P - {p}, n);
      assert Tagged(P, n) == Tagged(P - {p}, n) + {(p, n)};
    }
  }

  lemma {:induction false} PairsSize(P: set<Path>, n: nat)
    ensures |Pairs(P, n)| <= |P| * n
    ensures forall p, i: nat :: p in P && i < n ==> (p, i) in Pairs(P, n)
    decreases n
  {
    if n > 0 {
      PairsSize(P, n - 1);
      TagSize(P, n - 1);
      var before, tagged := Pairs(P, n - 1), Tagged(P, n - 1);
      assert |before + tagged| == |before| + |tagged| - |before * tagged|;
      assert |P| * n == |P| * (n - 1) + |P|;
    }
  }

  /** More runs than there are contexts to run from. */
  function Bound(ts: seq<Tree>): nat { |Paths(ts)| * (|Paths(ts)| + 1) + 1 }

  /** The loop stops on exactly these trees. */
  predicate Stops(ts: seq<Tree>) { Over(TestRuns(ts, Bound(ts))) }

  /** The next stack recorded after a run, and how much has been traversed. */
  function Key(ts: seq<Tree>, n: nat): (Path, nat)
    requires TestRuns(ts, n).Some?
  {
    (TestRuns(ts, n).value.context.next, |TestRuns(ts, n).value.context.done|)
  }

  lemma SubsetSize<T>(a: set<T>, b: set<T>)
    requires a <= b
    ensures |a| <= |b| && (|a| == |b| ==> a == b)
  {
    assert b == a + (b - a);
  }

  lemma KeyWithin(ts: seq<Tree>, n: nat)
    requires TestRuns(ts, n).Some?
    ensures Key(ts, n) in Pairs(Paths(ts), |Paths(ts)| + 1)
  {
    hide TestRuns, Paths;
    TestWithin(ts, n);
    SubsetSize(TestRuns(ts, n).value.context.done, Paths(ts));
    PairsSize(Paths(ts), |Paths(ts)| + 1);
  }

  /** Equal keys are equal contexts, since nothing traversed is forgotten. */
  lemma KeysAreContexts(ts: seq<Tree>, m: nat, n: nat)
    requires 0 < m <= n && TestRuns(ts, m).Some? && TestRuns(ts, n).Some? && Key(ts, m) == Key(ts, n)
    ensures Alike(TestRuns(ts, m), TestRuns(ts, n))
  {
    DoneGrows(ts, m, n);
    SubsetSize(TestRuns(ts, m).value.context.done, TestRuns(ts, n).value.context.done);
    SomeRun(ts, m);
    SomeRun(ts, n);
  }

  lemma SomeRun(ts: seq<Tree>, n: nat)
    requires n > 0 && TestRuns(ts, n).Some?
    ensures TestRuns(ts, n).value.runs != []
  {
    hide Body;
  }

  /** A test that has not ended when the contexts are used up never ends. */
  lemma RunsOut(ts: seq<Tree>, k: nat)
    requires !Stops(ts)
    ensures !Over(TestRuns(ts, k))
  {
    hide TestRuns, Paths, Over, Pairs;
    var n, P := Bound(ts), Paths(ts);
    forall i: nat | i <= n ensures TestRuns(ts, i).Some? && !Over(TestRuns(ts, i)) {
      if Over(TestRuns(ts, i)) { OverStays(ts, i, n); }
      NotOver(TestRuns(ts, i));
    }
    var keys := seq(n, i requires 0 <= i < n => Key(ts, i + 1));
    forall i | 0 <= i < n ensures keys[i] in Pairs(P, |P| + 1) { KeyWithin(ts, i + 1); }
    PairsSize(P, |P| + 1);
    if forall i, j :: 0 <= i < j < |keys| ==> keys[i] != keys[j] {
      NoRepeats(keys, Pairs(P, |P| + 1));
    }
    var i, j :| 0 <= i < j < |keys| && keys[i] == keys[j];
    KeysAreContexts(ts, i + 1, j + 1);
    RepeatsForEver(ts, i + 1, j + 1, k);
  }

  lemma NotOver(r: Option<Test>)
    ensures r.Some? || Over(r)
  {}

  /** The exact class: the re-run loop of a test stops, by its own condition or by overrunning the stack, if
      and only if it has stopped within the bound. */
  lemma StopsExactly(ts: seq<Tree>)
    ensures Stops(ts) <==> exists n: nat :: Over(TestRuns(ts, n))
  {
    hide TestRuns, Over, Bound;
    if Stops(ts) {
      var n := Bound(ts);
      assert Over(TestRuns(ts, n));
    } else if exists n: nat :: Over(TestRuns(ts, n)) {
      var n: nat :| Over(TestRuns(ts, n));
      RunsOut(ts, n);
    }
  }

  /** Trees whose siblings differ are in it. */
  lemma DistinctStops(ts: seq<Tree>)
    requires Distinct(ts)
    ensures Stops(ts) && TestRuns(ts, Bound(ts)) == TestRuns(ts, |Leaves(ts)|)
    ensures var r := TestRuns(ts, Bound(ts)); r.Some? && r.value.runs == Leaves(ts)
  {
    hide Leaves, TestRuns, Bound, Distinct, Clear, Aimed, Traversed;
    DistinctIsClear(ts);
    ClearRuns(ts, |Leaves(ts)|);
    assert Leaves(ts)[..|Leaves(ts)|] == Leaves(ts);
    assert Over(TestRuns(ts, |Leaves(ts)|));
    StopsExactly(ts);
    SettledAt(ts, |Leaves(ts)|, Bound(ts));
  }

  lemma SettledAt(ts: seq<Tree>, m: nat, n: nat)
    requires Over(TestRuns(ts, m)) && Over(TestRuns(ts, n))
    ensures TestRuns(ts, n) == TestRuns(ts, m)
  {
    if m <= n { OverStays(ts, m, n); } else { OverStays(ts, n, m); }
  }

  /** A test that has run and has no next stack recorded is not run again. */
  lemma {:induction false} Settled(ts: seq<Tree>, n: nat, m: nat)
    requires n <= m && TestRuns(ts, n).Some?
    requires TestRuns(ts, n).value.runs != [] && TestRuns(ts, n).value.context.next == []
    ensures TestRuns(ts, m) == TestRuns(ts, n)
    decreases m
  {
    hide Body;
    if n < m { Settled(ts, n, m - 1); }
  }
}
