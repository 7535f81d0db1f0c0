/**
 The context that the constructor and the destructor of `Subcase` update, and the loop of `Context::run`
 over the runs of a test.
 */
module SubcaseContext {
  import opened Subcases
  import opened SubcaseEnds

  class Context {
    var reachedLeaf: bool
    var subcaseStack: Path
    var nextSubcaseStack: Path
    var fullyTraversedSubcases: set<Path>
    var currentSubcaseDepth: nat
    /** The `subcase_start` reports of the present run. */
    var started: Path

    ghost function Snap(): State
      reads this
    {
      State(reachedLeaf, subcaseStack, nextSubcaseStack, fullyTraversedSubcases, currentSubcaseDepth, started)
    }

    constructor ()
      ensures Snap() == FRESH
    {
      reachedLeaf, subcaseStack, nextSubcaseStack, fullyTraversedSubcases := false, [], [], {};
      currentSubcaseDepth, started := 0, [];
    }

    /** The constructor of `Subcase`: whether the subcase is entered. */
    method Enter(s: Signature) returns (entered: bool)
      requires !Overruns(Snap())
      modifies `subcaseStack, `nextSubcaseStack, `currentSubcaseDepth, `started
      ensures entered <==> Enters(old(Snap()), s)
      ensures Snap() == EnterStep(old(Snap()), s)
    {
      entered := false;
      if !reachedLeaf {
        if |nextSubcaseStack| <= |subcaseStack| || nextSubcaseStack[|subcaseStack|] == s {
          subcaseStack := subcaseStack + [s];
          currentSubcaseDepth := currentSubcaseDepth + 1;
          entered := true;
          started := started + [s];
        }
      } else {
        if subcaseStack[currentSubcaseDepth] == s {
          currentSubcaseDepth := currentSubcaseDepth + 1;
          entered := true;
          started := started + [s];
        } else if |nextSubcaseStack| <= currentSubcaseDepth
               && subcaseStack[..currentSubcaseDepth] + [s] !in fullyTraversedSubcases {
          nextSubcaseStack := [];
          nextSubcaseStack := nextSubcaseStack + subcaseStack[..currentSubcaseDepth];
          nextSubcaseStack := nextSubcaseStack + [s];
        }
      }
    }

    /** The destructor of an entered `Subcase`. */
    method Leave()
      requires currentSubcaseDepth > 0
      modifies `reachedLeaf, `nextSubcaseStack, `fullyTraversedSubcases, `currentSubcaseDepth
      ensures Snap() == LeaveStep(old(Snap()))
    {
      currentSubcaseDepth := currentSubcaseDepth - 1;
      if !reachedLeaf {
        fullyTraversedSubcases := fullyTraversedSubcases + {subcaseStack};
        nextSubcaseStack := [];
        reachedLeaf := true;
      } else if nextSubcaseStack == [] {
        fullyTraversedSubcases := fullyTraversedSubcases + {subcaseStack};
      }
    }

    /** Run a test body, or the body of an entered subcase, as far as the stack's bounds allow. */
    method RunBody(ts: seq<Tree>) returns (inBounds: bool)
      modifies this
      ensures var r := Body(old(Snap()), ts, 0);
        (inBounds <==> r.Some?) && (inBounds ==> Snap() == r.value)
      decreases ts
    {
      hide LeaveStep;
      var i := 0;
      while i < |ts|
        invariant i <= |ts| && Body(Snap(), ts, i) == Body(old(Snap()), ts, 0)
      {
        if reachedLeaf && currentSubcaseDepth >= |subcaseStack| {
          return false;
        }
        ghost var c := Snap();
        var entered := Enter(ts[i].signature);
        if entered {
          EntersAt(c, ts, i);
          inBounds := RunBody(ts[i].children);
          if !inBounds {
            return;
          }
          Leave();
        }
        i := i + 1;
      }
      inBounds := true;
    }

    /** Run a test case until no next stack is recorded, or as often as the limit allows. */
    method RunAtMost(ts: seq<Tree>, limit: nat) returns (inBounds: bool, runs: seq<Path>)
      requires nextSubcaseStack == []
      modifies this
      ensures var r := TestRuns(ts, limit);
        (inBounds <==> r.Some?) && (inBounds ==> runs == r.value.runs)
      ensures inBounds && limit > 0 ==> nextSubcaseStack == TestRuns(ts, limit).value.context.next
    {
      hide Body;
      fullyTraversedSubcases := {};
      runs, inBounds := [], true;
      var n := 0;
      while n < limit
        invariant n <= limit && inBounds && TestRuns(ts, n).Some? && runs == TestRuns(ts, n).value.runs
        invariant n > 0 ==> runs != [] && Snap() == TestRuns(ts, n).value.context
        invariant n == 0 ==> nextSubcaseStack == [] && fullyTraversedSubcases == {}
      {
        if runs != [] && nextSubcaseStack == [] {
          Settled(ts, n, limit);
          return;
        }
        reachedLeaf, subcaseStack, currentSubcaseDepth, started := false, [], 0, [];
        inBounds := RunBody(ts);
        if !inBounds {
          if n + 1 <= limit && TestRuns(ts, limit).Some? { RunsGrow(ts, n + 1, limit); }
          return;
        }
        runs := runs + [started];
        n := n + 1;
      }
    }

    /** Run a test case on which the loop stops; once for every leaf of its subcase tree, in preorder, if
        siblings have different signatures. */
    method RunTest(ts: seq<Tree>) returns (inBounds: bool, runs: seq<Path>)
      requires Stops(ts) && nextSubcaseStack == []
      modifies this
      ensures var r := TestRuns(ts, Bound(ts));
        (inBounds <==> r.Some?) && (inBounds ==> runs == r.value.runs && nextSubcaseStack == [])
      ensures Distinct(ts) ==> inBounds && runs == Leaves(ts)
    {
      if Distinct(ts) { DistinctStops(ts); }
      hide Leaves, Body, Distinct, Bound;
      fullyTraversedSubcases := {};
      runs, inBounds := [], true;
      ghost var n := 0;
      var runTest := true;
      while runTest
        invariant TestRuns(ts, n).Some? && runs == TestRuns(ts, n).value.runs && inBounds
        invariant n > 0 ==> runs != [] && Snap() == TestRuns(ts, n).value.context
        invariant n == 0 ==> nextSubcaseStack == [] && fullyTraversedSubcases == {}
        invariant runTest ==> !Over(TestRuns(ts, n)) && n < Bound(ts)
        invariant !runTest ==> Over(TestRuns(ts, n))
        decreases Bound(ts) - n, runTest
      {
        reachedLeaf, subcaseStack, currentSubcaseDepth, started := false, [], 0, [];
        inBounds := RunBody(ts);
        n := n + 1;
        if !inBounds {
          SettledAt(ts, n, Bound(ts));
          return;
        }
        runs := runs + [started];
        if nextSubcaseStack == [] {
          runTest := false;
        } else if n >= Bound(ts) {
          OverStays(ts, Bound(ts), n);
        }
      }
      SettledAt(ts, n, Bound(ts));
    }
  }
}
