/**
 doctest's subcases: a test body is run again and again, each run enters one leaf of the tree of its
 subcases, and the context carries from one run to the next which leaf that should be.
 Signatures stand for name, file and line; hashes of signature sequences are taken to be injective, so
 a hash is the sequence itself.
 */
module Subcases {
  import opened Wrappers

  type Signature = string
  type Path = seq<Signature>

  /** A subcase and the subcases its body declares, in order of control flow. */
  datatype Tree = Tree(signature: Signature, children: seq<Tree>)

  /** Subcases declared side by side have different signatures, all the way down. */
  predicate Distinct(ts: seq<Tree>) {
    && (forall i, j :: 0 <= i < j < |ts| ==> ts[i].signature != ts[j].signature)
    && (forall i :: 0 <= i < |ts| ==> Distinct(ts[i].children))
  }

  // ----------------------------------------------------------- leaves, in preorder

  function Under(s: Signature, ps: seq<Path>): (r: seq<Path>) {
    seq(|ps|, i requires 0 <= i < |ps| => [s] + ps[i])
  }

  /** The leaf paths of a body; a body without subcases is one leaf. */
  function Leaves(ts: seq<Tree>): (r: seq<Path>)
    ensures |r| > 0
    decreases ts, |ts| + 1
  {
    if ts == [] then [[]] else FirstLeaves(ts, |ts|)
  }

  /** The leaf paths through the first n subcases of a body. */
  function FirstLeaves(ts: seq<Tree>, n: nat): (r: seq<Path>)
    requires n <= |ts|
    ensures n > 0 ==> |r| > 0
    decreases ts, n
  {
    if n == 0 then []
    else FirstLeaves(ts, n - 1) + Under(ts[n - 1].signature, Leaves(ts[n - 1].children))
  }

  /** The place of subcase j's first leaf. */
  function Start(ts: seq<Tree>, j: nat): nat
    requires j <= |ts|
  {
    |FirstLeaves(ts, j)|
  }

  /** The subcase that holds leaf k. */
  function Holder(ts: seq<Tree>, k: nat, n: nat): (j: nat)
    requires n <= |ts| && k < Start(ts, n)
    ensures j < n && Start(ts, j) <= k < Start(ts, j + 1)
    decreases n
  {
    if k >= Start(ts, n - 1) then n - 1 else Holder(ts, k, n - 1)
  }

  /** What `nextSubcaseStack` holds, below the body, on the way to leaf k: nothing for the first leaf. */
  function Directive(ts: seq<Tree>, k: nat): Path
    requires k < |Leaves(ts)|
    decreases ts
  {
    if k == 0 then []
    else
      var j := Holder(ts, k, |ts|);
      [ts[j].signature] + Directive(ts[j].children, k - Start(ts, j))
  }

  // ------------------------------------------------------ leaves: every path, once

  /** A path that leads from the test body to a subcase without subcases of its own. */
  predicate IsLeafPath(ts: seq<Tree>, p: Path)
    decreases |p|
  {
    if p == [] then ts == []
    else exists j :: 0 <= j < |ts| && ts[j].signature == p[0] && IsLeafPath(ts[j].children, p[1..])
  }

  lemma StartStep(ts: seq<Tree>, j: nat)
    requires j < |ts|
    ensures Start(ts, j + 1) == Start(ts, j) + |Leaves(ts[j].children)|
  {}

  lemma {:induction false} FirstLeavesGrow(ts: seq<Tree>, n: nat, m: nat)
    requires n <= m <= |ts|
    ensures FirstLeaves(ts, n) <= FirstLeaves(ts, m)
    decreases m
  {
    if n < m { FirstLeavesGrow(ts, n, m - 1); }
  }

  lemma PartAt(ts: seq<Tree>, j: nat, k': nat)
    requires j < |ts| && k' < |Leaves(ts[j].children)|
    ensures Start(ts, j) + k' < Start(ts, j + 1)
    ensures FirstLeaves(ts, j + 1)[Start(ts, j) + k'] == [ts[j].signature] + Leaves(ts[j].children)[k']
  {
    hide Leaves;
  }

  /** Leaf k' of subcase j, seen from the body that declares the subcase. */
  lemma LeafAt(ts: seq<Tree>, j: nat, k': nat)
    requires j < |ts| && k' < |Leaves(ts[j].children)|
    ensures Start(ts, j) + k' < Start(ts, j + 1) <= |Leaves(ts)|
    ensures Leaves(ts)[Start(ts, j) + k'] == [ts[j].signature] + Leaves(ts[j].children)[k']
  {
    hide Leaves, FirstLeaves;
    FirstLeavesGrow(ts, j + 1, |ts|);
    PartAt(ts, j, k');
    AllLeaves(ts);
  }

  lemma AllLeaves(ts: seq<Tree>)
    requires ts != []
    ensures Leaves(ts) == FirstLeaves(ts, |ts|)
  {
    hide FirstLeaves;
  }

  lemma {:induction false} HolderIs(ts: seq<Tree>, k: nat, n: nat, j: nat)
    requires j < n <= |ts| && Start(ts, j) <= k < Start(ts, j + 1) && k < Start(ts, n)
    ensures Holder(ts, k, n) == j
    decreases n
  {
    hide FirstLeaves;
    if j < n - 1 {
      StartsGrow(ts, j + 1, n - 1);
      HolderIs(ts, k, n - 1, j);
    }
  }

  lemma StartsGrow(ts: seq<Tree>, n: nat, m: nat)
    requires n <= m <= |ts|
    ensures Start(ts, n) <= Start(ts, m)
  {
    FirstLeavesGrow(ts, n, m);
  }

  lemma LeafOf(ts: seq<Tree>, k: nat) returns (j: nat, k': nat)
    requires ts != [] && k < |Leaves(ts)|
    ensures j < |ts| && k' < |Leaves(ts[j].children)| && k == Start(ts, j) + k'
    ensures Leaves(ts)[k] == [ts[j].signature] + Leaves(ts[j].children)[k']
  {
    hide Leaves, FirstLeaves, Holder;
    BodyEnds(ts);
    j := Holder(ts, k, |ts|);
    StartStep(ts, j);
    k' := k - Start(ts, j);
    LeafAt(ts, j, k');
  }

  /** The enumeration holds the leaf paths and nothing else. */
  lemma {:induction false} LeavesAreLeafPaths(ts: seq<Tree>, p: Path)
    ensures p in Leaves(ts) <==> IsLeafPath(ts, p)
    decreases |p|
  {
    if p in Leaves(ts) && ts != [] {
      var k :| 0 <= k < |Leaves(ts)| && Leaves(ts)[k] == p;
      var j, k' := LeafOf(ts, k);
      hide Leaves;
      assert p[0] == ts[j].signature && p[1..] == Leaves(ts[j].children)[k'];
      LeavesAreLeafPaths(ts[j].children, p[1..]);
    }
    if IsLeafPath(ts, p) && p != [] {
      var j :| 0 <= j < |ts| && ts[j].signature == p[0] && IsLeafPath(ts[j].children, p[1..]);
      LeavesAreLeafPaths(ts[j].children, p[1..]);
      var k' :| 0 <= k' < |Leaves(ts[j].children)| && Leaves(ts[j].children)[k'] == p[1..];
      LeafAt(ts, j, k');
      hide Leaves;
      assert p == [p[0]] + p[1..];
    }
  }

  /** No leaf path is enumerated twice. */
  lemma {:induction false} LeavesAreDistinct(ts: seq<Tree>, k: nat, l: nat)
    requires Distinct(ts) && k < l < |Leaves(ts)|
    ensures Leaves(ts)[k] != Leaves(ts)[l]
    decreases ts
  {
    var j, k' := LeafOf(ts, k);
    var i, l' := LeafOf(ts, l);
    hide Leaves, Start;
    var p, q := Leaves(ts)[k], Leaves(ts)[l];
    assert p[0] == ts[j].signature && q[0] == ts[i].signature;
    if i == j {
      LeavesAreDistinct(ts[j].children, k', l');
      assert p[1..] == Leaves(ts[j].children)[k'] && q[1..] == Leaves(ts[j].children)[l'];
    }
  }

  // ------------------------------------------------------------------- directives

  lemma DirectiveOf(ts: seq<Tree>, j: nat, k': nat)
    requires j < |ts| && k' < |Leaves(ts[j].children)| && 0 < Start(ts, j) + k'
    ensures Start(ts, j) + k' < |Leaves(ts)|
    ensures Directive(ts, Start(ts, j) + k') == [ts[j].signature] + Directive(ts[j].children, k')
  {
    hide Leaves, FirstLeaves, Holder, Directive;
    LeafAt(ts, j, k');
    BodyEnds(ts);
    HolderIs(ts, Start(ts, j) + k', |ts|, j);
    DirectiveStep(ts, Start(ts, j) + k');
  }

  lemma DirectiveStep(ts: seq<Tree>, k: nat)
    requires ts != [] && 0 < k < |Leaves(ts)| && |Leaves(ts)| == Start(ts, |ts|)
    ensures var j := Holder(ts, k, |ts|);
      && k - Start(ts, j) < |Leaves(ts[j].children)|
      && Directive(ts, k) == [ts[j].signature] + Directive(ts[j].children, k - Start(ts, j))
  {
    hide Leaves, FirstLeaves, Holder;
    StartStep(ts, Holder(ts, k, |ts|));
  }

  /** `nextSubcaseStack` aims at leaf k of the body run below the prefix. */
  predicate Aimed(next: Path, prefix: Path, ts: seq<Tree>, k: nat)
    requires k < |Leaves(ts)|
  {
    if k == 0 then |next| <= |prefix| else next == prefix + Directive(ts, k)
  }

  /** What it holds once leaf k has run: the way to the next leaf, nothing after the last. */
  function Onward(prefix: Path, ts: seq<Tree>, k: nat): Path {
    if k + 1 < |Leaves(ts)| then prefix + Directive(ts, k + 1) else []
  }

  /** What it holds when the first i subcases of the body are behind, leaf k' of subcase j among them. */
  function Midway(prefix: Path, ts: seq<Tree>, j: nat, k': nat, i: nat): Path
    requires j < i <= |ts|
  {
    if k' + 1 < |Leaves(ts[j].children)| then Onward(prefix + [ts[j].signature], ts[j].children, k')
    else if j + 1 < i then prefix + [ts[j + 1].signature]
    else []
  }

  /** The first sibling passed records itself if nothing is recorded yet; after that nothing changes. */
  lemma MidwayStep(prefix: Path, ts: seq<Tree>, j: nat, k': nat, i: nat)
    requires j < i < |ts| && k' < |Leaves(ts[j].children)|
    ensures var next, next' := Midway(prefix, ts, j, k', i), Midway(prefix, ts, j, k', i + 1);
      if next == [] && i == j + 1 then next' == prefix + [ts[i].signature]
      else next' == next && |next| > |prefix|
  {
    hide Leaves, FirstLeaves, Holder, Directive;
    if k' + 1 < |Leaves(ts[j].children)| { SomeDirective(ts[j].children, k' + 1); }
  }

  lemma MidwayFirst(prefix: Path, ts: seq<Tree>, j: nat, k': nat)
    requires j < |ts| && k' < |Leaves(ts[j].children)|
    ensures Midway(prefix, ts, j, k', j + 1) == Onward(prefix + [ts[j].signature], ts[j].children, k')
  {}

  lemma OnwardOfNothing(prefix: Path)
    ensures Onward(prefix, [], 0) == []
  {
    LeafOfNothing();
  }

  lemma MidwayToEnd(prefix: Path, ts: seq<Tree>, j: nat, k': nat)
    requires j < |ts| && k' < |Leaves(ts[j].children)|
    ensures Midway(prefix, ts, j, k', |ts|) == Onward(prefix, ts, Start(ts, j) + k')
  {
    hide Leaves, FirstLeaves, Directive, Holder;
    StartStep(ts, j);
    LeafAt(ts, j, k');
    BodyEnds(ts);
    if k' + 1 < |Leaves(ts[j].children)| {
      DirectiveOf(ts, j, k' + 1);
      var s := ts[j].signature;
      assert (prefix + [s]) + Directive(ts[j].children, k' + 1) == prefix + ([s] + Directive(ts[j].children, k' + 1));
    } else if j + 1 < |ts| {
      DirectiveOf(ts, j + 1, 0);
      NoDirective(ts[j + 1].children);
    }
  }

  lemma NoDirective(ts: seq<Tree>)
    ensures Directive(ts, 0) == []
  {}

  lemma SomeDirective(ts: seq<Tree>, k: nat)
    requires 0 < k < |Leaves(ts)|
    ensures Directive(ts, k) != []
  {}

  lemma BodyEnds(ts: seq<Tree>)
    requires ts != []
    ensures Start(ts, |ts|) == |Leaves(ts)|
  {}

  // ----------------------------------------------------------- siblings told apart

  /** No sibling has the signature of subcase j. */
  predicate Lone(ts: seq<Tree>, j: nat)
    requires j < |ts|
  {
    forall i :: 0 <= i < |ts| && i != j ==> ts[i].signature != ts[j].signature
  }

  /** On the way to leaf k, every subcase is told apart from its siblings. */
  predicate Clear(ts: seq<Tree>, k: nat)
    requires k < |Leaves(ts)|
    decreases ts
  {
    ts == [] ||
    var j := Holder(ts, k, |ts|);
    Lone(ts, j) && Clear(ts[j].children, k - Start(ts, j))
  }

  predicate ClearUpTo(ts: seq<Tree>, n: nat)
    requires n <= |Leaves(ts)|
  {
    forall k :: 0 <= k < n ==> Clear(ts, k)
  }

  lemma ClearOf(ts: seq<Tree>, j: nat, k': nat)
    requires j < |ts| && k' < |Leaves(ts[j].children)|
    ensures Start(ts, j) + k' < |Leaves(ts)|
    ensures Clear(ts, Start(ts, j) + k') <==> Lone(ts, j) && Clear(ts[j].children, k')
  {
    hide Leaves, FirstLeaves, Holder, Lone, Clear;
    LeafAt(ts, j, k');
    BodyEnds(ts);
    HolderIs(ts, Start(ts, j) + k', |ts|, j);
    ClearStep(ts, Start(ts, j) + k');
  }

  lemma ClearStep(ts: seq<Tree>, k: nat)
    requires ts != [] && k < |Leaves(ts)| && |Leaves(ts)| == Start(ts, |ts|)
    ensures var j := Holder(ts, k, |ts|);
      k - Start(ts, j) < |Leaves(ts[j].children)|
      && (Clear(ts, k) <==> Lone(ts, j) && Clear(ts[j].children, k - Start(ts, j)))
  {
    hide Leaves, FirstLeaves, Holder, Lone;
    StartStep(ts, Holder(ts, k, |ts|));
  }

  /** What is clear up to leaf k' of subcase j is clear inside that subcase up to leaf k'. */
  lemma ClearBelow(ts: seq<Tree>, j: nat, k': nat)
    requires j < |ts| && k' <= |Leaves(ts[j].children)| && Start(ts, j) + k' <= |Leaves(ts)|
    requires ClearUpTo(ts, Start(ts, j) + k')
    ensures ClearUpTo(ts[j].children, k')
  {
    hide Leaves, FirstLeaves, Clear, Lone;
    forall i | 0 <= i < k' ensures Clear(ts[j].children, i) { ClearOf(ts, j, i); }
  }

  /** A subcase with a clear leaf is told apart from its siblings. */
  lemma ClearIsLone(ts: seq<Tree>, j: nat, k: nat)
    requires j < |ts| && k <= |Leaves(ts)| && ClearUpTo(ts, k) && Start(ts, j) < k
    ensures Lone(ts, j)
  {
    hide Leaves, FirstLeaves, Clear, Lone;
    ClearOf(ts, j, 0);
  }

  /** All leaves are clear exactly when siblings have different signatures all the way down. */
  lemma {:induction false} DistinctIsClear(ts: seq<Tree>)
    ensures Distinct(ts) <==> ClearUpTo(ts, |Leaves(ts)|)
    decreases ts
  {
    hide Leaves, FirstLeaves, Holder, Clear, Start;
    if Distinct(ts) {
      forall k | 0 <= k < |Leaves(ts)| ensures Clear(ts, k) { DistinctClears(ts, k); }
    }
    if ClearUpTo(ts, |Leaves(ts)|) {
      forall j: nat | j < |ts| ensures Lone(ts, j) && Distinct(ts[j].children) {
        WholeSubcase(ts, j);
        ClearIsLone(ts, j, |Leaves(ts)|);
        DistinctIsClear(ts[j].children);
      }
    }
  }

  lemma DistinctClears(ts: seq<Tree>, k: nat)
    requires Distinct(ts) && k < |Leaves(ts)|
    ensures Clear(ts, k)
    decreases ts
  {
    hide Leaves, FirstLeaves, Start;
    if ts != [] {
      var j, k' := LeafOf(ts, k);
      ClearOf(ts, j, k');
      DistinctClears(ts[j].children, k');
    } else {
      assert Clear(ts, k);
    }
  }

  lemma WholeSubcase(ts: seq<Tree>, j: nat)
    requires j < |ts| && ClearUpTo(ts, |Leaves(ts)|)
    ensures Start(ts, j) < |Leaves(ts)| && ClearUpTo(ts[j].children, |Leaves(ts[j].children)|)
  {
    hide Leaves, FirstLeaves, Clear;
    LeafAt(ts, j, |Leaves(ts[j].children)| - 1);
    ClearBelow(ts, j, |Leaves(ts[j].children)|);
  }

  // ------------------------------------------------------- fully traversed subcases

  /** The traversed paths at or below the prefix are the leaves before leaf k. */
  predicate Traversed(done: set<Path>, prefix: Path, ts: seq<Tree>, k: nat)
    requires k <= |Leaves(ts)|
  {
    forall q :: q in done && prefix <= q ==> exists i :: 0 <= i < k && q == prefix + Leaves(ts)[i]
  }

  lemma TraversedBelow(done: set<Path>, prefix: Path, ts: seq<Tree>, j: nat, k': nat)
    requires j < |ts| && Lone(ts, j) && k' < |Leaves(ts[j].children)|
    requires Start(ts, j) + k' < |Leaves(ts)| && Traversed(done, prefix, ts, Start(ts, j) + k')
    ensures Traversed(done, prefix + [ts[j].signature], ts[j].children, k')
  {
    var s, below := ts[j].signature, Leaves(ts[j].children);
    forall q | q in done && prefix + [s] <= q ensures exists i :: 0 <= i < k' && q == prefix + [s] + below[i] {
      assert prefix <= prefix + [s] <= q;
      var i: nat :| i < Start(ts, j) + k' && q == prefix + Leaves(ts)[i];
      var h, i' := LeafOf(ts, i);
      assert (prefix + [s])[|prefix|] == s && q[|prefix|] == ts[h].signature;
      hide Leaves, FirstLeaves;
      assert h == j;
      assert q == prefix + ([s] + below[i']) == prefix + [s] + below[i'];
    }
  }

  /** The subcase after the one just left has not been traversed. */
  lemma SiblingIsFresh(done: set<Path>, prefix: Path, ts: seq<Tree>, j: nat, k': nat)
    requires j + 1 < |ts| && k' < |Leaves(ts[j].children)| && Start(ts, j) + k' < |Leaves(ts)|
    requires ClearUpTo(ts, Start(ts, j) + k' + 1) && Traversed(done, prefix, ts, Start(ts, j) + k')
    ensures prefix + [ts[j + 1].signature] !in done + {prefix + Leaves(ts)[Start(ts, j) + k']}
  {
    hide Leaves, FirstLeaves, Start, ClearUpTo;
    var k, s, q := Start(ts, j) + k', ts[j + 1].signature, prefix + [ts[j + 1].signature];
    forall i: nat | i <= k ensures prefix + Leaves(ts)[i] != q {
      HeadBefore(ts, j, k', i);
      assert (prefix + Leaves(ts)[i])[|prefix|] == Leaves(ts)[i][0] && q[|prefix|] == s;
    }
    assert prefix <= q;
  }

  /** Leaves up to one inside subcase j are not inside the subcase after it. */
  lemma HeadBefore(ts: seq<Tree>, j: nat, k': nat, i: nat)
    requires j + 1 < |ts| && k' < |Leaves(ts[j].children)| && i <= Start(ts, j) + k' < |Leaves(ts)|
    requires ClearUpTo(ts, Start(ts, j) + k' + 1)
    ensures Leaves(ts)[i] != [] && Leaves(ts)[i][0] != ts[j + 1].signature
  {
    hide Leaves, FirstLeaves, Holder, Start, ClearUpTo;
    var h, i' := LeafOf(ts, i);
    StartStep(ts, j);
    if h >= j + 1 {
      StartsGrow(ts, j + 1, h);
      assert false;
    }
    ClearIsLone(ts, h, Start(ts, j) + k' + 1);
  }

  lemma TraversedNext(done: set<Path>, ts: seq<Tree>, k: nat)
    requires k < |Leaves(ts)| && Traversed(done, [], ts, k)
    ensures Traversed(done + {Leaves(ts)[k]}, [], ts, k + 1)
  {}

  /** The aim passes over the subcases before subcase j, enters it, and is the aim inside it. */
  lemma AimInside(next: Path, prefix: Path, ts: seq<Tree>, j: nat, k': nat)
    requires j < |ts| && k' < |Leaves(ts[j].children)|
    requires Start(ts, j) + k' < |Leaves(ts)| && Aimed(next, prefix, ts, Start(ts, j) + k')
    ensures (|next| <= |prefix| && j == 0) || (|next| > |prefix| && next[|prefix|] == ts[j].signature)
    ensures Aimed(next, prefix + [ts[j].signature], ts[j].children, k')
  {
    hide Leaves, FirstLeaves, Directive, Holder;
    if Start(ts, j) + k' > 0 {
      var s, d := ts[j].signature, Directive(ts[j].children, k');
      DirectiveOf(ts, j, k');
      NoDirective(ts[j].children);
      assert next == prefix + ([s] + d) == (prefix + [s]) + d;
    }
  }

  lemma LeafOfNothing()
    ensures Leaves([]) == [[]]
  {}

  // --------------------------------------------------------------------- one run

  /** The context, with the `subcase_start` reports of the present run. */
  datatype State = State(
    reachedLeaf: bool, stack: Path, next: Path, done: set<Path>, depth: nat, started: Path)

  /** The constructor of `Subcase` would read `subcaseStack` past its end. */
  predicate Overruns(c: State) { c.reachedLeaf && c.depth >= |c.stack| }

  predicate Enters(c: State, s: Signature)
    requires !Overruns(c)
  {
    if c.reachedLeaf then c.stack[c.depth] == s else |c.next| <= |c.stack| || c.next[|c.stack|] == s
  }

  /** The constructor of `Subcase`. */
  function EnterStep(c: State, s: Signature): State
    requires !Overruns(c)
  {
    if Enters(c, s) then
      c.(stack := if c.reachedLeaf then c.stack else c.stack + [s], depth := c.depth + 1, started := c.started + [s])
    else if c.reachedLeaf && |c.next| <= c.depth && c.stack[..c.depth] + [s] !in c.done then
      c.(next := c.stack[..c.depth] + [s])
    else c
  }

  /** The destructor of an entered `Subcase`. */
  function LeaveStep(c: State): State
    requires c.depth > 0
  {
    var left := c.(depth := c.depth - 1);
    if !c.reachedLeaf then left.(done := c.done + {c.stack}, next := [], reachedLeaf := true)
    else if c.next == [] then left.(done := c.done + {c.stack})
    else left
  }

  /** Running a body from its subcase i on, or nothing if that overruns the stack. */
  function Body(c: State, ts: seq<Tree>, i: nat): (r: Option<State>)
    requires i <= |ts|
    ensures r.Some? ==> r.value.depth == c.depth && c.started <= r.value.started
    ensures r.Some? && c.reachedLeaf ==> r.value.reachedLeaf && r.value.stack == c.stack
    ensures r.Some? ==> c.stack <= r.value.stack
    decreases ts, |ts| - i
  {
    if i == |ts| then Some(c)
    else if Overruns(c) then None
    else
      var d := EnterStep(c, ts[i].signature);
      if !Enters(c, ts[i].signature) then Body(d, ts, i + 1)
      else
        match Body(d, ts[i].children, 0)
        case None => None
        case Some(e) => Body(LeaveStep(e), ts, i + 1)
  }

  /** About to run a body below the present stack, aiming at its leaf k. */
  ghost predicate Ready(c: State, ts: seq<Tree>, k: nat) {
    && k < |Leaves(ts)| && !c.reachedLeaf && c.depth == |c.stack|
    && Aimed(c.next, c.stack, ts, k)
  }

  /** What leaf k makes of the context. */
  function Arrived(c: State, ts: seq<Tree>, k: nat): State
    requires k < |Leaves(ts)|
  {
    var leaf := Leaves(ts)[k];
    if ts == [] then c
    else
      c.(reachedLeaf := true, stack := c.stack + leaf, next := Onward(c.stack, ts, k),
      done := c.done + {c.stack + leaf}, started := c.started + leaf)
  }

  /** Before the leaf, subcases that are not aimed at are passed over. */
  lemma {:induction false} PassesOver(c: State, ts: seq<Tree>, j: nat, i: nat)
    requires i <= j < |ts| && !c.reachedLeaf
    requires i < j ==> |c.next| > |c.stack|
    requires forall h :: i <= h < j ==> ts[h].signature != c.next[|c.stack|]
    ensures Body(c, ts, i) == Body(c, ts, j)
    decreases j - i
  {
    if i < j { PassesOver(c, ts, j, i + 1); }
  }

  /** The subcase that is entered, and what the rest of the body then starts from. */
  lemma EntersAt(c: State, ts: seq<Tree>, j: nat)
    requires j < |ts| && !Overruns(c) && Enters(c, ts[j].signature)
    ensures match Body(EnterStep(c, ts[j].signature), ts[j].children, 0)
      case None => Body(c, ts, j) == None
      case Some(e) => Body(c, ts, j) == Body(LeaveStep(e), ts, j + 1)
  {
    hide EnterStep, LeaveStep, Enters, Overruns;
  }

  /** After the leaf, the siblings of the subcase on its path are passed, and the first of them records
      itself if nothing is recorded. */
  lemma {:induction false} PassesOn(c: State, prefix: Path, ts: seq<Tree>, j: nat, k': nat, i: nat)
    requires j < i <= |ts| && Lone(ts, j) && k' < |Leaves(ts[j].children)|
    requires c.reachedLeaf && c.depth == |prefix| < |c.stack| && c.stack[..|prefix|] == prefix
    requires c.stack[|prefix|] == ts[j].signature && c.next == Midway(prefix, ts, j, k', i)
    requires i == j + 1 < |ts| ==> prefix + [ts[i].signature] !in c.done
    ensures Body(c, ts, i) == Some(c.(next := Midway(prefix, ts, j, k', |ts|)))
    decreases |ts| - i
  {
    hide Leaves, Midway;
    if i < |ts| {
      MidwayStep(prefix, ts, j, k', i);
      var d := c.(next := Midway(prefix, ts, j, k', i + 1));
      assert EnterStep(c, ts[i].signature) == d && !Enters(c, ts[i].signature);
      PassesOn(d, prefix, ts, j, k', i + 1);
    }
  }

  /** A run that reaches its leaf clearly enters exactly the subcases on the leaf's path. */
  lemma {:induction false} RunsLeaf(c: State, ts: seq<Tree>, k: nat)
    requires Ready(c, ts, k) && ClearUpTo(ts, k + 1) && Traversed(c.done, c.stack, ts, k)
    ensures Body(c, ts, 0) == Some(Arrived(c, ts, k))
    decreases ts
  {
    hide Leaves, FirstLeaves, Holder, Directive, Start, Clear, Midway, Onward, Lone, Traversed, Aimed, Enters;
    hide EnterStep, LeaveStep, Arrived, ClearUpTo;
    if ts != [] {
      var j, k' := LeafOf(ts, k);
      var s, below := ts[j].signature, ts[j].children;
      Choice(c, ts, j, k');
      RunsLeaf(EnterStep(c, s), below, k');
      var f := LeaveStep(Arrived(EnterStep(c, s), below, k'));
      ComesBack(c, ts, j, k');
      Passage(f, c, ts, j, k');
    } else {
      NothingArrives(c);
    }
  }

  lemma NothingArrives(c: State)
    ensures Body(c, [], 0) == Some(c) && Leaves([]) == [[]] && Arrived(c, [], 0) == c
  {}

  /** The run chooses the subcase its leaf is in. */
  lemma Choice(c: State, ts: seq<Tree>, j: nat, k': nat)
    requires j < |ts| && k' < |Leaves(ts[j].children)| && Ready(c, ts, Start(ts, j) + k')
    requires ClearUpTo(ts, Start(ts, j) + k' + 1) && Traversed(c.done, c.stack, ts, Start(ts, j) + k')
    ensures Lone(ts, j) && Body(c, ts, 0) == Body(c, ts, j) && Enters(c, ts[j].signature)
    ensures var d := EnterStep(c, ts[j].signature);
      && d == c.(stack := c.stack + [ts[j].signature], depth := c.depth + 1, started := c.started + [ts[j].signature])
      && Ready(d, ts[j].children, k') && ClearUpTo(ts[j].children, k' + 1)
      && Traversed(d.done, d.stack, ts[j].children, k')
  {
    hide Leaves, FirstLeaves, Holder, Directive, Start, Clear, Traversed, Aimed, Body;
    AimInside(c.next, c.stack, ts, j, k');
    ClearOf(ts, j, k');
    TraversedBelow(c.done, c.stack, ts, j, k');
    ClearBelow(ts, j, k' + 1);
    PassesOver(c, ts, j, 0);
  }

  /** The context after the chosen subcase has been left. */
  lemma ComesBack(c: State, ts: seq<Tree>, j: nat, k': nat)
    requires j < |ts| && k' < |Leaves(ts[j].children)| && Ready(c, ts, Start(ts, j) + k')
    requires Enters(c, ts[j].signature)
    ensures var leaf := c.stack + Leaves(ts)[Start(ts, j) + k'];
      var e := Arrived(EnterStep(c, ts[j].signature), ts[j].children, k');
      && e.depth > 0
      && LeaveStep(e) == c.(reachedLeaf := true, stack := leaf, next := Midway(c.stack, ts, j, k', j + 1),
         done := c.done + {leaf}, started := c.started + Leaves(ts)[Start(ts, j) + k'])
  {
    hide Leaves, FirstLeaves, Holder, Directive, Start, Midway, Onward, Aimed;
    var s, below := ts[j].signature, ts[j].children;
    LeafAt(ts, j, k');
    MidwayFirst(c.stack, ts, j, k');
    OnwardOfNothing(c.stack + [s]);
    LeafOfNothing();
    var inner := Leaves(below)[k'];
    assert c.stack + ([s] + inner) == c.stack + [s] + inner;
    assert c.started + ([s] + inner) == c.started + [s] + inner;
    assert inner == [] ==> c.stack + [s] + inner == c.stack + [s] && c.started + [s] + inner == c.started + [s];
  }

  /** The rest of the body. */
  lemma Passage(f: State, c: State, ts: seq<Tree>, j: nat, k': nat)
    requires j < |ts| && k' < |Leaves(ts[j].children)| && Ready(c, ts, Start(ts, j) + k') && Lone(ts, j)
    requires ClearUpTo(ts, Start(ts, j) + k' + 1) && Traversed(c.done, c.stack, ts, Start(ts, j) + k')
    requires var leaf := c.stack + Leaves(ts)[Start(ts, j) + k'];
      f == c.(reachedLeaf := true, stack := leaf, next := Midway(c.stack, ts, j, k', j + 1),
      done := c.done + {leaf}, started := c.started + Leaves(ts)[Start(ts, j) + k'])
    ensures Body(f, ts, j + 1) == Some(Arrived(c, ts, Start(ts, j) + k'))
  {
    hide Leaves, FirstLeaves, Holder, Directive, Start, Midway, Onward, Aimed, Lone, Traversed, ClearUpTo, Body;
    LeafAt(ts, j, k');
    if j + 1 < |ts| { SiblingIsFresh(c.done, c.stack, ts, j, k'); }
    PassesOn(f, c.stack, ts, j, k', j + 1);
    MidwayToEnd(c.stack, ts, j, k');
  }

  // ---------------------------------------------------- siblings with equal signatures

  /** A run that is not told where to go enters at least the first leaf's path. */
  lemma {:induction false} Leftmost(c: State, ts: seq<Tree>)
    requires !c.reachedLeaf && |c.next| <= |c.stack|
    ensures var r := Body(c, ts, 0); r.Some? ==> |r.value.started| >= |c.started| + |Leaves(ts)[0]|
    decreases ts
  {
    hide Leaves, FirstLeaves;
    if ts != [] {
      LeafAt(ts, 0, 0);
      NoStart(ts);
      EntersAt(c, ts, 0);
      Leftmost(EnterStep(c, ts[0].signature), ts[0].children);
    } else {
      LeafOfNothing();
    }
  }

  lemma NoStart(ts: seq<Tree>)
    ensures Start(ts, 0) == 0
  {}

  /** A sibling with the signature that is on the stack is entered again. */
  lemma {:induction false} MeetsAgain(c: State, ts: seq<Tree>, j: nat, i: nat)
    requires i <= j < |ts| && c.reachedLeaf && c.depth < |c.stack| && c.stack[c.depth] == ts[j].signature
    ensures var r := Body(c, ts, i); r.Some? ==> |r.value.started| > |c.started|
    decreases j - i
  {
    if Enters(c, ts[i].signature) {
      EntersAt(c, ts, i);
    } else {
      MeetsAgain(EnterStep(c, ts[i].signature), ts, j, i + 1);
    }
  }

  /** A run aimed at the first leaf that is not clear overruns the stack or enters too much. */
  lemma {:induction false} Overfull(c: State, ts: seq<Tree>, k: nat)
    requires Ready(c, ts, k) && ClearUpTo(ts, k) && !Clear(ts, k)
    ensures var r := Body(c, ts, 0); r.Some? ==> |r.value.started| > |c.started| + |Leaves(ts)[k]|
    decreases ts
  {
    hide Leaves, FirstLeaves, Holder, Directive, Start, ClearUpTo, Aimed, EnterStep, Lone;
    var j, k' := LeafOf(ts, k);
    FirstOfItsName(c, ts, j, k');
    EntersAt(c, ts, j);
    var d := EnterStep(c, ts[j].signature);
    if Lone(ts, j) {
      hide Clear;
      Overfull(d, ts[j].children, k');
    } else {
      hide Clear;
      Doubled(c, ts, j, k');
    }
  }

  /** The subcase of the first leaf that is not clear is the first with its signature. */
  lemma FirstOfItsName(c: State, ts: seq<Tree>, j: nat, k': nat)
    requires j < |ts| && k' < |Leaves(ts[j].children)| && Ready(c, ts, Start(ts, j) + k')
    requires ClearUpTo(ts, Start(ts, j) + k') && !Clear(ts, Start(ts, j) + k')
    ensures Body(c, ts, 0) == Body(c, ts, j) && Enters(c, ts[j].signature)
    ensures var d := EnterStep(c, ts[j].signature);
      && d == c.(stack := c.stack + [ts[j].signature], depth := c.depth + 1, started := c.started + [ts[j].signature])
      && Ready(d, ts[j].children, k')
    ensures Lone(ts, j) ==> ClearUpTo(ts[j].children, k') && !Clear(ts[j].children, k')
    ensures !Lone(ts, j) ==> k' == 0 && exists i :: j < i < |ts| && ts[i].signature == ts[j].signature
  {
    hide Leaves, FirstLeaves, Holder, Directive, Clear, Aimed, Body;
    AimInside(c.next, c.stack, ts, j, k');
    ClearOf(ts, j, k');
    ClearBelow(ts, j, k');
    forall h: nat | h < j ensures ts[h].signature != ts[j].signature {
      StartsGrow(ts, h + 1, j);
      StartStep(ts, h);
      ClearIsLone(ts, h, Start(ts, j) + k');
    }
    if !Lone(ts, j) && k' > 0 { ClearIsLone(ts, j, Start(ts, j) + k'); }
    PassesOver(c, ts, j, 0);
  }

  /** The subcase is entered, and so is the one after it with the same signature. */
  lemma Doubled(c: State, ts: seq<Tree>, j: nat, k': nat)
    requires j < |ts| && k' == 0 && Ready(c, ts, Start(ts, j)) && Enters(c, ts[j].signature)
    requires exists i :: j < i < |ts| && ts[i].signature == ts[j].signature
    requires var d := EnterStep(c, ts[j].signature);
      && d == c.(stack := c.stack + [ts[j].signature], depth := c.depth + 1, started := c.started + [ts[j].signature])
      && Ready(d, ts[j].children, 0)
    ensures var r := Body(c, ts, j);
      r.Some? ==> |r.value.started| > |c.started| + |Leaves(ts)[Start(ts, j)]|
  {
    hide Leaves, FirstLeaves, Holder, Directive, EnterStep, Enters;
    var s := ts[j].signature;
    var i :| j < i < |ts| && ts[i].signature == s;
    var d := EnterStep(c, s);
    EntersAt(c, ts, j);
    LeafAt(ts, j, 0);
    Leftmost(d, ts[j].children);
    var r := Body(d, ts[j].children, 0);
    if r.Some? {
      assert d.stack[|c.stack|] == s;
      MeetsAgain(LeaveStep(r.value), ts, i, j + 1);
    }
  }

  // --------------------------------------------------------------------- whole tests

  datatype Test = Test(context: State, runs: seq<Path>)

  function Rerun(c: State): State { c.(reachedLeaf := false, stack := [], depth := 0, started := []) }

  const FRESH: State := State(false, [], [], {}, 0, [])

  /** A test case run at most n times: again as long as a next stack is recorded. */
  function TestRuns(ts: seq<Tree>, n: nat): (r: Option<Test>)
    ensures r.Some? ==> |r.value.runs| <= n
  {
    if n == 0 then Some(Test(FRESH, []))
    else
      match TestRuns(ts, n - 1)
      case None => None
      case Some(t) =>
        if t.runs != [] && t.context.next == [] then Some(t)
        else
          match Body(Rerun(t.context), ts, 0)
          case None => None
          case Some(c) => Some(Test(c, t.runs + [c.started]))
  }

  /** As far as the leaves are clear, run k enters leaf k. */
  ghost predicate OnCourse(t: Test, ts: seq<Tree>, k: nat)
    requires k <= |Leaves(ts)|
  {
    && t.runs == Leaves(ts)[..k] && Traversed(t.context.done, [], ts, k)
    && (k < |Leaves(ts)| ==> Aimed(t.context.next, [], ts, k) && (t.context.next == [] ==> k == 0))
    && (k == |Leaves(ts)| ==> t.context.next == [])
  }

  lemma {:induction false} ClearRuns(ts: seq<Tree>, k: nat)
    requires k <= |Leaves(ts)| && ClearUpTo(ts, k)
    ensures TestRuns(ts, k).Some? && OnCourse(TestRuns(ts, k).value, ts, k)
    decreases k
  {
    hide Leaves, FirstLeaves, Directive, Clear, Body, Aimed, Traversed;
    if k > 0 {
      ClearRuns(ts, k - 1);
      var t := TestRuns(ts, k - 1).value;
      RunsLeaf(Rerun(t.context), ts, k - 1);
      NextRun(t, ts, k - 1);
    } else {
      FirstAim(ts);
    }
  }

  lemma FirstAim(ts: seq<Tree>)
    ensures OnCourse(Test(FRESH, []), ts, 0)
  {}

  lemma NextRun(t: Test, ts: seq<Tree>, k: nat)
    requires k < |Leaves(ts)| && OnCourse(t, ts, k)
    ensures var c := Arrived(Rerun(t.context), ts, k);
      c.started == Leaves(ts)[k] && OnCourse(Test(c, t.runs + [c.started]), ts, k + 1)
  {
    hide Leaves, FirstLeaves, Directive;
    TraversedNext(t.context.done, ts, k);
    LeafOfNothing();
    if k + 1 < |Leaves(ts)| { SomeDirective(ts, k + 1); }
    assert [] + Leaves(ts)[k] == Leaves(ts)[k];
  }

  /** Later runs leave the record of earlier ones alone. */
  lemma {:induction false} RunsGrow(ts: seq<Tree>, n: nat, m: nat)
    requires n <= m && TestRuns(ts, m).Some?
    ensures TestRuns(ts, n).Some? && TestRuns(ts, n).value.runs <= TestRuns(ts, m).value.runs
    decreases m
  {
    hide Body;
    if n < m { RunsGrow(ts, n, m - 1); }
  }

  /** Where the first leaf that is not clear comes up, the test goes wrong. */
  lemma UnclearRuns(ts: seq<Tree>, k: nat)
    requires k < |Leaves(ts)| && ClearUpTo(ts, k) && !Clear(ts, k)
    ensures var r := TestRuns(ts, k + 1); r.Some? ==> |r.value.runs| == k + 1 && r.value.runs[k] != Leaves(ts)[k]
  {
    hide Leaves, FirstLeaves, Directive, Clear, Body, Aimed, Traversed, ClearUpTo;
    ClearRuns(ts, k);
    Overfull(Rerun(TestRuns(ts, k).value.context), ts, k);
  }

  lemma {:induction false} FirstUnclear(ts: seq<Tree>, n: nat) returns (k: nat)
    requires n <= |Leaves(ts)| && !ClearUpTo(ts, n)
    ensures k < n && ClearUpTo(ts, k) && !Clear(ts, k)
    decreases n
  {
    hide Leaves, Clear;
    if ClearUpTo(ts, n - 1) { k := n - 1; } else { k := FirstUnclear(ts, n - 1); }
  }

  /** The exact condition: a test case runs once for every leaf of its subcase tree, in preorder and
      within the bounds of its stack, if and only if subcases side by side have different signatures. */
  lemma LeavesExactlyWhenDistinct(ts: seq<Tree>)
    ensures var r := TestRuns(ts, |Leaves(ts)|); Distinct(ts) <==> r.Some? && r.value.runs == Leaves(ts)
  {
    hide Leaves, FirstLeaves, Clear, TestRuns, Distinct, Aimed, Traversed;
    var n := |Leaves(ts)|;
    DistinctIsClear(ts);
    if Distinct(ts) {
      ClearRuns(ts, n);
      assert Leaves(ts)[..n] == Leaves(ts);
    } else {
      var k := FirstUnclear(ts, n);
      UnclearRuns(ts, k);
      if TestRuns(ts, n).Some? { RunsGrow(ts, k + 1, n); }
    }
  }
}
