/**
 What becomes of the messages Max sends: a load is pushed at most once, free-standing text is published
 exactly once and in the order of the pushes, and the output of cells keeps that order.
 */
module ProtocolQueues {
  import opened Protocol
  import opened ProtocolLoads

  // ---------------------------------------------------------------- what Max has done

  /** The messages loaded in the first k steps. */
  ghost function Loaded(worlds: seq<World>, actions: seq<Action>, k: nat): seq<InFlight>
    requires IsRun(worlds, actions) && k < |worlds|
  {
    if k == 0 then []
    else Loaded(worlds, actions, k - 1) + LoadedBy(worlds[k - 1], worlds[k], actions[k - 1])
  }

  /** A load puts one message in flight, behind the others. */
  function LoadedBy(w: World, w': World, a: Action): seq<InFlight> {
    if a.MaxDoes? && (a.action.LoadResult? || a.action.LoadPrint?) && |w'.inFlight| > 0
    then [w'.inFlight[|w'.inFlight| - 1]] else []
  }

  /** The messages pushed in the first k steps. */
  ghost function Pushed(worlds: seq<World>, actions: seq<Action>, k: nat): seq<InFlight>
    requires IsRun(worlds, actions) && k < |worlds|
  {
    if k == 0 then [] else Pushed(worlds, actions, k - 1) + PushedBy(worlds[k - 1], actions[k - 1])
  }

  function PushedBy(w: World, a: Action): seq<InFlight> {
    if a.MaxDoes? && a.action.Push? && a.action.i < |w.inFlight| then [w.inFlight[a.action.i]] else []
  }

  /** The messages of one kind among those in flight. */
  function Of(fs: seq<InFlight>, stamped: bool): seq<ResultMessage> {
    if fs == [] then []
    else
      var f := fs[|fs| - 1];
      Of(fs[..|fs| - 1], stamped) + if f.stamped == stamped then [f.message] else []
  }

  lemma OfAppend(fs: seq<InFlight>, more: seq<InFlight>, stamped: bool)
    requires |more| <= 1
    ensures Of(fs + more, stamped) ==
      Of(fs, stamped) + if more != [] && more[0].stamped == stamped then [more[0].message] else []
  {
    if more == [] { assert fs + more == fs; } else { assert (fs + more)[..|fs|] == fs; }
  }

  // ------------------------------------------------------------- what was published

  /** The messages of Max that were published as free-standing text. */
  function FreeTexts(trace: seq<Event>): seq<ResultMessage> {
    if trace == [] then [] else FreeTexts(trace[..|trace| - 1]) + FreeTextOf(trace[|trace| - 1])
  }

  function FreeTextOf(e: Event): seq<ResultMessage> {
    if (e.Stream? || e.ExecuteResult? || e.ExecuteError?) && e.source.FreeStanding? then [e.source.message] else []
  }

  /** The messages of Max that were published for a cell. */
  function CellTexts(trace: seq<Event>): seq<ResultMessage> {
    if trace == [] then [] else CellTexts(trace[..|trace| - 1]) + CellTextOf(trace[|trace| - 1])
  }

  function CellTextOf(e: Event): seq<ResultMessage> {
    if (e.Stream? || e.ExecuteResult? || e.ExecuteError?) && e.source.FromMax? then [e.source.message] else []
  }

  lemma TextsSnoc(trace: seq<Event>, e: Event)
    ensures FreeTexts(trace + [e]) == FreeTexts(trace) + FreeTextOf(e)
    ensures CellTexts(trace + [e]) == CellTexts(trace) + CellTextOf(e)
  {
    assert (trace + [e])[..|trace|] == trace;
  }

  predicate Silent(e: Event) { FreeTextOf(e) == [] && CellTextOf(e) == [] }

  lemma {:induction false} TextsSame(trace: seq<Event>, more: seq<Event>)
    requires forall i :: 0 <= i < |more| ==> Silent(more[i])
    ensures FreeTexts(trace + more) == FreeTexts(trace) && CellTexts(trace + more) == CellTexts(trace)
    decreases |more|
  {
    hide FreeTexts, CellTexts, FreeTextOf, CellTextOf;
    if more == [] {
      assert trace + more == trace;
    } else {
      var k := |more| - 1;
      TextsSame(trace, more[..k]);
      TextsSnoc(trace + more[..k], more[k]);
      assert trace + more == trace + more[..k] + [more[k]];
    }
  }

  /** The first list is the second with some elements left out. */
  predicate Within<T(==)>(a: seq<T>, b: seq<T>)
    decreases |b|
  {
    a == [] || (b != [] && var (x, y) := (a[|a| - 1], b[|b| - 1]);
      Within(a, b[..|b| - 1]) || (x == y && Within(a[..|a| - 1], b[..|b| - 1])))
  }

  lemma WithinSnoc<T>(a: seq<T>, b: seq<T>, x: T)
    requires Within(a, b)
    ensures Within(a, b + [x]) && Within(a + [x], b + [x])
  {
    assert (b + [x])[..|b|] == b && (a + [x])[..|a|] == a;
  }

  lemma {:induction false} WithinMore<T>(a: seq<T>, b: seq<T>, c: seq<T>)
    requires Within(a, b)
    ensures Within(a, b + c)
    decreases |c|
  {
    if c == [] {
      assert b + c == b;
    } else {
      var k := |c| - 1;
      WithinMore(a, b, c[..k]);
      WithinSnoc(a, b + c[..k], c[k]);
      assert b + c == b + c[..k] + [c[k]];
    }
  }

  // --------------------------------------------------------------- the invariants

  /** Unstamped messages are published or queued, once each and in the order they were pushed. */
  predicate FreeKept(w: World, pushed: seq<ResultMessage>) {
    FreeTexts(w.history.trace) + w.impl.asyncQueue == pushed
  }

  /** Stamped messages are at the end of those pushed while they are queued; of those before them, some
      were published, in that order. */
  ghost predicate ResultsKept(w: World, pushed: seq<ResultMessage>) {
    && |w.impl.resultQueue| <= |pushed|
    && var gone := |pushed| - |w.impl.resultQueue|;
       pushed[gone..] == w.impl.resultQueue && Within(CellTexts(w.history.trace), pushed[..gone])
  }

  /** What an action does to the queues and to the list of what was published. */
  ghost predicate Moves(w: World, w': World, free: seq<ResultMessage>, stamped: seq<ResultMessage>) {
    && FreeTexts(w'.history.trace) + w'.impl.asyncQueue == FreeTexts(w.history.trace) + w.impl.asyncQueue + free
    && (|| (w'.impl.resultQueue == w.impl.resultQueue + stamped
            && CellTexts(w'.history.trace) == CellTexts(w.history.trace))
        || (stamped == [] && w'.impl.resultQueue == [] && CellTexts(w'.history.trace) == CellTexts(w.history.trace))
        || (stamped == [] && w.impl.resultQueue != [] && w'.impl.resultQueue == w.impl.resultQueue[1..]
            && (|| CellTexts(w'.history.trace) == CellTexts(w.history.trace)
                || CellTexts(w'.history.trace) == CellTexts(w.history.trace) + [w.impl.resultQueue[0]])))
  }

  lemma MovesQuietly(w: World, w': World, more: seq<Event>)
    requires w'.history.trace == w.history.trace + more && forall i :: 0 <= i < |more| ==> Silent(more[i])
    requires w'.impl.asyncQueue == w.impl.asyncQueue
    requires w'.impl.resultQueue == w.impl.resultQueue || w'.impl.resultQueue == []
    ensures Moves(w, w', [], [])
  {
    TextsSame(w.history.trace, more);
    hide FreeTexts, CellTexts;
    assert w.impl.resultQueue + [] == w.impl.resultQueue;
    assert FreeTexts(w.history.trace) + w.impl.asyncQueue + [] == FreeTexts(w.history.trace) + w.impl.asyncQueue;
  }

  lemma FlushMoves(w: World)
    ensures Moves(w, FlushOne(w), [], [])
  {
    var w', trace, q := FlushOne(w), w.history.trace, w.impl.asyncQueue;
    assert w.impl.resultQueue + [] == w.impl.resultQueue;
    if q == [] {
      assert trace + [] == trace;
      MovesQuietly(w, w', []);
    } else {
      var e := w'.history.trace[|trace|];
      assert e.Stream? && e.source == FreeStanding(FrontId(w.interp), q[0]);
      assert w'.history.trace == trace + [e] && w'.impl.asyncQueue == q[1..];
      TextsSnoc(trace, e);
      assert w'.impl.resultQueue == w.impl.resultQueue;
      hide FreeTexts, CellTexts, AsLine, FlushOne;
      Shift(FreeTexts(trace), q);
    }
  }

  lemma Shift<T>(a: seq<T>, q: seq<T>)
    requires q != []
    ensures a + [q[0]] + q[1..] == a + q + []
  {}

  lemma ConsumeMoves(w: World)
    requires w.interp.pending != []
    ensures Moves(w, Consume(w), [], [])
  {
    var w', trace, q := Consume(w), w.history.trace, w.impl.resultQueue;
    if q == [] || q[0].counter != w.interp.pending[0].counter {
      assert trace + [] == trace;
      TextsSame(trace, []);
    } else {
      var e := w'.history.trace[|trace|];
      assert w'.history.trace == trace + [e];
      TextsSnoc(trace, e);
    }
    hide FreeTexts, CellTexts, AsLine;
    assert w.impl.resultQueue + [] == w.impl.resultQueue;
    assert FreeTexts(trace) + w.impl.asyncQueue + [] == FreeTexts(trace) + w.impl.asyncQueue;
  }

  lemma OtherStepsAreQuiet(w: World) returns (more: seq<Event>)
    requires ServerReady(w) && w.pc != FlushAsync && w.pc != PopResult
    ensures var w' := ServerStep(w);
      && w'.history.trace == w.history.trace + more && (forall i :: 0 <= i < |more| ==> Silent(more[i]))
      && w'.impl.asyncQueue == w.impl.asyncQueue
      && (w'.impl.resultQueue == w.impl.resultQueue || w'.impl.resultQueue == [])
  {
    hide TimeoutReply, AsLine, CodeMessage, GetContext, AfterStart, Activate;
    more := ServerStep(w).history.trace[|w.history.trace|..];
  }

  lemma ServerMoves(w: World)
    requires ServerReady(w)
    ensures Moves(w, ServerStep(w), [], [])
  {
    FlushStep(w);
    if w.pc == FlushAsync {
      hide ServerStep;
      FlushMoves(w);
    } else if w.pc == PopResult {
      hide ServerStep;
      ConsumeMoves(w);
    } else {
      var more := OtherStepsAreQuiet(w);
      hide ServerStep;
      MovesQuietly(w, ServerStep(w), more);
    }
  }

  lemma PushMoves(w: World, i: nat)
    requires i < |w.inFlight|
    ensures var f := w.inFlight[i];
      Moves(w, MaxStep(w, Push(i)), if f.stamped then [] else [f.message], if f.stamped then [f.message] else [])
  {
    var f := w.inFlight[i];
    hide FreeTexts, CellTexts;
    var free := FreeTexts(w.history.trace);
    assert free + w.impl.asyncQueue + [] == free + w.impl.asyncQueue;
    assert w.impl.resultQueue + [] == w.impl.resultQueue;
    assert free + (w.impl.asyncQueue + [f.message]) == free + w.impl.asyncQueue + [f.message];
  }

  lemma MaxMoves(w: World, a: MaxAction)
    requires MaxEnabled(w, a) && !a.Push?
    ensures Moves(w, MaxStep(w, a), [], [])
  {
    var w' := MaxStep(w, a);
    var more := w'.history.trace[|w.history.trace|..];
    assert w'.history.trace == w.history.trace + more;
    hide LoadForResult, LoadForPrint;
    MovesQuietly(w, w', more);
  }

  lemma ActionMoves(w: World, a: Action)
    requires Enabled(w, a)
    ensures Moves(w, Next(w, a), Of(PushedBy(w, a), false), Of(PushedBy(w, a), true))
  {
    hide Moves, ServerStep, MaxStep;
    if a.Server? {
      ServerMoves(w);
    } else if a.MaxDoes? && a.action.Push? {
      OfOne(w.inFlight[a.action.i], true);
      OfOne(w.inFlight[a.action.i], false);
      PushMoves(w, a.action.i);
    } else if a.MaxDoes? {
      MaxMoves(w, a.action);
    } else {
      HandlerMoves(w, a);
    }
  }

  lemma OfOne(f: InFlight, stamped: bool)
    ensures Of([f], stamped) == if f.stamped == stamped then [f.message] else []
  {
    OfAppend([], [f], stamped);
    assert [] + [f] == [f] && [] + [f.message] == [f.message];
  }

  lemma HandlerMoves(w: World, a: Action)
    requires Enabled(w, a) && !a.Server? && !a.MaxDoes?
    ensures Moves(w, Next(w, a), [], [])
  {
    hide Moves;
    var w' := Next(w, a);
    var more := w'.history.trace[|w.history.trace|..];
    assert w'.history.trace == w.history.trace + more;
    MovesQuietly(w, w', more);
  }

  lemma ResultsOn(w: World, w': World, pushed: seq<ResultMessage>, free: seq<ResultMessage>,
    stamped: seq<ResultMessage>)
    requires Moves(w, w', free, stamped) && ResultsKept(w, pushed)
    ensures ResultsKept(w', pushed + stamped)
  {
    hide FreeTexts, CellTexts, Within;
    var q, gone := w.impl.resultQueue, |pushed| - |w.impl.resultQueue|;
    var front, said := pushed[..gone], CellTexts(w.history.trace);
    if w'.impl.resultQueue == q + stamped && CellTexts(w'.history.trace) == said {
      assert (pushed + stamped)[gone..] == pushed[gone..] + stamped && (pushed + stamped)[..gone] == front;
    } else if w'.impl.resultQueue == [] && CellTexts(w'.history.trace) == said {
      WithinMore(said, front, pushed[gone..]);
      assert front + pushed[gone..] == pushed == pushed + stamped;
      assert pushed[..|pushed|] == pushed && pushed[|pushed|..] == [];
    } else {
      WithinSnoc(said, front, q[0]);
      assert pushed[gone] == q[0] && pushed[..gone + 1] == front + [q[0]];
      assert pushed[gone + 1..] == q[1..] && pushed + stamped == pushed;
    }
  }

  /** Over every run: what Max pushed while no cell was current is published exactly once and in that order,
      or still queued; what it pushed for cells is published at most once, in that order, or still queued. */
  lemma {:induction false} NothingIsLostOrReordered(worlds: seq<World>, actions: seq<Action>, k: nat)
    requires IsRun(worlds, actions) && k < |worlds|
    ensures FreeKept(worlds[k], Of(Pushed(worlds, actions, k), false))
    ensures ResultsKept(worlds[k], Of(Pushed(worlds, actions, k), true))
    decreases k
  {
    hide Next, Enabled, FreeTexts, CellTexts, Of, Within, PushedBy;
    if k == 0 {
      QueuesBegin(worlds[0]);
    } else {
      var w, a := worlds[k - 1], actions[k - 1];
      NothingIsLostOrReordered(worlds, actions, k - 1);
      RunStep(worlds, actions, k - 1);
      ActionMoves(w, a);
      var before, now := Pushed(worlds, actions, k - 1), PushedBy(w, a);
      OneAtATime(w, a);
      OfSplit(before, now, false);
      OfSplit(before, now, true);
      ResultsOn(w, worlds[k], Of(before, true), Of(now, false), Of(now, true));
    }
  }

  lemma OneAtATime(w: World, a: Action)
    ensures |PushedBy(w, a)| <= 1
  {}

  lemma OfSplit(fs: seq<InFlight>, more: seq<InFlight>, stamped: bool)
    requires |more| <= 1
    ensures Of(fs + more, stamped) == Of(fs, stamped) + Of(more, stamped)
  {
    OfAppend(fs, more, stamped);
    OfAppend([], more, stamped);
    assert [] + more == more;
  }

  lemma QueuesBegin(w: World)
    requires Init(w)
    ensures FreeKept(w, Of([], false)) && ResultsKept(w, Of([], true))
  {}

  // ------------------------------------------------------------------ in flight

  lemma FlightsMove(w: World, a: Action)
    requires Enabled(w, a)
    ensures var w' := Next(w, a);
      multiset(w'.inFlight) + multiset(PushedBy(w, a)) == multiset(w.inFlight) + multiset(LoadedBy(w, w', a))
  {
    if a.Server? {
      FlightsStay(w);
      hide ServerStep;
    } else if a.MaxDoes? && a.action.Push? {
      FlightLeaves(w, a.action.i);
      hide MaxStep;
    } else if a.MaxDoes? && (a.action.LoadResult? || a.action.LoadPrint?) {
      LoadsItself(w, a.action);
      var n := |w.inFlight|;
      hide MaxStep;
      assert MaxStep(w, a.action).inFlight == w.inFlight + [MaxStep(w, a.action).inFlight[n]];
    }
  }

  lemma FlightLeaves(w: World, i: nat)
    requires i < |w.inFlight|
    ensures multiset(MaxStep(w, Push(i)).inFlight) + multiset([w.inFlight[i]]) == multiset(w.inFlight)
  {
    assert w.inFlight == w.inFlight[..i] + [w.inFlight[i]] + w.inFlight[i + 1..];
  }

  lemma FlightsStay(w: World)
    requires ServerReady(w)
    ensures ServerStep(w).inFlight == w.inFlight
  {
    hide TimeoutReply, AsLine, CodeMessage, GetContext, AfterStart, Activate;
  }

  /** Over every run: each message loaded is in flight or was pushed, exactly once. */
  lemma {:induction false} LoadsArePushedOnce(worlds: seq<World>, actions: seq<Action>, k: nat)
    requires IsRun(worlds, actions) && k < |worlds|
    ensures multiset(worlds[k].inFlight) + multiset(Pushed(worlds, actions, k)) == multiset(Loaded(worlds, actions, k))
    decreases k
  {
    hide Next, Enabled, PushedBy, LoadedBy;
    if k > 0 {
      LoadsArePushedOnce(worlds, actions, k - 1);
      RunStep(worlds, actions, k - 1);
      var w, a := worlds[k - 1], actions[k - 1];
      FlightsMove(w, a);
      Balance(multiset(w.inFlight), multiset(worlds[k].inFlight), multiset(Pushed(worlds, actions, k - 1)),
              multiset(PushedBy(w, a)), multiset(Loaded(worlds, actions, k - 1)), multiset(LoadedBy(w, worlds[k], a)));
    }
  }

  lemma Balance(flying: multiset<InFlight>, flying': multiset<InFlight>, pushed: multiset<InFlight>,
    more: multiset<InFlight>, loaded: multiset<InFlight>, new': multiset<InFlight>)
    requires flying + pushed == loaded && flying' + more == flying + new'
    ensures flying' + (pushed + more) == loaded + new'
  {
    assert flying' + (pushed + more) == (flying' + more) + pushed;
    assert (flying + new') + pushed == (flying + pushed) + new';
  }
}
