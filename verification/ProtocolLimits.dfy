/**
 Where the protocol's promises end, as families of runs: a silent cell reuses the counter of the
 cell before it, so a late message of that cell can be taken for its own; free-standing output is
 attributed to the last dispatched request even after its idle status; and a client's shutdown request
 leaves a waiting cell without an answer.
 */
module ProtocolLimits {
  import opened Protocol
  import opened ProtocolInvariant
  import opened ProtocolOwners
  import opened ProtocolShutdown
  import opened ProtocolTheorems

  ghost predicate Reachable(w: World) {
    exists worlds: seq<World>, actions: seq<Action> :: IsRun(worlds, actions) && worlds[|worlds| - 1] == w
  }

  lemma ReachNext(w: World, a: Action)
    requires Reachable(w) && Enabled(w, a)
    ensures Reachable(Next(w, a))
  {
    var worlds: seq<World>, actions: seq<Action> :| IsRun(worlds, actions) && worlds[|worlds| - 1] == w;
    var worlds', actions' := worlds + [Next(w, a)], actions + [a];
    hide Next, Enabled, Init;
    forall i | 0 <= i < |actions'|
      ensures Enabled(worlds'[i], actions'[i]) && worlds'[i + 1] == Next(worlds'[i], actions'[i])
    {
      if i < |actions| { RunStep(worlds, actions, i); }
    }
    assert IsRun(worlds', actions');
  }

  lemma ReachServer(w: World)
    requires Reachable(w) && ServerReady(w)
    ensures Reachable(ServerStep(w))
  {
    hide Reachable, ServerStep;
    ReachNext(w, Server);
  }

  lemma ReachableIsSafe(w: World)
    requires Reachable(w)
    ensures Safe(w)
  {
    var worlds: seq<World>, actions: seq<Action> :| IsRun(worlds, actions) && worlds[|worlds| - 1] == w;
    hide Safe, Next, Enabled, Init;
    RunIsSafe(worlds, actions, |worlds| - 1);
  }

  /** Idle, nothing pending, not stopping, and cells are given time to answer. */
  predicate Quiet(w: World) {
    && w.pc == Idle && w.loop == Loop(false, Testing) && w.interp.pending == []
    && w.impl.alive && !w.impl.shutdownRequested && w.impl.timeout > 0
  }

  /** A cell on its own, just started: Max has not answered it yet. */
  predicate Alone(w: World, p: Pending) {
    && w.pc == LoadAlive && w.loop == Loop(false, Testing)
    && w.interp.pending == [p] && p.started && p.timeout > 0 && p.timeout == w.impl.timeout
    && w.impl.alive && !w.impl.shutdownRequested && w.impl.resultQueue == []
    && w.impl.currentExecution == p.counter && w.history.holder == p.id && w.impl.pendingExecutions == 1
    && w.clock < p.deadline
  }

  lemma Queueing(w: World, code: string, silent: bool) returns (w': World)
    requires Reachable(w) && Quiet(w)
    ensures Reachable(w') && w'.pc == ClearResults && w'.loop == w.loop && |w'.interp.pending| == 1
    ensures var p := w'.interp.pending[0];
      && p.id == |w.history.requests| && p.counter == w.interp.executionCount + (if silent then 0 else 1)
      && w'.interp.executionCount == p.counter && p.timeout == w.impl.timeout && !p.started
      && w'.history.requests == w.history.requests + [Req(code, silent, p.counter)]
      && w'.inFlight == w.inFlight && w'.impl == w.impl.(pendingExecutions := 1)
  {
    hide Reachable;
    ReachNext(w, TestStop);
    w' := LoopOn(w);
    ReachNext(w', Execute(code, silent));
    w' := DispatchExecute(w', code, silent);
    assert w'.pc == LoadTimeout && w'.interp.pending == [] && w'.impl == w.impl && w'.inFlight == w.inFlight;
    ReachServer(w');
    w' := QueueCell(w');
    ReachServer(w');
    w' := Goto(StoreCount(w'), PumpTop);
    ReachServer(w');
    w' := EnterPump(w');
  }

  lemma Starting(w: World) returns (w': World)
    requires Reachable(w) && w.pc == ClearResults && |w.interp.pending| == 1 && w.interp.pending[0].timeout > 0
    ensures Reachable(w') && w'.pc == LoadAlive && w'.impl.currentExecution == w.interp.pending[0].counter
    ensures |w'.interp.pending| == 1
    ensures w'.loop == w.loop && w'.impl.pendingExecutions == w.impl.pendingExecutions
    ensures w'.clock < w'.interp.pending[0].deadline
    ensures w'.history.holder == w.interp.pending[0].id && w'.impl.resultQueue == []
    ensures w'.impl.alive == w.impl.alive && w'.impl.shutdownRequested == w.impl.shutdownRequested
    ensures w'.impl.timeout == w.impl.timeout && w'.inFlight == w.inFlight
    ensures w'.history.requests == w.history.requests && w'.interp.executionCount == w.interp.executionCount
    ensures w'.interp.pending[0] == w.interp.pending[0].(started := true, deadline := w'.interp.pending[0].deadline)
  {
    hide Reachable, CodeMessage;
    ReachServer(w);
    w' := ClearQueue(w);
    ReachServer(w');
    w' := TakeCurrent(w');
    ReachServer(w');
    w' := SendCode(w');
    ReachServer(w');
    w' := StartClock(w');
  }

  lemma RunAlone(w: World, code: string, silent: bool) returns (w': World, p: Pending)
    requires Reachable(w) && Quiet(w)
    ensures Reachable(w') && Alone(w', p) && w'.inFlight == w.inFlight
    ensures p.id == |w.history.requests| && p.counter == w.interp.executionCount + (if silent then 0 else 1)
    ensures w'.interp.executionCount == p.counter
    ensures w'.history.requests == w.history.requests + [Req(code, silent, p.counter)]
  {
    hide Reachable;
    w' := Queueing(w, code, silent);
    w' := Starting(w');
    p := w'.interp.pending[0];
    assert w'.interp.pending == [p];
  }

  /** From a started cell with an empty result queue to the deadline test, and past the deadline. */
  lemma Overdue(w: World, p: Pending) returns (w': World)
    requires Reachable(w) && Alone(w, p)
    ensures Reachable(w') && w'.pc == CheckDeadline && w'.interp == w.interp && w'.impl == w.impl
    ensures w'.inFlight == w.inFlight && w'.history.requests == w.history.requests && w'.clock >= p.deadline
    ensures w'.loop == w.loop
  {
    hide Reachable;
    ReachServer(w);
    w' := Goto(w, LoadShutdown);
    ReachServer(w');
    w' := Goto(w', PopResult);
    ReachServer(w');
    w' := Goto(w', CheckDeadline);
    var dt := if p.deadline > w'.clock then p.deadline - w'.clock else 0;
    ReachNext(w', Advance(dt));
    w' := w'.(clock := w'.clock + dt);
  }

  lemma GiveUp(w: World, p: Pending) returns (w': World)
    requires Reachable(w) && w.pc == CheckDeadline && w.interp.pending == [p] && w.clock >= p.deadline
    ensures Reachable(w') && w'.pc == Idle && w'.loop == w.loop && w'.interp.pending == []
    ensures w'.inFlight == w.inFlight
    ensures w'.impl.alive == w.impl.alive && w'.impl.shutdownRequested == w.impl.shutdownRequested
    ensures w'.impl.timeout == w.impl.timeout
    ensures w'.history.requests == w.history.requests && w'.interp.executionCount == w.interp.executionCount
  {
    hide Reachable;
    ReachServer(w);
    w' := Fail(w, TimeoutReply(p));
    hide TimeoutReply;
    assert w'.pc.DropCurrent? && w'.interp == w.interp && w'.impl == w.impl;
    var reply := w'.pc.reply;
    ReachServer(w');
    w' := DropFront(w', reply);
    ReachServer(w');
    w' := Goto(StoreCount(w'), SendReply(p, reply));
    ReachServer(w');
    w' := AnswerCell(w', p, reply);
    ReachServer(w');
    w' := Goto(w', Idle);
  }

  lemma PushToAlone(w: World, p: Pending) returns (w': World)
    requires Reachable(w) && Alone(w, p) && w.inFlight != [] && w.inFlight[|w.inFlight| - 1].stamped
    requires w.inFlight[|w.inFlight| - 1].message.counter == p.counter
    ensures Reachable(w') && w'.history.trace != []
    ensures var e := w'.history.trace[|w'.history.trace| - 1];
      e == Output(w.interp, p, w.inFlight[|w.inFlight| - 1].message) && w'.history.requests == w.history.requests
  {
    hide Reachable, Output;
    ReachNext(w, MaxDoes(Push(|w.inFlight| - 1)));
    w' := MaxStep(w, Push(|w.inFlight| - 1));
    ReachServer(w');
    w' := Goto(w', LoadShutdown);
    ReachServer(w');
    w' := Goto(w', PopResult);
    ReachServer(w');
    w' := Consume(w');
  }

  lemma {:induction false} CounterIsNatural(rs: seq<Request>, k: nat)
    requires CountersOk(rs) && k <= |rs|
    ensures CounterBefore(rs, k) >= 0
  {
    if k > 0 {
      CounterIsNatural(rs, k - 1);
      assert rs[k - 1].counter == CounterBefore(rs, k - 1) + if rs[k - 1].silent then 0 else 1;
    }
  }

  lemma CountIsNatural(w: World)
    requires Reachable(w)
    ensures w.interp.executionCount >= 0
  {
    ReachableIsSafe(w);
    SafeIsInv(w);
    CounterIsNatural(w.history.requests, |w.history.requests|);
    hide Reachable, Safe, QueueOk, StartedOk, CurrentOk, ActiveOk, CountersOk, PendingCountOk;
  }

  /** A cell that runs alone until its time is up, without an answer from Max. */
  lemma RunOne(w: World, code: string, silent: bool) returns (w': World)
    requires Reachable(w) && Quiet(w)
    ensures Reachable(w') && Quiet(w') && w'.inFlight == w.inFlight
    ensures w'.interp.executionCount == w.interp.executionCount + (if silent then 0 else 1)
    ensures w'.history.requests == w.history.requests + [Req(code, silent, w'.interp.executionCount)]
  {
    hide Reachable;
    var p;
    w', p := RunAlone(w, code, silent);
    w' := Overdue(w', p);
    w' := GiveUp(w', p);
  }

  // --------------------------------------------------------- when it can happen

  /** A request as the client sends it. */
  datatype Asked = Asked(code: string, silent: bool)

  function AskedOf(rs: seq<Request>): seq<Asked> {
    seq(|rs|, i requires 0 <= i < |rs| => Asked(rs[i].code, rs[i].silent))
  }

  predicate AllSilent(asks: seq<Asked>) { forall i :: 0 <= i < |asks| ==> asks[i].silent }

  lemma {:induction false} RunMany(w: World, asks: seq<Asked>) returns (w': World)
    requires Reachable(w) && Quiet(w)
    ensures Reachable(w') && Quiet(w') && w'.inFlight == w.inFlight
    ensures AskedOf(w'.history.requests) == AskedOf(w.history.requests) + asks
    ensures AllSilent(asks) ==> w'.interp.executionCount == w.interp.executionCount
    decreases |asks|
  {
    hide Reachable, Quiet;
    w' := w;
    if asks != [] {
      w' := RunOne(w, asks[0].code, asks[0].silent);
      assert AskedOf(w'.history.requests) == AskedOf(w.history.requests) + [asks[0]];
      w' := RunMany(w', asks[1..]);
      assert AskedOf(w.history.requests) + [asks[0]] + asks[1..] == AskedOf(w.history.requests) + asks;
    }
  }

  /** Cell `c` has shown a message of Max that was loaded for another. */
  ghost predicate Misattributed(w: World, c: nat) {
    exists i :: 0 <= i < |w.history.trace| && IsMisattributed(w.history.trace[i], c)
  }

  predicate IsMisattributed(e: Event, c: nat) {
    && (e.Stream? || e.ExecuteResult? || e.ExecuteError?) && e.source.FromMax?
    && e.source.cell == c && e.source.message.loadedFor != c
  }

  /** Cell `a` is started, Max loads its stamp for the text, and `a` times out before the push. */
  lemma LoadThenTimeOut(w: World, a: string, text: string) returns (w': World)
    requires Reachable(w) && Quiet(w)
    ensures Reachable(w') && Quiet(w') && w'.interp.executionCount == w.interp.executionCount + 1
    ensures AskedOf(w'.history.requests) == AskedOf(w.history.requests) + [Asked(a, false)]
    ensures w'.inFlight != []
    ensures var f := w'.inFlight[|w'.inFlight| - 1];
      && f.stamped && f.message.counter == w'.interp.executionCount && f.message.text == text
      && f.message.loadedFor == |w.history.requests| && f.message.streamName == "stdout" && f.message.errorName == ""
  {
    hide Reachable;
    CountIsNatural(w);
    var p;
    w', p := RunAlone(w, a, false);
    ReachNext(w', MaxDoes(LoadPrint("stdout", text)));
    w' := MaxStep(w', LoadPrint("stdout", text));
    assert Alone(w', p);
    hide LoadForPrint, MaxStep;
    w' := Overdue(w', p);
    w' := GiveUp(w', p);
  }

  /** Then a silent cell that gets the same counter streams the text. */
  lemma SilentTakesOver(w: World, b: string) returns (w': World)
    requires Reachable(w) && Quiet(w) && w.inFlight != []
    requires var f := w.inFlight[|w.inFlight| - 1];
      && f.stamped && f.message.counter == w.interp.executionCount && f.message.loadedFor < |w.history.requests|
      && f.message.streamName == "stdout" && f.message.errorName == ""
    ensures Reachable(w') && Misattributed(w', |w.history.requests|)
    ensures AskedOf(w'.history.requests) == AskedOf(w.history.requests) + [Asked(b, true)]
    ensures w'.history.trace != []
    ensures var e := w'.history.trace[|w'.history.trace| - 1];
      e.Stream? && IsMisattributed(e, |w.history.requests|) && e.source.message == w.inFlight[|w.inFlight| - 1].message
  {
    hide Reachable;
    var q;
    w', q := RunAlone(w, b, true);
    w' := PushToAlone(w', q);
    assert IsMisattributed(w'.history.trace[|w'.history.trace| - 1], |w.history.requests|);
  }

  /** From every quiet state: a cell's late message can be streamed by a silent cell after it. */
  lemma SilentCellsCanBeMisattributed(w: World, a: string, b: string, text: string) returns (w': World)
    requires Reachable(w) && Quiet(w)
    ensures Reachable(w') && w'.history.trace != []
    ensures AskedOf(w'.history.requests) == AskedOf(w.history.requests) + [Asked(a, false), Asked(b, true)]
    ensures var e, n := w'.history.trace[|w'.history.trace| - 1], |w.history.requests|;
      e.Stream? && IsMisattributed(e, n + 1) && e.source.message.loadedFor == n && e.source.message.text == text
  {
    hide Reachable;
    w' := LoadThenTimeOut(w, a, text);
    assert |AskedOf(w'.history.requests)| == |w.history.requests| + 1;
    w' := SilentTakesOver(w', b);
  }

  function FreshKernel(): World {
    World(Impl([], [], [], true, false, 0, 0, 30), Interp([], NoRequest, NoRequest, false, 0), Idle, [], 0,
          History([], 0, [], [], [], -1, false, false, 0), Timing([], [], [], []), Loop(false, Testing))
  }

  lemma FreshIsQuiet()
    ensures Reachable(FreshKernel()) && Quiet(FreshKernel()) && AskedOf(FreshKernel().history.requests) == []
  {
    assert IsRun([FreshKernel()], []);
  }

  lemma SilentCons(asks: seq<Asked>)
    ensures asks != [] && asks[0].silent && AllSilent(asks[1..]) ==> AllSilent(asks)
  {
    assert forall i :: 0 < i < |asks| ==> asks[i] == asks[1..][i - 1];
  }

  lemma LastLoud(asks: seq<Asked>) returns (j: nat)
    requires !AllSilent(asks)
    ensures j < |asks| && !asks[j].silent && AllSilent(asks[j + 1..])
  {
    j := |asks| - 1;
    while asks[j].silent
      invariant j < |asks| && AllSilent(asks[j + 1..])
      decreases j
    {
      SilentCons(asks);
      assert asks[j..] == [asks[j]] + asks[j + 1..];
      j := j - 1;
    }
  }

  lemma MisattributionHappens(earlier: seq<Asked>, last: Asked) returns (w: World)
    requires last.silent && !AllSilent(earlier)
    ensures Reachable(w) && AskedOf(w.history.requests) == earlier + [last] && Misattributed(w, |earlier|)
  {
    hide Reachable, Misattributed, Quiet;
    var j := LastLoud(earlier);
    FreshIsQuiet();
    w := RunMany(FreshKernel(), earlier[..j]);
    assert |AskedOf(w.history.requests)| == j;
    w := LoadThenTimeOut(w, earlier[j].code, "");
    w := RunMany(w, earlier[j + 1..]);
    assert earlier[..j] + [Asked(earlier[j].code, false)] + earlier[j + 1..] == earlier;
    assert |AskedOf(w.history.requests)| == |earlier|;
    w := SilentTakesOver(w, last.code);
    assert Asked(last.code, true) == last;
  }

  /** What the misattributed cell must have been. */
  lemma MisattributedIsSilent(w: World, c: nat)
    requires Reachable(w) && Misattributed(w, c)
    ensures c < |w.history.requests| && w.history.requests[c].silent
    ensures exists j :: 0 <= j < c && !w.history.requests[j].silent
  {
    hide Next, Enabled, Init, Inv;
    var worlds: seq<World>, actions: seq<Action> :| IsRun(worlds, actions) && worlds[|worlds| - 1] == w;
    var i :| 0 <= i < |w.history.trace| && IsMisattributed(w.history.trace[i], c);
    var loadedFor := EarlierOwner(worlds, actions, i);
    ReachableIsSafe(w);
    SafeIsInv(w);
    InvCounters(w);
    hide Reachable, Misattributed, Safe;
    SharedCounterIsSilent(w.history.requests, loadedFor, c);
  }

  lemma EarlierOwner(worlds: seq<World>, actions: seq<Action>, i: nat) returns (loadedFor: nat)
    requires IsRun(worlds, actions) && worlds != [] && i < |worlds[|worlds| - 1].history.trace|
    requires var e := worlds[|worlds| - 1].history.trace[i];
      (e.Stream? || e.ExecuteResult? || e.ExecuteError?) && e.source.FromMax?
    ensures var e, rs := worlds[|worlds| - 1].history.trace[i], worlds[|worlds| - 1].history.requests;
      && loadedFor == e.source.message.loadedFor && loadedFor <= e.source.cell < |rs|
      && rs[loadedFor].counter == rs[e.source.cell].counter && rs[e.source.cell].counter > 0
  {
    hide Next, Enabled, Init, LoadedWhileCurrent;
    var t := OutputWasLoadedForItsCounter(worlds, actions, |worlds| - 1, i);
    loadedFor := worlds[|worlds| - 1].history.trace[i].source.message.loadedFor;
  }

  lemma SharedCounterIsSilent(rs: seq<Request>, i: nat, c: nat)
    requires CountersOk(rs) && i < c < |rs| && rs[i].counter == rs[c].counter && rs[c].counter > 0
    ensures rs[c].silent && exists j :: 0 <= j < c && !rs[j].silent
  {
    hide CountersOk;
    if !rs[c].silent { LoudIsNew(rs, i, c); }
    PositiveFromFirstLoud(rs, c);
  }

  /** The exact condition, which a client can check before it sends a request: the new cell can be given
      output that Max produced for another if and only if it is silent and some earlier request was not. */
  lemma MisattributionExactly(earlier: seq<Asked>, last: Asked)
    ensures (exists w :: Reachable(w) && AskedOf(w.history.requests) == earlier + [last] && Misattributed(w, |earlier|))
      <==> last.silent && exists j :: 0 <= j < |earlier| && !earlier[j].silent
  {
    hide Reachable, Misattributed;
    if last.silent && exists j :: 0 <= j < |earlier| && !earlier[j].silent {
      var w := MisattributionHappens(earlier, last);
    }
    forall w | Reachable(w) && AskedOf(w.history.requests) == earlier + [last] && Misattributed(w, |earlier|)
      ensures last.silent && exists j :: 0 <= j < |earlier| && !earlier[j].silent
    {
      MisattributedIsSilent(w, |earlier|);
      var rs := w.history.requests;
      assert AskedOf(rs)[|earlier|] == last;
      var j :| 0 <= j < |earlier| && !rs[j].silent;
      assert AskedOf(rs)[j] == earlier[j];
    }
  }

  // ------------------------------------------------------------- client shutdown

  /** From every quiet state: a cell is started and left waiting, and a client shuts the kernel down. The
      loop ends with the cell pending and its count stored, and the next start begins with that count. */
  lemma ShutdownLeavesCellWaiting(w: World, code: string, silent: bool, seconds: int) returns (w': World)
    requires Reachable(w) && Quiet(w)
    ensures Reachable(w') && w'.loop.turn == Ended && |w'.interp.pending| == 1
    ensures w'.interp.pending[0].id == |w.history.requests| && w'.impl.shutdownRequested
    ensures var next := NextStart(w', seconds);
      Reachable(next) && next.impl.pendingExecutions == 1 && next.interp.pending == []
  {
    hide Reachable, NextStart;
    var p;
    w', p := RunAlone(w, code, silent);
    w' := LeftWaiting(w', p);
    w' := ShutDown(w');
    NextStartBegins(w', seconds);
    InitReachable(NextStart(w', seconds));
  }

  lemma InitReachable(w: World)
    requires Init(w)
    ensures Reachable(w) && w.interp.pending == []
  {
    assert IsRun([w], []);
  }

  lemma LeftWaiting(w: World, p: Pending) returns (w': World)
    requires Reachable(w) && Alone(w, p)
    ensures Reachable(w') && w'.pc == Idle && w'.loop == w.loop && w'.impl == w.impl && w'.interp.pending == [p]
  {
    hide Reachable;
    ReachServer(w);
    w' := Goto(w, LoadShutdown);
    ReachServer(w');
    w' := Goto(w', PopResult);
    ReachServer(w');
    w' := Goto(w', CheckDeadline);
    ReachServer(w');
    w' := TestDeadline(w');
  }

  lemma ShutDown(w: World) returns (w': World)
    requires Reachable(w) && w.pc == Idle && w.loop == Loop(false, Testing) && !w.impl.shutdownRequested
    ensures Reachable(w') && w'.loop.turn == Ended && w'.interp.pending == w.interp.pending
    ensures w'.impl.pendingExecutions == w.impl.pendingExecutions && w'.impl.shutdownRequested
  {
    hide Reachable;
    ReachNext(w, TestStop);
    w' := LoopOn(w);
    ReachNext(w', ClientShutdown);
    w' := BeginShutdown(w');
    ReachServer(w');
    w' := TakeFlag(w');
    ReachServer(w');
    w' := Goto(AnnounceShutdown(w'), ReplyShutdown);
    ReachServer(w');
    w' := EndShutdown(w');
    ReachNext(w', TestStop);
    w' := LoopOn(w');
  }

  /** The loop will poll once more. */
  predicate Turns(w: World) { w.loop.turn == Polling || w.loop == Loop(false, Testing) }

  /** From any idle state with nothing queued, at least one request behind it and the loop going on: text
      printed now is published under the last request, after that request's idle status. */
  lemma FreeStandingTextFollowsIdle(w: World, text: string) returns (w': World, id: nat, idle: nat)
    requires Reachable(w) && w.pc == Idle && w.interp.pending == [] && w.impl.asyncQueue == []
    requires w.inFlight == [] && w.history.requests != [] && Turns(w)
    ensures Reachable(w') && id == |w.history.requests| - 1 && idle < |w'.history.trace| - 1
    ensures w'.history.trace[idle] == Status(Request(id), false)
    ensures var e := w'.history.trace[|w'.history.trace| - 1];
      e.Stream? && e.parent == Request(id) && e.text == AsLine(text) && e.source.FreeStanding? && e.source.front == -1
  {
    id := |w.history.requests| - 1;
    idle := IdleOfLast(w);
    ReachableIsSafe(w);
    SafeIsInv(w);
    hide Reachable, Safe, QueueOk, StartedOk, CountersOk, PendingCountOk;
    assert w.impl.currentExecution == 0 && w.interp.dispatch == Request(id) && !w.interp.hasActive;
    hide Inv;
    w' := PrintNow(w, text);
  }

  lemma PrintNow(w: World, text: string) returns (w': World)
    requires Reachable(w) && w.pc == Idle && w.interp.pending == [] && w.impl.asyncQueue == [] && w.inFlight == []
    requires w.impl.currentExecution == 0 && !w.interp.hasActive && Turns(w)
    ensures Reachable(w') && |w'.history.trace| == |w.history.trace| + 1 && w.history.trace <= w'.history.trace
    ensures var e := w'.history.trace[|w.history.trace|];
      e.Stream? && e.parent == w.interp.dispatch && e.text == AsLine(text) && e.source.FreeStanding?
      && e.source.front == -1
  {
    hide Reachable, AsLine;
    ReachNext(w, MaxDoes(LoadPrint("stdout", text)));
    w' := MaxStep(w, LoadPrint("stdout", text));
    ReachNext(w', MaxDoes(Push(0)));
    w' := MaxStep(w', Push(0));
    if w'.loop.turn == Testing {
      ReachNext(w', TestStop);
      w' := LoopOn(w');
    }
    ReachNext(w', Tick);
    w' := BeginTick(w');
    ReachServer(w');
    w' := FlushOne(w');
  }

  lemma IdleOfLast(w: World) returns (idle: nat)
    requires Reachable(w) && w.pc == Idle && w.interp.pending == [] && w.history.requests != []
    ensures idle < |w.history.trace| && w.history.trace[idle] == Status(Request(|w.history.requests| - 1), false)
  {
    var worlds: seq<World>, actions: seq<Action> :| IsRun(worlds, actions) && worlds[|worlds| - 1] == w;
    hide Next, Enabled, Init, IsRun;
    var k := |worlds| - 1;
    RequestsAreAnsweredInOrder(worlds, actions, k);
    var b, c, v, r, d := AnsweredRequestsConverse(worlds, actions, k, |w.history.requests| - 1);
    idle := d;
  }
}
