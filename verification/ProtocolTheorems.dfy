/**
 The promises of the deferred-execution protocol, over every run: every interleaving of requests,
 idle ticks, clock advances, client shutdowns and Max-thread operations.
 */
module ProtocolTheorems {
  import opened Protocol
  import opened ProtocolInvariant
  import opened ProtocolAttribution
  import opened ProtocolLoads
  import opened ProtocolReplies
  import opened ProtocolLedger
  import opened ProtocolConversation
  import opened ProtocolTiming
  import opened ProtocolDrain
  import opened ProtocolClock
  import opened ProtocolCauses
  import opened ProtocolOwners
  import opened ProtocolShutdown

  ghost predicate Safe(w: World) { Inv(w) && Attributed(w) && InOrder(w) && Kept(w) }

  lemma InitSafe(w: World)
    requires Init(w)
    ensures Safe(w)
  {}

  lemma SafeNext(w: World, a: Action)
    requires Safe(w) && Enabled(w, a)
    ensures Safe(Next(w, a))
  {
    hide Inv, Attributed, InOrder, Kept, Enabled, Next;
    InvNext(w, a);
    AttributedNext(w, a);
    InOrderNext(w, a);
    KeptNext(w, a);
  }

  /** Every world of every run satisfies all the invariants. */
  lemma {:induction false} RunIsSafe(worlds: seq<World>, actions: seq<Action>, k: nat)
    requires IsRun(worlds, actions) && k < |worlds|
    ensures Safe(worlds[k])
  {
    hide Safe, Next, Enabled;
    if k == 0 {
      assert Init(worlds[0]);
      InitSafe(worlds[0]);
    } else {
      RunIsSafe(worlds, actions, k - 1);
      RunStep(worlds, actions, k - 1);
      SafeNext(worlds[k - 1], actions[k - 1]);
    }
  }

  // ---------------------------------------------------------- request and reply

  /** Replies go out once each, in request order: the requests are exactly the answered ones
      followed by the one whose reply is being sent, the queue, and the one being dispatched. */
  lemma RequestsAreAnsweredInOrder(worlds: seq<World>, actions: seq<Action>, k: nat)
    requires IsRun(worlds, actions) && k < |worlds|
    ensures var w := worlds[k];
      && 0 <= Answered(w)
      && |w.history.requests|
         == Answered(w) + (if Dropping(w.pc) then 1 else 0) + |w.interp.pending| + Loading(w.pc)
      && (forall i :: 0 <= i < |w.interp.pending| ==>
            w.interp.pending[i].id == |w.history.requests| - Loading(w.pc) - |w.interp.pending| + i)
      && Tally(w.history.trace).replies == Upto(Answered(w))
  {
    RunIsSafe(worlds, actions, k);
    var w := worlds[k];
    hide IsRun, InOrder, Attributed, StartedOk, CurrentOk, ActiveOk, CountersOk, DispatchOk, CodesOk, Upto,
         Tally, NoticesOk;
    forall i | 0 <= i < |w.interp.pending| ensures w.interp.pending[i].id == First(w) + i {
      assert IsCell(w.history.requests, w.timing.timeouts, w.interp.pending[i], First(w) + i);
    }
  }

  /** The whole conversation about an answered request: busy, code, reply, idle, once each and in
      that order, with all its output between code and reply. At most one result or error is published,
      last, and the reply reports it; there is none only for a cell that is not waited for, which
      succeeds, and for a silent cell that the kernel itself fails. */
  lemma AnsweredRequestsConverse(worlds: seq<World>, actions: seq<Action>, k: nat, id: nat)
    returns (busy: int, code: int, verdict: int, reply: int, idle: int)
    requires IsRun(worlds, actions) && k < |worlds| && id < Answered(worlds[k])
    ensures 0 <= busy < code < reply < idle < |worlds[k].history.trace| && verdict < reply
    ensures Conversation(worlds[k].history.trace, id, busy, code, verdict, reply, idle)
    ensures verdict < 0 ==>
      worlds[k].history.trace[reply].ExecuteReply? && MayBeQuiet(worlds[k], id, worlds[k].history.trace[reply].reply)
  {
    RunIsSafe(worlds, actions, k);
    var w := worlds[k];
    hide IsRun, Attributed, Kept, Monitor, Conversation;
    assert Tracks(w, id) by { hide Inv, Tracks; }
    assert 0 <= First(w) <= |w.history.requests|;
    hide Inv;
    busy, code, verdict, reply, idle := Conversed(w.history.trace, id);
  }

  lemma InitJustified(w: World)
    requires Init(w)
    ensures ClockOk(w) && LoopOk(w) && Justified(w)
  {}

  /** In every world of every run, every answer given or on its way out has a cause. */
  lemma {:induction false} RunIsJustified(worlds: seq<World>, actions: seq<Action>, k: nat)
    requires IsRun(worlds, actions) && k < |worlds|
    ensures ClockOk(worlds[k]) && LoopOk(worlds[k]) && Justified(worlds[k])
  {
    hide Safe, Inv, ClockOk, LoopOk, Justified, Next, Enabled;
    if k == 0 {
      assert Init(worlds[0]);
      InitJustified(worlds[0]);
    } else {
      RunIsJustified(worlds, actions, k - 1);
      RunIsSafe(worlds, actions, k - 1);
      SafeIsInv(worlds[k - 1]);
      RunStep(worlds, actions, k - 1);
      ClockNext(worlds[k - 1], actions[k - 1]);
      LoopNext(worlds[k - 1], actions[k - 1]);
      JustifiedNext(worlds[k - 1], actions[k - 1]);
    }
  }

  /** Why an answered request got its reply. Either Max returned a result or an error for it, which was
      published, and the reply reports that; or the kernel said so itself: success because the cell is
      not waited for, MaxShutdown because Max is stopping the kernel or freeing it, and never because of a
      client's shutdown request, MaxTimeout because at least the cell's timeout had passed since its start. */
  lemma AnswersHaveCauses(worlds: seq<World>, actions: seq<Action>, k: nat, id: nat) returns (verdict: int, reply: int)
    requires IsRun(worlds, actions) && k < |worlds| && id < Answered(worlds[k])
    ensures var w, trace := worlds[k], worlds[k].history.trace;
      && verdict < reply && 0 <= reply < |trace| && IsReply(trace[reply], id)
      && (|| (0 <= verdict && IsMaxVerdict(trace[verdict], id) && trace[reply].reply == VerdictOf(trace[verdict]))
          || KernelSays(w, id, trace[reply].reply))
  {
    hide IsRun, Inv, KernelSays, EventCaused, PcCaused;
    var w, trace := worlds[k], worlds[k].history.trace;
    var busy, code, idle;
    busy, code, verdict, reply, idle := AnsweredRequestsConverse(worlds, actions, k, id);
    RunIsJustified(worlds, actions, k);
    assert EventCaused(w, trace[reply]);
    ReplyHasCause(w, trace, id, busy, code, verdict, reply, idle);
  }

  lemma ReplyHasCause(w: World, trace: seq<Event>, id: nat, busy: int, code: int, verdict: int, reply: int, idle: int)
    requires trace == w.history.trace && Conversation(trace, id, busy, code, verdict, reply, idle)
    requires 0 <= reply < |trace| && verdict < reply && EventCaused(w, trace[reply])
    ensures IsReply(trace[reply], id)
    ensures || (0 <= verdict && IsMaxVerdict(trace[verdict], id) && trace[reply].reply == VerdictOf(trace[verdict]))
      || KernelSays(w, id, trace[reply].reply)
  {
    hide KernelSays;
    if MaxSettled(trace, id) {
      var i :| 0 <= i < |trace| && IsMaxVerdict(trace[i], id);
      assert IsVerdict(trace[i], id);
    }
  }

  /** A request not yet answered has had no reply and no idle status, at most one code message, and
      a request not yet dispatched has had no message at all. */
  lemma UnansweredRequestsWait(worlds: seq<World>, actions: seq<Action>, k: nat, id: nat)
    returns (busy: int, code: int, verdict: int)
    requires IsRun(worlds, actions) && k < |worlds| && id >= Answered(worlds[k])
    ensures Conversation(worlds[k].history.trace, id, busy, code, verdict, -1, -1)
    ensures busy == -1 <==> id >= |worlds[k].history.requests|
    ensures code >= 0 <==> id < Sent(worlds[k])
    ensures code >= 0 ==> 0 <= busy < code
  {
    hide IsRun, Inv, Attributed, Kept, Monitor, Conversation, Tracks;
    RunIsSafe(worlds, actions, k);
    var w := worlds[k];
    assert Tracks(w, id);
    WaitingPhase(w, id);
    var reply, idle;
    busy, code, verdict, reply, idle := Conversed(w.history.trace, id);
  }

  /** How far the conversation about an unanswered request can have got. */
  lemma WaitingPhase(w: World, id: nat)
    requires Inv(w) && Tracks(w, id) && id >= Answered(w)
    ensures var ph := Monitor(w.history.trace, id);
      && (ph == Unseen <==> id >= |w.history.requests|) && ph != Broken && !ph.Replied? && !ph.Closed?
      && (id < Sent(w) <==> ph == Handed || ph.Settled?)
  {
    hide Monitor, CellsOk, CountersOk;
  }

  /** Free-standing text is published under a request after that request's idle status exactly when it is
      flushed while no cell is pending. */
  lemma FreeTextFollowsIdleExactly(worlds: seq<World>, actions: seq<Action>, k: nat, i: nat, id: nat)
    requires IsRun(worlds, actions) && k < |worlds| && i < |worlds[k].history.trace|
    requires IsFreeFor(worlds[k].history.trace[i], id)
    ensures (exists j :: 0 <= j < i && worlds[k].history.trace[j] == Status(Request(id), false))
      <==> worlds[k].history.trace[i].source.front == -1
  {
    hide IsRun, Monitor, IsFreeFor, Conversation;
    RunIsSafe(worlds, actions, k);
    var w := worlds[k];
    assert Tracks(w, id) by { hide Inv, Tracks; }
    hide Inv;
    var busy, code, verdict, reply, idle := Conversed(w.history.trace, id);
    hide Tracks, Milestones;
    FreeTextByIdle(w.history.trace, id, busy, idle, code, verdict, reply, i);
  }

  lemma FreeTextByIdle(trace: seq<Event>, id: nat, busy: int, idle: int, code: int, verdict: int, reply: int, i: nat)
    requires Conversation(trace, id, busy, code, verdict, reply, idle) && i < |trace| && IsFreeFor(trace[i], id)
    ensures (exists j :: 0 <= j < i && trace[j] == Status(Request(id), false)) <==> trace[i].source.front == -1
  {
    hide IsVerdict, IsCode, IsReply, OutputBetween;
    if 0 <= idle < i { assert trace[idle] == Status(Request(id), false); }
  }

  // ------------------------------------------------------------------ handlers

  /** Between handlers: only the front cell is started and it is, `current_execution` is its counter
      (0 when nothing is pending, or after a stop that could not join the thread), the pending count is the
      queue's length exactly when a request has been dispatched or the start found 0 there, and no active
      context is left set. */
  lemma BetweenHandlers(worlds: seq<World>, actions: seq<Action>, k: nat)
    requires IsRun(worlds, actions) && k < |worlds| && worlds[k].pc == Idle
    ensures var w := worlds[k];
      && (forall i :: 0 <= i < |w.interp.pending| ==> (w.interp.pending[i].started <==> i == 0))
      && (w.impl.currentExecution == (if w.interp.pending == [] then 0 else w.interp.pending[0].counter)
          || (w.history.stopStored && w.impl.currentExecution == 0))
      && (w.impl.pendingExecutions == |w.interp.pending| <==>
            w.history.requests != [] || worlds[0].impl.pendingExecutions == 0)
      && !w.interp.hasActive
  {
    RunIsSafe(worlds, actions, k);
    SafeIsInv(worlds[k]);
    RunCounts(worlds, actions, k);
    hide IsRun, Safe;
    CountBetween(worlds[k], worlds[0].impl.pendingExecutions);
    hide CellsOk, CountersOk, CountOk;
  }

  lemma {:induction false} RunCounts(worlds: seq<World>, actions: seq<Action>, k: nat)
    requires IsRun(worlds, actions) && k < |worlds|
    ensures CountOk(worlds[k], worlds[0].impl.pendingExecutions)
    decreases k
  {
    hide Safe, Inv, Next, Enabled, CountOk;
    if k == 0 {
      InitCounts(worlds[0]);
    } else {
      RunCounts(worlds, actions, k - 1);
      RunIsSafe(worlds, actions, k - 1);
      SafeIsInv(worlds[k - 1]);
      RunStep(worlds, actions, k - 1);
      CountNext(worlds[k - 1], actions[k - 1], worlds[0].impl.pendingExecutions);
    }
  }

  lemma InitCounts(w: World)
    requires Init(w)
    ensures CountOk(w, w.impl.pendingExecutions)
  {}

  /** The outlet messages, delivered or still queued, are what an earlier start left over followed by
      the ones of this start; its `code` messages are the codes of the first `Sent` requests, once
      each and in request order. */
  lemma CodesAreHandedOnceInOrder(worlds: seq<World>, actions: seq<Action>, k: nat)
    requires IsRun(worlds, actions) && k < |worlds|
    ensures var w := worlds[k];
      var l := Tally(w.history.trace);
      && w.history.delivered + w.impl.outletQueue == w.history.leftover + l.outlets
      && 0 <= Sent(w) <= |w.history.requests|
      && |l.codes| == Sent(w)
      && forall i :: 0 <= i < Sent(w) ==>
           && l.codes[i].selector == "code" && l.codes[i].atoms == ["execute", w.history.requests[i].code]
           && l.codes[i].outlet == 0 && l.codes[i].counter == w.history.requests[i].counter
  {
    RunIsSafe(worlds, actions, k);
    hide IsRun, Attributed, InOrder, Inv, Tally, CodeMessage, NoticesOk, Upto;
  }

  // --------------------------------------------------------------- attribution

  /** `current_execution` belongs to the cell at the front of the queue: a load made while a request
      is the holder was made while that request was current. */
  lemma HolderIsCurrent(w: World)
    requires Inv(w) && w.history.holder >= 0
    ensures w.interp.pending != [] && w.interp.pending[0].id == w.history.holder
    ensures w.history.holder < |w.history.requests|
    ensures w.impl.currentExecution == w.history.requests[w.history.holder].counter
  {}

  /** The message was loaded, at step `t`, while request `cell` was current. */
  ghost predicate LoadedWhileCurrent(worlds: seq<World>, actions: seq<Action>, t: nat, cell: nat, m: ResultMessage) {
    && t < |actions| < |worlds|
    && Loads(worlds[t], actions[t], m)
    && worlds[t].interp.pending != [] && worlds[t].interp.pending[0].id == cell
    && worlds[t].impl.currentExecution == worlds[t].interp.pending[0].counter
    && worlds[t].impl.currentExecution == m.counter
  }

  /** Whatever a cell streams or returns was loaded while a request with the same, positive counter was
      current, and that request was the cell or came before it. */
  lemma OutputWasLoadedForItsCounter(worlds: seq<World>, actions: seq<Action>, k: nat, i: nat) returns (t: nat)
    requires IsRun(worlds, actions) && k < |worlds| && i < |worlds[k].history.trace|
    requires var e := worlds[k].history.trace[i];
      (e.Stream? || e.ExecuteResult? || e.ExecuteError?) && e.source.FromMax?
    ensures var e, rs := worlds[k].history.trace[i], worlds[k].history.requests;
      && t < k && 0 <= e.source.message.loadedFor <= e.source.cell < |rs|
      && LoadedWhileCurrent(worlds, actions, t, e.source.message.loadedFor, e.source.message)
      && rs[e.source.message.loadedFor].counter == rs[e.source.cell].counter && rs[e.source.cell].counter > 0
      && e.parent == Request(e.source.cell)
  {
    RunIsSafe(worlds, actions, k);
    var w := worlds[k];
    var e := w.history.trace[i];
    var m := e.source.message;
    assert EventOk(w.history.requests, e) by { hide IsRun, Inv, InOrder, Kept, EventOk; }
    assert Mentions(w, m) by { hide IsRun, Safe; assert Carries(w.history.trace[i], m); }
    assert Inv(w) by { hide IsRun, Mentions; }
    hide Safe, Mentions, Inv;
    t := EveryMessageWasLoaded(worlds, actions, k, m);
    LoadIsCurrent(worlds, actions, t, m);
    RunIsNotAhead(worlds, actions, k);
    assert NotFromLater(e);
    hide NotAhead, LoadedWhileCurrent, IsRun;
    CounterIsPositive(w, e.source.cell);
  }

  lemma CounterIsPositive(w: World, id: nat)
    requires Inv(w) && id < |w.history.requests| && w.history.requests[id].counter != 0
    ensures w.history.requests[id].counter > 0
  {
    InvCounters(w);
    hide Inv;
    PositiveFromFirstLoud(w.history.requests, id);
  }

  lemma InvCounters(w: World)
    requires Inv(w)
    ensures CountersOk(w.history.requests)
  {
    hide QueueOk, StartedOk, CurrentOk, ActiveOk, CountersOk, DispatchOk, PendingCountOk;
  }

  lemma LoadKeepsHolder(w: World, a: Action, m: ResultMessage)
    requires Loads(w, a, m)
    ensures m.loadedFor == w.history.holder && (m.counter != 0 ==> m.counter == w.impl.currentExecution)
  {}

  lemma LoadIsCurrent(worlds: seq<World>, actions: seq<Action>, t: nat, m: ResultMessage)
    requires IsRun(worlds, actions) && t < |actions| && Loads(worlds[t], actions[t], m)
    requires m.counter != 0 && m.loadedFor >= 0
    ensures LoadedWhileCurrent(worlds, actions, t, m.loadedFor, m)
  {
    hide Safe;
    RunIsSafe(worlds, actions, t);
    LoadKeepsHolder(worlds[t], actions[t], m);
    assert Inv(worlds[t]) by { assert Safe(worlds[t]); SafeIsInv(worlds[t]); }
    HolderIsCurrent(worlds[t]);
    FrontCell(worlds[t]);
    hide Inv, Loads, Next, Enabled, Init;
  }

  lemma SafeIsInv(w: World)
    requires Safe(w)
    ensures Inv(w)
  {}

  /** Whatever a cell that is not silent streams or returns was loaded while that very cell was current,
      whatever silent cells there are besides. */
  lemma OutputWasLoadedForItsCell(worlds: seq<World>, actions: seq<Action>, k: nat, i: nat) returns (t: nat)
    requires IsRun(worlds, actions) && k < |worlds| && i < |worlds[k].history.trace|
    requires var e, rs := worlds[k].history.trace[i], worlds[k].history.requests;
      && (e.Stream? || e.ExecuteResult? || e.ExecuteError?) && e.source.FromMax?
      && e.source.cell < |rs| && !rs[e.source.cell].silent
    ensures var e := worlds[k].history.trace[i];
      t < k && LoadedWhileCurrent(worlds, actions, t, e.source.cell, e.source.message)
  {
    hide LoadedWhileCurrent, Next, Enabled, Init, IsRun, Safe, Inv, CountersOk;
    t := OutputWasLoadedForItsCounter(worlds, actions, k, i);
    RunIsSafe(worlds, actions, k);
    SafeIsInv(worlds[k]);
    InvCounters(worlds[k]);
    var rs, e := worlds[k].history.requests, worlds[k].history.trace[i];
    if e.source.message.loadedFor < e.source.cell { LoudIsNew(rs, e.source.message.loadedFor, e.source.cell); }
  }

  /** Every output published while a cell is served carries that cell's own context, whatever was
      dispatched since. */
  lemma OutputCarriesItsOwnContext(worlds: seq<World>, actions: seq<Action>, k: nat, i: nat)
    requires IsRun(worlds, actions) && k < |worlds| && i < |worlds[k].history.trace|
    ensures var e := worlds[k].history.trace[i];
      e.Stream? || e.ExecuteResult? || e.ExecuteError? ==>
        match e.source
        case FromKernel(cell) => e.parent == Request(cell)
        case FromMax(cell, _) => e.parent == Request(cell)
        case FreeStanding(front, _) => front >= 0 ==> e.parent == Request(front)
  {
    RunIsSafe(worlds, actions, k);
    hide IsRun, Inv, InOrder, Kept, StampOk, FreeOk;
    assert EventOk(worlds[k].history.requests, worlds[k].history.trace[i]);
  }

  lemma {:induction false} RunIsNotAhead(worlds: seq<World>, actions: seq<Action>, k: nat)
    requires IsRun(worlds, actions) && k < |worlds|
    ensures NotAhead(worlds[k])
  {
    hide Safe, Inv, NotAhead, Next, Enabled;
    if k == 0 {
      assert Init(worlds[0]);
      InitNotAhead(worlds[0]);
    } else {
      RunIsNotAhead(worlds, actions, k - 1);
      RunIsSafe(worlds, actions, k - 1);
      SafeIsInv(worlds[k - 1]);
      RunStep(worlds, actions, k - 1);
      NotAheadNext(worlds[k - 1], actions[k - 1]);
    }
  }

  lemma InitNotAhead(w: World)
    requires Init(w)
    ensures NotAhead(w)
  {}

  // ------------------------------------------------------------------ shutdown

  /** One `shutdown` notice if a client set the flag before Max did, as soon as its handler has told the patch,
      and otherwise none. */
  lemma ShutdownIsAnnouncedAtMostOnce(worlds: seq<World>, actions: seq<Action>, k: nat)
    requires IsRun(worlds, actions) && k < |worlds|
    ensures var n := Tally(worlds[k].history.trace).notices;
      && n <= 1
      && (n == 1 <==> worlds[k].impl.shutdownRequested && !worlds[k].history.stopFromMax && !worlds[k].pc.PushShutdown?)
  {
    RunIsSafe(worlds, actions, k);
    hide IsRun, Inv, InOrder, Attributed, CodesOk, Upto, Tally;
  }

  /** A pump that begins in a stopping kernel leaves nothing pending: every request dispatched has been
      answered when the server thread is next idle, after a bounded number of its operations. */
  lemma StoppedPumpAnswersAll(worlds: seq<World>, actions: seq<Action>, i: nat, j: nat)
    requires IsRun(worlds, actions) && i < j < |worlds|
    requires worlds[i].pc == PumpTop && Stopping(worlds[i])
    requires worlds[j].pc == Idle && forall k :: i <= k < j ==> worlds[k].pc != Idle
    ensures worlds[j].interp.pending == [] && Answered(worlds[j]) == |worlds[i].history.requests|
    ensures Tally(worlds[j].history.trace).replies == Upto(|worlds[i].history.requests|)
    ensures ServerCount(actions[i..j]) <= 10 * |worlds[i].interp.pending| + 8
  {
    hide Safe, Next, Enabled, Init, Stopping, ServerCount, Tally, Upto;
    forall k | 0 <= k < |worlds| ensures Inv(worlds[k]) {
      RunIsSafe(worlds, actions, k);
      SafeIsInv(worlds[k]);
    }
    DrainRun(worlds, actions, i, j);
    RequestsAreAnsweredInOrder(worlds, actions, j);
    hide Inv, IsRun;
  }

  /** What the wait of `kernel_shutdown` is for. Once it has set the flag and read a pending count of 0,
      and no request is dispatched any more, every request of this start has its reply as soon as the
      server thread is between handlers. */
  lemma {:induction false} ZeroPendingMeansAllAnswered(worlds: seq<World>, actions: seq<Action>, i: nat, j: nat)
    requires IsRun(worlds, actions) && i <= j < |worlds|
    requires Stopping(worlds[i]) && worlds[i].impl.pendingExecutions == 0
    requires forall k :: i <= k < j ==> !actions[k].Execute?
    ensures Closing(worlds[j]) && worlds[j].history.requests == worlds[i].history.requests
    ensures worlds[j].pc == Idle ==>
      && worlds[j].interp.pending == [] && Answered(worlds[j]) == |worlds[i].history.requests|
      && Tally(worlds[j].history.trace).replies == Upto(|worlds[i].history.requests|)
    decreases j
  {
    hide Safe, Inv, Closing, Next, Enabled, Stopping, Tally, Upto, Init;
    if i == j {
      RunIsSafe(worlds, actions, i);
      SafeIsInv(worlds[i]);
      ZeroIsClosing(worlds[i]);
    } else {
      ZeroPendingMeansAllAnswered(worlds, actions, i, j - 1);
      RunIsSafe(worlds, actions, j - 1);
      SafeIsInv(worlds[j - 1]);
      RunStep(worlds, actions, j - 1);
      ClosingStep(worlds[j - 1], actions[j - 1]);
    }
    RequestsAreAnsweredInOrder(worlds, actions, j);
    if worlds[j].pc == Idle { ClosedAtIdle(worlds[j]); }
  }

  lemma ClosedAtIdle(w: World)
    requires Closing(w) && w.pc == Idle
    ensures w.interp.pending == []
  {}

  // ------------------------------------------------------------- client shutdown

  /** From a client's shutdown request on, nothing is queued, started or answered, and the loop ends. */
  lemma {:induction false} ShutdownStrands(worlds: seq<World>, actions: seq<Action>, i: nat, k: nat)
    requires IsRun(worlds, actions) && i < k < |worlds| && actions[i].ClientShutdown?
    ensures GoingDown(worlds[k]) && Stranding(worlds[i], worlds[k])
    decreases k
  {
    hide Next, Enabled, GoingDown, Stranding, Init;
    RunStep(worlds, actions, k - 1);
    if k == i + 1 {
      ShutdownBegins(worlds[i]);
    } else {
      ShutdownStrands(worlds, actions, i, k - 1);
      DownNext(worlds[k - 1], actions[k - 1]);
      StrandingOn(worlds[i], worlds[k - 1], worlds[k]);
    }
  }

  lemma ShutdownBegins(w: World)
    requires Enabled(w, ClientShutdown)
    ensures GoingDown(Next(w, ClientShutdown)) && Stranding(w, Next(w, ClientShutdown))
  {}

  lemma StrandingOn(w: World, w': World, w'': World)
    requires Stranding(w, w') && Stranding(w', w'')
    ensures Stranding(w, w'')
  {}

  /** So a request dispatched before a client's shutdown request has a reply at any later time if and only if
      it had one then, all of them do if and only if none was pending, and the pending count stays. */
  lemma ClientShutdownAnswersNothing(worlds: seq<World>, actions: seq<Action>, i: nat, k: nat)
    requires IsRun(worlds, actions) && i < k < |worlds| && actions[i].ClientShutdown?
    ensures var w, w' := worlds[i], worlds[k];
      && w'.history.requests == w.history.requests && w'.interp.pending == w.interp.pending
      && Tally(w'.history.trace).replies == Upto(Answered(w)) == Tally(w.history.trace).replies
      && (Answered(w) == |w'.history.requests| <==> w.interp.pending == [])
      && w'.impl.pendingExecutions == w.impl.pendingExecutions
  {
    hide Tally, Upto, Enabled, Next, Init;
    ShutdownStrands(worlds, actions, i, k);
    RequestsAreAnsweredInOrder(worlds, actions, i);
    RequestsAreAnsweredInOrder(worlds, actions, k);
    RunStep(worlds, actions, i);
    StrandedCount(worlds[i], worlds[k]);
  }

  lemma StrandedCount(w: World, w': World)
    requires Enabled(w, ClientShutdown) && GoingDown(w') && Stranding(w, w')
    ensures w.pc == Idle && Answered(w') == Answered(w)
  {}

  /** And the next start begins with the count of what was pending. */
  lemma NextStartInheritsCount(worlds: seq<World>, actions: seq<Action>, i: nat, k: nat, seconds: int)
    requires IsRun(worlds, actions) && i < k < |worlds| && actions[i].ClientShutdown?
    requires worlds[i].history.requests != []
    ensures var next := NextStart(worlds[k], seconds);
      Init(next) && next.impl.pendingExecutions == |worlds[i].interp.pending|
  {
    hide Tally, Upto;
    ClientShutdownAnswersNothing(worlds, actions, i, k);
    RunStep(worlds, actions, i);
    BetweenHandlers(worlds, actions, i);
    hide IsRun;
    NextStartBegins(worlds[k], seconds);
  }

  // -------------------------------------------------------------------- timing

  ghost predicate OnTimeRun(worlds: seq<World>, actions: seq<Action>, d: nat) {
    IsRun(worlds, actions) && forall i :: 0 <= i < |actions| ==> OnTime(worlds[i], actions[i], d)
  }

  lemma InitPunctual(w: World, d: nat)
    requires Init(w)
    ensures Punctual(w, d) && ClockOk(w)
  {}

  lemma {:induction false} RunIsPunctual(worlds: seq<World>, actions: seq<Action>, d: nat, k: nat)
    requires OnTimeRun(worlds, actions, d) && k < |worlds|
    ensures Inv(worlds[k]) && ClockOk(worlds[k]) && Punctual(worlds[k], d)
  {
    hide Inv, Punctual, ClockOk, Next, Enabled, OnTime, Init;
    if k == 0 {
      assert Init(worlds[0]);
      InitInv(worlds[0]);
      InitPunctual(worlds[0], d);
    } else {
      RunIsPunctual(worlds, actions, d, k - 1);
      RunStep(worlds, actions, k - 1);
      InvNext(worlds[k - 1], actions[k - 1]);
      ClockNext(worlds[k - 1], actions[k - 1]);
      PunctualNext(worlds[k - 1], actions[k - 1], d);
    }
  }

  /** The timing history at step `k` extends that at step `i`, and answers given since are dated no
      earlier than the clock then. */
  lemma {:induction false} HistoryGrows(worlds: seq<World>, actions: seq<Action>, i: nat, k: nat)
    requires IsRun(worlds, actions) && i <= k < |worlds|
    ensures var t, t' := worlds[i].timing, worlds[k].timing;
      && t.timeouts <= t'.timeouts && t.behind <= t'.behind
      && t.startedAt <= t'.startedAt && t.answeredAt <= t'.answeredAt
      && (forall j :: |t.answeredAt| <= j < |t'.answeredAt| ==> t'.answeredAt[j] >= worlds[i].clock)
      && worlds[i].clock <= worlds[k].clock
    decreases k
  {
    hide Next, Enabled, Init;
    if i < k {
      HistoryGrows(worlds, actions, i, k - 1);
      RunStep(worlds, actions, k - 1);
      hide IsRun;
      TimingGrows(worlds[k - 1], actions[k - 1]);
    }
  }

  /** What was queued behind the front cell of an earlier world follows it without a gap in a later one. */
  lemma StillBehind(worlds: seq<World>, actions: seq<Action>, d: nat, i: nat, k: nat, c: nat)
    requires OnTimeRun(worlds, actions, d) && i <= k < |worlds|
    requires First(worlds[i]) <= c < |worlds[i].timing.timeouts|
    ensures var t := worlds[k].timing;
      && c < |t.timeouts| == |t.behind|
      && forall j :: First(worlds[i]) < j <= c ==> t.behind[j]
  {
    RunIsPunctual(worlds, actions, d, i);
    RunIsPunctual(worlds, actions, d, k);
    HistoryGrows(worlds, actions, i, k);
    hide OnTimeRun, Next, Inv, StartsOk, AnswersOk, FrontOk, PastOk;
    var t := worlds[i].timing;
    assert forall j :: First(worlds[i]) < j <= c ==> t.behind[j];
  }

  /** If at step `i` the front cell is started and `c` is queued behind it, then at every later step
      either `c` has been answered, by the front cell's start plus the budgets of the cells up to
      `c`, or the clock has not passed that point. */
  lemma QueuedCellsAreAnsweredInTime(worlds: seq<World>, actions: seq<Action>, d: nat, i: nat, k: nat, c: nat)
    requires OnTimeRun(worlds, actions, d) && i <= k < |worlds| && Started(worlds[i].interp.pending)
    requires First(worlds[i]) <= c < |worlds[i].timing.timeouts|
    ensures var t, f := worlds[k].timing, First(worlds[i]);
      && c < |t.timeouts| && f < |worlds[i].timing.startedAt|
      && var bound := worlds[i].timing.startedAt[f] + Budget(t.timeouts, d, f, c + 1);
         if c < |t.answeredAt| then t.answeredAt[c] <= bound else worlds[k].clock <= bound
  {
    hide OnTimeRun, Next, Inv, Punctual, ClockOk, Budget;
    RunIsPunctual(worlds, actions, d, i);
    RunIsPunctual(worlds, actions, d, k);
    StillBehind(worlds, actions, d, i, k, c);
    Lengths(worlds[i]);
    RunOf(worlds, actions, d);
    HistoryGrows(worlds, actions, i, k);
    hide IsRun;
    Bounded(worlds[k], d, First(worlds[i]), c);
  }

  lemma RunOf(worlds: seq<World>, actions: seq<Action>, d: nat)
    requires OnTimeRun(worlds, actions, d)
    ensures IsRun(worlds, actions)
  {}

  /** A front cell that is not started at step `i` is started within `d` of the last pump before it. */
  lemma {:induction false} FrontStartsSoon(worlds: seq<World>, actions: seq<Action>, d: nat, i: nat, k: nat)
    requires OnTimeRun(worlds, actions, d) && i <= k < |worlds|
    requires worlds[i].interp.pending != [] && !Started(worlds[i].interp.pending)
    ensures var w, w', f := worlds[i], worlds[k], First(worlds[i]);
      if |w'.timing.startedAt| <= f
      then First(w') == f && w'.interp.pending != [] && w'.history.lastPump == w.history.lastPump
      else w'.timing.startedAt[f] <= w.history.lastPump + d
    decreases k
  {
    hide Inv, Punctual, ClockOk, Next, Enabled;
    if i < k {
      FrontStartsSoon(worlds, actions, d, i, k - 1);
      RunIsPunctual(worlds, actions, d, k - 1);
      HistoryGrows(worlds, actions, k - 1, k);
      RunStep(worlds, actions, k - 1);
      hide OnTimeRun, IsRun;
      Lengths(worlds[k - 1]);
      if |worlds[k - 1].timing.startedAt| <= First(worlds[i]) { StartsSoon(worlds[k - 1], actions[k - 1], d); }
    } else {
      RunIsPunctual(worlds, actions, d, i);
      Lengths(worlds[i]);
    }
  }

  /** A cell that is pending at any step `i`, started or not, is answered within `d` and the budgets of the
      cells from the front up to it, counted from then, or that time has not passed. */
  lemma PendingCellsAreAnsweredInTime(worlds: seq<World>, actions: seq<Action>, d: nat, i: nat, k: nat, c: nat)
    requires OnTimeRun(worlds, actions, d) && i <= k < |worlds|
    requires First(worlds[i]) <= c < |worlds[i].timing.timeouts|
    ensures var t, f := worlds[k].timing, First(worlds[i]);
      && c < |t.timeouts|
      && var bound := worlds[i].clock + d + Budget(t.timeouts, d, f, c + 1);
         if c < |t.answeredAt| then t.answeredAt[c] <= bound else worlds[k].clock <= bound
  {
    hide OnTimeRun, Next, Inv, ClockOk, Budget, StartsOk, AnswersOk, BehindOk, FrontOk;
    var w, f := worlds[i], First(worlds[i]);
    RunIsPunctual(worlds, actions, d, i);
    RunIsPunctual(worlds, actions, d, k);
    StillBehind(worlds, actions, d, i, k, c);
    Lengths(w);
    Lengths(worlds[k]);
    if Started(w.interp.pending) {
      QueuedCellsAreAnsweredInTime(worlds, actions, d, i, k, c);
    } else {
      FrontStartsSoon(worlds, actions, d, i, k);
      hide PastOk;
      if f < |worlds[k].timing.startedAt| { Bounded(worlds[k], d, f, c); }
    }
  }
}
