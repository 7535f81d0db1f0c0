/**
 Why a cell got the answer it got: Max said so, or the kernel was entitled to say it by itself.
 */
module ProtocolCauses {
  import opened Protocol
  import opened ProtocolInvariant
  import opened ProtocolClock
  import opened ProtocolReplies
  import opened ProtocolShutdown

  /** Max returned a result or an error for the cell, and it was published. */
  predicate IsMaxVerdict(e: Event, id: nat) {
    (e.ExecuteResult? || e.ExecuteError?) && e.source.FromMax? && e.source.cell == id
  }

  ghost predicate MaxSettled(trace: seq<Event>, id: nat) {
    exists i :: 0 <= i < |trace| && IsMaxVerdict(trace[i], id)
  }

  /** The answer to a cell has a cause. */
  ghost predicate Caused(w: World, id: nat, reply: Reply) {
    MaxSettled(w.history.trace, id) || KernelSays(w, id, reply)
  }

  /** An event that says something about an answer has a cause. */
  ghost predicate EventCaused(w: World, e: Event) {
    && (e.ExecuteError? && e.source.FromKernel? ==> KernelSays(w, e.source.cell, VerdictOf(e)))
    && (e.ExecuteReply? ==> Caused(w, e.id, e.reply))
  }

  /** The answer on its way out. */
  ghost predicate PcCaused(w: World) {
    && (w.pc.DropCurrent? ==> Caused(w, First(w), w.pc.reply))
    && (Dropping(w.pc) ==> First(w) > 0 && Caused(w, First(w) - 1, w.pc.reply))
  }

  ghost predicate TraceCaused(w: World) {
    forall i :: 0 <= i < |w.history.trace| ==> EventCaused(w, w.history.trace[i])
  }

  ghost predicate Justified(w: World) { TraceCaused(w) && PcCaused(w) }

  // ------------------------------------------------------------------ preservation

  lemma CausedGrows(w: World, w': World, id: nat, reply: Reply)
    requires Caused(w, id, reply) && Later(w, w') && w.history.trace <= w'.history.trace
    ensures Caused(w', id, reply)
  {
    StillSays(w, w', id);
    hide KernelSays, Later;
    if MaxSettled(w.history.trace, id) {
      var i :| 0 <= i < |w.history.trace| && IsMaxVerdict(w.history.trace[i], id);
      assert w'.history.trace[i] == w.history.trace[i];
    }
  }

  lemma EventGrows(w: World, w': World, e: Event)
    requires EventCaused(w, e) && Later(w, w') && w.history.trace <= w'.history.trace
    ensures EventCaused(w', e)
  {
    if e.ExecuteError? && e.source.FromKernel? { StillSays(w, w', e.source.cell); }
    hide KernelSays, Later, Caused;
    if e.ExecuteReply? { CausedGrows(w, w', e.id, e.reply); }
  }

  /** What was said stays justified; new events are justified on their own. */
  lemma TraceGrows(w: World, w': World)
    requires TraceCaused(w) && Later(w, w') && w.history.trace <= w'.history.trace
    requires forall i :: |w.history.trace| <= i < |w'.history.trace| ==> EventCaused(w', w'.history.trace[i])
    ensures TraceCaused(w')
  {
    hide EventCaused, Later;
    forall i | 0 <= i < |w'.history.trace| ensures EventCaused(w', w'.history.trace[i]) {
      if i < |w.history.trace| {
        EventGrows(w, w', w.history.trace[i]);
        assert w'.history.trace[i] == w.history.trace[i];
      }
    }
  }

  /** An event that says nothing about an answer. */
  predicate Harmless(e: Event) { !e.ExecuteReply? && (e.ExecuteError? ==> !e.source.FromKernel?) }

  lemma HarmlessIsCaused(w: World, e: Event)
    requires Harmless(e)
    ensures EventCaused(w, e)
  {}

  lemma JustifiedGrows(w: World, w': World)
    requires Justified(w) && Later(w, w') && w.history.trace <= w'.history.trace
    requires forall i :: |w.history.trace| <= i < |w'.history.trace| ==> Harmless(w'.history.trace[i])
    requires PcCaused(w')
    ensures Justified(w')
  {
    hide EventCaused, Later, Harmless, PcCaused;
    forall i | |w.history.trace| <= i < |w'.history.trace| ensures EventCaused(w', w'.history.trace[i]) {
      HarmlessIsCaused(w', w'.history.trace[i]);
    }
    TraceGrows(w, w');
  }

  /** Nothing on its way out, or the same as before. */
  lemma PcStays(w: World, w': World)
    requires PcCaused(w) && Later(w, w') && w.history.trace <= w'.history.trace
    requires (!w'.pc.DropCurrent? && !Dropping(w'.pc))
      || (First(w') == First(w) && (w'.pc == w.pc || (w.pc.DropPending? && w'.pc == SendReply(w.pc.done, w.pc.reply))))
    ensures PcCaused(w')
  {
    hide Caused, Later;
    if w'.pc.DropCurrent? { CausedGrows(w, w', First(w), w.pc.reply); }
    if Dropping(w'.pc) { CausedGrows(w, w', First(w) - 1, w.pc.reply); }
  }

  lemma JustifiedQuiet(w: World, w': World)
    requires Justified(w) && Later(w, w') && w.history.trace <= w'.history.trace
    requires forall i :: |w.history.trace| <= i < |w'.history.trace| ==> Harmless(w'.history.trace[i])
    requires (!w'.pc.DropCurrent? && !Dropping(w'.pc))
      || (First(w') == First(w) && (w'.pc == w.pc || (w.pc.DropPending? && w'.pc == SendReply(w.pc.done, w.pc.reply))))
    ensures Justified(w')
  {
    hide Later, Harmless, PcCaused, TraceCaused;
    PcStays(w, w');
    JustifiedGrows(w, w');
  }

  // ------------------------------------------------------------------------ steps

  lemma JustifiedStart(w: World)
    requires Inv(w) && Justified(w) && w.pc == SetDeadline
    ensures Justified(StartClock(w))
  {
    FrontCell(w);
    var w' := StartClock(w);
    assert w'.pc.DropCurrent? ==> KernelSays(w', First(w'), OkReply);
    hide Inv, KernelSays, TraceCaused, MaxSettled;
    JustifiedGrows(w, w');
  }

  /** The kernel fails the front cell by itself. */
  lemma JustifiedFail(w: World, reply: Reply)
    requires Inv(w) && Justified(w) && reply.ErrorReply? && KernelSays(w, First(w), reply)
    requires w.pc == LoadAlive || w.pc == LoadShutdown || w.pc == CheckDeadline
    ensures Justified(Fail(w, reply))
  {
    FrontCell(w);
    var w' := Fail(w, reply);
    assert Later(w, w');
    StillSays(w, w', First(w));
    hide Inv, KernelSays, MaxSettled, Later;
    assert PcCaused(w');
    forall i | |w.history.trace| <= i < |w'.history.trace| ensures EventCaused(w', w'.history.trace[i]) {}
    hide EventCaused;
    TraceGrows(w, w');
  }

  /** What the two tests of the kernel entitle it to say. */
  lemma StopEntitles(w: World)
    requires Inv(w) && LoopOk(w) && Serving(w.pc) && (!w.impl.alive || w.impl.shutdownRequested)
    ensures KernelSays(w, First(w), SHUTTING_DOWN)
  {
    FrontCell(w);
    hide CellsOk, CountersOk;
  }

  lemma DeadlineEntitles(w: World)
    requires Inv(w) && ClockOk(w) && w.pc == CheckDeadline && w.clock >= w.interp.pending[0].deadline
    ensures KernelSays(w, First(w), TimeoutReply(w.interp.pending[0]))
  {
    FrontCell(w);
    hide CellsOk, CountersOk;
  }

  lemma JustifiedConsume(w: World)
    requires Inv(w) && Justified(w) && w.pc == PopResult
    ensures Justified(Consume(w))
  {
    hide Inv, Later, Consume, Justified;
    ServedIsPending(w);
    FrontCell(w);
    var w' := Consume(w);
    ConsumeStep(w);
    if w'.pc.DropCurrent? {
      hide KernelSays;
      assert PcCaused(w');
      hide PcCaused;
      JustifiedGrows(w, w');
    } else {
      JustifiedQuiet(w, w');
    }
  }

  lemma ConsumeStep(w: World)
    requires w.pc == PopResult && w.interp.pending != [] && w.interp.pending[0].id == First(w)
    ensures var w', n := Consume(w), |w.history.trace|;
      && Later(w, w') && w.history.trace <= w'.history.trace && First(w') == First(w) && !Dropping(w'.pc)
      && (forall i :: n <= i < |w'.history.trace| ==> Harmless(w'.history.trace[i]))
      && (w'.pc.DropCurrent? ==> n < |w'.history.trace| && IsMaxVerdict(w'.history.trace[n], First(w)))
  {
    hide AsLine, GetContext;
  }

  lemma JustifiedDrop(w: World, reply: Reply)
    requires Inv(w) && Justified(w) && ClockOk(w) && w.pc == DropCurrent(reply)
    ensures Justified(DropFront(w, reply))
  {
    var w' := DropFront(w, reply);
    assert Later(w, w') && First(w') == First(w) + 1;
    hide Inv, Later, KernelSays, TraceCaused, MaxSettled;
    CausedGrows(w, w', First(w), reply);
    JustifiedGrows(w, w');
  }

  lemma JustifiedAnswer(w: World, done: Pending, reply: Reply)
    requires Inv(w) && Justified(w) && w.pc == SendReply(done, reply)
    ensures Justified(AnswerCell(w, done, reply))
  {
    hide Inv, Later, Caused, KernelSays, TraceCaused;
    LeavingCell(w);
    var w' := AnswerCell(w, done, reply);
    AnswerIsLater(w, done, reply);
    CausedGrows(w, w', done.id, reply);
    AnswerCaused(w', |w.history.trace|, done, reply);
    hide EventCaused, AnswerCell;
    TraceGrows(w, w');
  }

  lemma LeavingCell(w: World)
    requires Inv(w) && Dropping(w.pc)
    ensures w.pc.done.id == First(w) - 1
  {
    hide CellsOk, CountersOk, CurrentOk, ActiveOk, StartedOk;
  }

  lemma AnswerIsLater(w: World, done: Pending, reply: Reply)
    ensures var w' := AnswerCell(w, done, reply);
      && Later(w, w') && w'.pc == PumpTop
      && w'.history.trace == w.history.trace
           + [ExecuteReply(done.id, reply, done.counter), Status(Request(done.id), false)]
  {}

  lemma AnswerCaused(w: World, n: nat, done: Pending, reply: Reply)
    requires n + 2 == |w.history.trace| && Caused(w, done.id, reply)
    requires w.history.trace[n..] == [ExecuteReply(done.id, reply, done.counter), Status(Request(done.id), false)]
    ensures forall i :: n <= i < |w.history.trace| ==> EventCaused(w, w.history.trace[i])
  {
    hide Caused, KernelSays;
    assert w.history.trace[n] == w.history.trace[n..][0] && w.history.trace[n + 1] == w.history.trace[n..][1];
  }

  /** The remaining steps publish nothing about an answer. */
  predicate Uneventful(pc: Pc) {
    !pc.SetDeadline? && !pc.LoadAlive? && !pc.LoadShutdown? && !pc.PopResult? && !pc.CheckDeadline?
    && !pc.DropCurrent? && !pc.SendReply?
  }

  lemma UneventfulStep(w: World)
    requires Inv(w) && ServerReady(w) && Uneventful(w.pc)
    ensures var w' := ServerStep(w);
      && Later(w, w') && w.history.trace <= w'.history.trace
      && (forall i :: |w.history.trace| <= i < |w'.history.trace| ==> Harmless(w'.history.trace[i]))
      && ((!w'.pc.DropCurrent? && !Dropping(w'.pc))
          || (First(w') == First(w) && w.pc.DropPending? && w'.pc == SendReply(w.pc.done, w.pc.reply)))
  {
    hide CellsOk, CountersOk, CurrentOk, ActiveOk, AsLine, CodeMessage, GetContext;
  }

  lemma JustifiedServer(w: World)
    requires Inv(w) && LoopOk(w) && Justified(w) && ClockOk(w) && ServerReady(w)
    ensures Justified(ServerStep(w))
  {
    hide Inv, LoopOk, Justified, ClockOk, Later, KernelSays;
    if Uneventful(w.pc) {
      UneventfulStep(w);
      hide ServerStep, Harmless;
      JustifiedQuiet(w, ServerStep(w));
    } else {
      JustifiedEvent(w);
    }
  }

  lemma JustifiedEvent(w: World)
    requires Inv(w) && LoopOk(w) && Justified(w) && ClockOk(w) && ServerReady(w) && !Uneventful(w.pc)
    ensures Justified(ServerStep(w))
  {
    hide Inv, LoopOk, Justified, ClockOk, KernelSays;
    match w.pc
    case SetDeadline => JustifiedStart(w);
    case LoadAlive =>
      JustifiedGo(w, LoadShutdown);
      if !w.impl.alive { StopEntitles(w); JustifiedFail(w, SHUTTING_DOWN); }
    case LoadShutdown =>
      JustifiedGo(w, PopResult);
      if w.impl.shutdownRequested { StopEntitles(w); JustifiedFail(w, SHUTTING_DOWN); }
    case PopResult => JustifiedConsume(w);
    case CheckDeadline =>
      if w.clock < w.interp.pending[0].deadline { JustifiedQuiet(w, TestDeadline(w)); }
      else { DeadlineEntitles(w); JustifiedFail(w, TimeoutReply(w.interp.pending[0])); }
    case DropCurrent(reply) => JustifiedDrop(w, reply);
    case SendReply(done, reply) => JustifiedAnswer(w, done, reply);
    case Idle =>
    case _ =>
  }

  lemma JustifiedGo(w: World, pc: Pc)
    requires Justified(w) && !pc.DropCurrent? && !Dropping(pc)
    ensures Justified(Goto(w, pc))
  {
    hide Justified;
    JustifiedQuiet(w, Goto(w, pc));
  }

  lemma MaxIsLater(w: World, a: MaxAction)
    requires MaxEnabled(w, a)
    ensures var w' := MaxStep(w, a);
      && Later(w, w') && w.history.trace <= w'.history.trace
      && (forall i :: |w.history.trace| <= i < |w'.history.trace| ==> Harmless(w'.history.trace[i]))
  {
    hide LoadForResult, LoadForPrint;
  }

  /** Every action keeps every answer justified. */
  lemma JustifiedNext(w: World, a: Action)
    requires Inv(w) && LoopOk(w) && Justified(w) && ClockOk(w) && Enabled(w, a)
    ensures Justified(Next(w, a))
  {
    hide Inv, LoopOk, Justified, ClockOk, ServerStep, MaxStep;
    match a
    case Execute(code, silent) => JustifiedQuiet(w, DispatchExecute(w, code, silent));
    case Server => JustifiedServer(w);
    case MaxDoes(m) =>
      MaxIsLater(w, m);
      MaxFrame(w, m);
      JustifiedQuiet(w, MaxStep(w, m));
    case Tick => JustifiedQuiet(w, BeginTick(w));
    case TestStop => JustifiedQuiet(w, LoopOn(w));
    case ClientShutdown => JustifiedQuiet(w, BeginShutdown(w));
    case Advance(dt) => JustifiedQuiet(w, w.(clock := w.clock + dt));
  }
}
