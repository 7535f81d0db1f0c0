/**
 How the recorded times fit the queue, and what entitles the kernel to answer a cell by itself: the
 cell is not waited for, the kernel is stopping, or the cell's time is up.
 */
module ProtocolClock {
  import opened Decimals
  import opened Protocol
  import opened ProtocolInvariant

  /** One start time for every cell that was started, one answer time for every cell that left the queue,
      and the deadline of the front cell is its start plus its timeout. */
  predicate ClockOk(w: World) {
    && |w.timing.behind| == |w.timing.timeouts| && |w.timing.answeredAt| == First(w)
    && |w.timing.startedAt| == First(w) + (if Started(w.interp.pending) then 1 else 0)
    && (Started(w.interp.pending) ==>
          var p, start := w.interp.pending[0], w.timing.startedAt[First(w)];
          p.deadline == if p.timeout > 0 then start + p.timeout else start)
  }

  lemma ClockQueue(w: World)
    requires Inv(w) && ClockOk(w) && w.pc == LoadTimeout
    ensures ClockOk(QueueCell(w))
  {
    StartedSnoc(w.interp.pending, QueueCell(w).interp.pending[|w.interp.pending|]);
    hide CellsOk, CountersOk, CurrentOk, ActiveOk;
  }

  lemma ClockStart(w: World)
    requires Inv(w) && ClockOk(w) && w.pc == SetDeadline
    ensures ClockOk(StartClock(w))
  {
    hide CellsOk, CountersOk, CurrentOk, ActiveOk;
  }

  lemma ClockDrop(w: World, reply: Reply)
    requires Inv(w) && ClockOk(w) && w.pc == DropCurrent(reply)
    ensures ClockOk(DropFront(w, reply))
  {
    hide CellsOk, CountersOk, CurrentOk, ActiveOk;
  }

  lemma ClockSame(w: World, w': World)
    requires ClockOk(w) && w'.timing == w.timing && w'.interp.pending == w.interp.pending && First(w') == First(w)
    ensures ClockOk(w')
  {}

  /** The other steps of the server thread touch neither times nor queue. */
  lemma ServerKeepsTimes(w: World)
    requires ServerReady(w) && !w.pc.LoadTimeout? && !w.pc.SetDeadline? && !w.pc.DropCurrent?
    ensures var w' := ServerStep(w);
      w'.timing == w.timing && w'.interp.pending == w.interp.pending && First(w') == First(w)
  {
    hide TimeoutReply, Output, AsLine, CodeMessage, GetContext;
  }

  lemma ClockServer(w: World)
    requires Inv(w) && ClockOk(w) && ServerReady(w)
    ensures ClockOk(ServerStep(w))
  {
    hide Inv, ClockOk;
    match w.pc
    case LoadTimeout => ClockQueue(w);
    case SetDeadline => ClockStart(w);
    case DropCurrent(reply) => ClockDrop(w, reply);
    case Idle =>
    case _ =>
      ServerKeepsTimes(w);
      hide ServerStep;
      ClockSame(w, ServerStep(w));
  }

  lemma ClockNext(w: World, a: Action)
    requires Inv(w) && ClockOk(w) && Enabled(w, a)
    ensures ClockOk(Next(w, a))
  {
    hide Inv, ClockOk, ServerStep, MaxStep;
    match a
    case Execute(code, silent) => ClockSame(w, DispatchExecute(w, code, silent));
    case Server => ClockServer(w);
    case MaxDoes(m) => MaxFrame(w, m); ClockSame(w, MaxStep(w, m));
    case Tick => ClockSame(w, BeginTick(w));
    case TestStop => ClockSame(w, LoopOn(w));
    case ClientShutdown => ClockSame(w, BeginShutdown(w));
    case Advance(dt) => ClockSame(w, w.(clock := w.clock + dt));
  }

  // ------------------------------------------------------ the kernel's own answers

  /** When a cell left the queue, or now if it has not. */
  function AnswerTime(w: World, id: nat): int {
    if id < |w.timing.answeredAt| then w.timing.answeredAt[id] else w.clock
  }

  /** The kernel may answer cell `id` with this reply by itself. */
  predicate KernelSays(w: World, id: nat, reply: Reply) {
    && id < |w.history.requests| && id < |w.timing.timeouts|
    && (reply == OkReply ==> w.timing.timeouts[id] <= 0)
    && (reply != OkReply && reply != ErrorReply("MaxShutdown", "kernel is shutting down") ==>
          && w.timing.timeouts[id] > 0 && id < |w.timing.startedAt|
          && AnswerTime(w, id) >= w.timing.startedAt[id] + w.timing.timeouts[id]
          && reply == ErrorReply("MaxTimeout", "no result from Max within " + Digits(w.timing.timeouts[id]) + "s: "
                                               + w.history.requests[id].code))
    && (reply == ErrorReply("MaxShutdown", "kernel is shutting down") ==>
          !w.impl.alive || w.history.stopStored)
  }

  /** One world comes later than another in a run. */
  predicate Later(w: World, w': World) {
    && w.history.requests <= w'.history.requests && w.timing.timeouts <= w'.timing.timeouts
    && w.timing.startedAt <= w'.timing.startedAt && w.timing.answeredAt <= w'.timing.answeredAt
    && (forall j :: |w.timing.answeredAt| <= j < |w'.timing.answeredAt| ==> w'.timing.answeredAt[j] >= w.clock)
    && w.clock <= w'.clock
    && (w'.impl.alive ==> w.impl.alive) && (w.history.stopStored ==> w'.history.stopStored)
  }

  /** What the kernel was entitled to say it stays entitled to. */
  lemma StillSays(w: World, w': World, id: nat)
    requires Later(w, w')
    ensures forall reply :: KernelSays(w, id, reply) ==> KernelSays(w', id, reply)
  {}
}
