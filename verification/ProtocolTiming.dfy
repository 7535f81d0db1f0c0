/**
 How long a client waits. Time passes at any point, inside handlers as well as between them. While a cell
 is pending, at most `d` seconds go by between two times at which a pump leaves a cell waiting, or from
 the arrival of a cell in an empty queue to the first of them. Then a cell is answered within its own
 timeout plus `d` of its start, and a cell behind another is started by the end of that time.
 */
module ProtocolTiming {
  import opened Protocol
  import opened ProtocolInvariant
  import opened ProtocolClock

  /** The assumption on the schedule: the clock never gets more than `d` seconds past the last pump while a
      cell is pending. */
  predicate OnTime(w: World, a: Action, d: nat) {
    a.Advance? && w.interp.pending != [] ==> w.clock + a.seconds <= w.history.lastPump + d
  }

  // --------------------------------------------------------------- the invariant

  /** When cell `k` is due: its start and its timeout, without the time to the next pump. */
  function Due(t: Timing, k: nat): int
    requires k < |t.startedAt| && k < |t.timeouts|
  {
    t.startedAt[k] + Max0(t.timeouts[k])
  }

  predicate StartsOk(t: Timing, d: nat) {
    && |t.startedAt| <= |t.timeouts| == |t.behind|
    && forall k :: 0 < k < |t.startedAt| && t.behind[k] ==> t.startedAt[k] <= Due(t, k - 1) + d
  }

  predicate AnswersOk(t: Timing, d: nat) {
    && |t.answeredAt| <= |t.startedAt| <= |t.timeouts|
    && forall k :: 0 <= k < |t.answeredAt| ==> t.answeredAt[k] <= Due(t, k) + d
  }

  /** Every cell but the front one was queued behind another. */
  predicate BehindOk(t: Timing, first: nat) { forall k :: first < k < |t.behind| ==> t.behind[k] }

  predicate PastOk(t: Timing, clock: int) { forall k :: 0 <= k < |t.startedAt| ==> t.startedAt[k] <= clock }

  /** The last pump was no later than the front cell is due, or, for a front cell yet to be started that
      had another before it, than that one was. */
  predicate FrontOk(t: Timing, first: nat, last: int) {
    if first < |t.startedAt| then first < |t.timeouts| && last <= Due(t, first)
    else 0 < first <= |t.startedAt| && first < |t.behind| && first <= |t.timeouts| && t.behind[first] ==>
           last <= Due(t, first - 1)
  }

  predicate Punctual(w: World, d: nat) {
    && StartsOk(w.timing, d) && AnswersOk(w.timing, d) && BehindOk(w.timing, First(w)) && PastOk(w.timing, w.clock)
    && (w.interp.pending != [] ==>
          && w.history.lastPump <= w.clock <= w.history.lastPump + d
          && FrontOk(w.timing, First(w), w.history.lastPump))
  }

  // ------------------------------------------------------------ preservation

  /** What the lengths of the histories say about the queue. */
  lemma Lengths(w: World)
    requires Inv(w) && ClockOk(w)
    ensures var t, f := w.timing, First(w);
      && |t.timeouts| == |t.behind| == f + |w.interp.pending| && |t.answeredAt| == f
      && |t.startedAt| == f + (if Started(w.interp.pending) then 1 else 0)
      && (Started(w.interp.pending) ==>
            w.interp.pending[0].deadline == Due(t, f) && t.timeouts[f] == w.interp.pending[0].timeout)
  {
    if w.interp.pending != [] { FrontCell(w); }
    hide CellsOk, CountersOk, CurrentOk, ActiveOk, StartedOk;
  }

  lemma TimingArrive(t: Timing, seconds: int, first: nat, d: nat)
    requires StartsOk(t, d) && AnswersOk(t, d) && BehindOk(t, first) && first <= |t.behind|
    ensures var t' := t.(timeouts := t.timeouts + [seconds], behind := t.behind + [first < |t.behind|]);
      && StartsOk(t', d) && AnswersOk(t', d) && BehindOk(t', first)
      && (first < |t.behind| ==> forall last :: FrontOk(t, first, last) ==> FrontOk(t', first, last))
  {
    var t' := t.(timeouts := t.timeouts + [seconds], behind := t.behind + [first < |t.behind|]);
    assert forall k :: 0 <= k < |t.startedAt| ==> Due(t', k) == Due(t, k);
  }

  lemma PunctualQueue(w: World, d: nat)
    requires Inv(w) && ClockOk(w) && Punctual(w, d) && w.pc == LoadTimeout
    ensures Punctual(QueueCell(w), d)
  {
    Lengths(w);
    AtArrival(w);
    hide Inv, ClockOk, Max0, StartsOk, AnswersOk, BehindOk, Due;
    TimingArrive(w.timing, w.impl.timeout, First(w), d);
  }

  /** A cell that comes into an empty queue is not started. */
  lemma AtArrival(w: World)
    requires Inv(w) && w.pc == LoadTimeout
    ensures First(QueueCell(w)) == First(w)
  {}

  lemma TimingStart(t: Timing, clock: int, last: int, d: nat)
    requires StartsOk(t, d) && AnswersOk(t, d) && |t.startedAt| == |t.answeredAt| < |t.timeouts| == |t.behind|
    requires FrontOk(t, |t.startedAt|, last) && last <= clock <= last + d
    ensures var t' := t.(startedAt := t.startedAt + [clock]);
      StartsOk(t', d) && AnswersOk(t', d) && FrontOk(t', |t.startedAt|, last)
  {
    var t' := t.(startedAt := t.startedAt + [clock]);
    assert forall k :: 0 <= k < |t.startedAt| ==> Due(t', k) == Due(t, k);
  }

  lemma PunctualStart(w: World, d: nat)
    requires Inv(w) && ClockOk(w) && Punctual(w, d) && w.pc == SetDeadline
    ensures Punctual(StartClock(w), d)
  {
    Lengths(w);
    assert !Started(w.interp.pending) by { hide CellsOk, CountersOk, CurrentOk, ActiveOk; }
    hide Inv, ClockOk, Max0, StartsOk, AnswersOk, Due, FrontOk;
    TimingStart(w.timing, w.clock, w.history.lastPump, d);
  }

  lemma TimingAnswer(t: Timing, clock: int, last: int, d: nat)
    requires StartsOk(t, d) && AnswersOk(t, d) && |t.startedAt| == |t.answeredAt| + 1
    requires FrontOk(t, |t.answeredAt|, last) && BehindOk(t, |t.answeredAt|) && clock <= last + d
    ensures var t' := t.(answeredAt := t.answeredAt + [clock]);
      && StartsOk(t', d) && AnswersOk(t', d) && BehindOk(t', |t'.answeredAt|)
      && FrontOk(t', |t'.answeredAt|, last)
  {
    var t' := t.(answeredAt := t.answeredAt + [clock]);
    assert forall k :: 0 <= k < |t.startedAt| ==> Due(t', k) == Due(t, k);
  }

  lemma PunctualDrop(w: World, reply: Reply, d: nat)
    requires Inv(w) && ClockOk(w) && Punctual(w, d) && w.pc == DropCurrent(reply)
    ensures Punctual(DropFront(w, reply), d)
  {
    Lengths(w);
    assert Started(w.interp.pending) by { hide CellsOk, CountersOk, CurrentOk, ActiveOk; }
    hide Inv, ClockOk, Max0, StartsOk, AnswersOk, BehindOk, Due, FrontOk;
    TimingAnswer(w.timing, w.clock, w.history.lastPump, d);
  }

  lemma PunctualWait(w: World, d: nat)
    requires Inv(w) && ClockOk(w) && Punctual(w, d) && w.pc == CheckDeadline && w.clock < w.interp.pending[0].deadline
    ensures Punctual(TestDeadline(w), d)
  {
    Lengths(w);
    assert Started(w.interp.pending) by { hide CellsOk, CountersOk, CurrentOk, ActiveOk; }
    hide Inv, ClockOk, Max0, StartsOk, AnswersOk, BehindOk, Due;
  }

  /** Actions that leave the queue, the timing history and the clock alone. */
  lemma PunctualSame(w: World, w': World, d: nat)
    requires Punctual(w, d) && w'.timing == w.timing && w'.clock == w.clock && w'.interp.pending == w.interp.pending
    requires First(w') == First(w) && w'.history.lastPump == w.history.lastPump
    ensures Punctual(w', d)
  {
    hide StartsOk, AnswersOk, BehindOk, FrontOk;
  }

  lemma ServerSame(w: World)
    requires ServerReady(w) && !w.pc.LoadTimeout? && !w.pc.SetDeadline? && !w.pc.DropCurrent?
    requires w.pc == CheckDeadline ==> w.clock >= w.interp.pending[0].deadline
    ensures var w' := ServerStep(w);
      && w'.timing == w.timing && w'.clock == w.clock && w'.interp.pending == w.interp.pending
      && First(w') == First(w) && w'.history.lastPump == w.history.lastPump
  {
    hide TimeoutReply, Output, AsLine, CodeMessage, GetContext;
  }

  lemma PunctualServer(w: World, d: nat)
    requires Inv(w) && ClockOk(w) && Punctual(w, d) && ServerReady(w)
    ensures Punctual(ServerStep(w), d)
  {
    hide Inv, ClockOk, Punctual;
    if w.pc == LoadTimeout {
      PunctualQueue(w, d);
    } else if w.pc == SetDeadline {
      PunctualStart(w, d);
    } else if w.pc.DropCurrent? {
      PunctualDrop(w, w.pc.reply, d);
    } else if w.pc == CheckDeadline && w.clock < w.interp.pending[0].deadline {
      PunctualWait(w, d);
    } else {
      ServerSame(w);
      hide ServerStep;
      PunctualSame(w, ServerStep(w), d);
    }
  }

  /** Every action, time passing at any point included, keeps the starts and answers within their bounds. */
  lemma PunctualNext(w: World, a: Action, d: nat)
    requires Inv(w) && ClockOk(w) && Punctual(w, d) && Enabled(w, a) && OnTime(w, a, d)
    ensures Punctual(Next(w, a), d)
  {
    hide Inv, ClockOk, Punctual, ServerStep, MaxStep;
    match a
    case Execute(code, silent) => PunctualSame(w, DispatchExecute(w, code, silent), d);
    case Server => PunctualServer(w, d);
    case MaxDoes(m) => MaxFrame(w, m); PunctualSame(w, MaxStep(w, m), d);
    case Tick => PunctualSame(w, BeginTick(w), d);
    case ClientShutdown => PunctualSame(w, BeginShutdown(w), d);
    case TestStop => PunctualSame(w, LoopOn(w), d);
    case Advance(dt) => PunctualAdvance(w, dt, d);
  }

  lemma PunctualAdvance(w: World, dt: nat, d: nat)
    requires Punctual(w, d) && OnTime(w, Advance(dt), d)
    ensures Punctual(w.(clock := w.clock + dt), d)
  {
    hide StartsOk, AnswersOk, BehindOk, FrontOk;
  }

  /** While the front cell is not started, no pump leaves it waiting, and it is started in time. */
  lemma StartsSoon(w: World, a: Action, d: nat)
    requires Inv(w) && ClockOk(w) && Punctual(w, d) && Enabled(w, a)
    requires w.interp.pending != [] && !Started(w.interp.pending)
    ensures var w', f := Next(w, a), First(w);
      if |w'.timing.startedAt| <= f
      then First(w') == f && w'.interp.pending != [] && w'.history.lastPump == w.history.lastPump
      else w'.timing.startedAt[f] <= w.history.lastPump + d
  {
    Lengths(w);
    if a.Server? {
      UnstartedServer(w);
      hide Inv, ServerStep, ClockOk, FrontOk, StartsOk, AnswersOk, BehindOk;
    } else if a.MaxDoes? {
      MaxFrame(w, a.action);
      hide Inv, MaxStep, ClockOk, FrontOk, StartsOk, AnswersOk, BehindOk;
    } else {
      hide Inv, ClockOk, FrontOk, StartsOk, AnswersOk, BehindOk;
    }
  }

  lemma UnstartedServer(w: World)
    requires Inv(w) && ServerReady(w) && w.interp.pending != [] && !Started(w.interp.pending)
    ensures var w' := ServerStep(w);
      && First(w') == First(w) && w'.interp.pending != [] && w'.history.lastPump == w.history.lastPump
      && (w'.timing.startedAt == w.timing.startedAt || w'.timing.startedAt == w.timing.startedAt + [w.clock])
  {
    hide TimeoutReply, Output, AsLine, CodeMessage, GetContext, CellsOk, CountersOk, CurrentOk, ActiveOk;
  }

  // ------------------------------------------------------------------ the bound

  /** The time the cells from `i` up to, but not including, `k` may take between them. */
  function Budget(timeouts: seq<int>, d: nat, i: nat, k: nat): nat
    requires i <= k <= |timeouts|
    decreases k
  {
    if k == i then 0 else Budget(timeouts, d, i, k - 1) + Max0(timeouts[k - 1]) + d
  }

  /** A cell that has had others before it without a gap was started within their budgets. */
  lemma {:induction false} StartedBy(t: Timing, d: nat, i: nat, k: nat)
    requires StartsOk(t, d) && i <= k < |t.startedAt| && forall j :: i < j <= k ==> t.behind[j]
    ensures t.startedAt[k] <= t.startedAt[i] + Budget(t.timeouts, d, i, k)
    decreases k
  {
    hide Max0;
    if i < k {
      StartedBy(t, d, i, k - 1);
      assert t.startedAt[k] <= Due(t, k - 1) + d;
    }
  }

  lemma {:induction false} BudgetGrows(timeouts: seq<int>, d: nat, i: nat, f: nat, k: nat)
    requires i <= f <= k <= |timeouts|
    ensures Budget(timeouts, d, i, f) <= Budget(timeouts, d, i, k)
    decreases k
  {
    if f < k { BudgetGrows(timeouts, d, i, f, k - 1); }
  }

  /** Cell `k` follows cell `i` without a gap, and has been answered. */
  lemma AnsweredBy(t: Timing, d: nat, i: nat, k: nat)
    requires AnswersOk(t, d) && StartsOk(t, d) && i <= k < |t.answeredAt| && forall j :: i < j <= k ==> t.behind[j]
    ensures t.answeredAt[k] <= t.startedAt[i] + Budget(t.timeouts, d, i, k + 1)
  {
    StartedBy(t, d, i, k);
    hide Max0, StartsOk;
    assert t.answeredAt[k] <= Due(t, k) + d;
  }

  /** Cell `k` follows cell `i` without a gap, and is still waiting. */
  lemma StillWaiting(w: World, d: nat, i: nat, k: nat)
    requires Inv(w) && ClockOk(w) && Punctual(w, d) && i <= First(w) <= k < |w.timing.timeouts|
    requires i < |w.timing.startedAt| && |w.timing.behind| == |w.timing.timeouts|
    requires forall j :: i < j <= k ==> w.timing.behind[j]
    ensures w.clock <= w.timing.startedAt[i] + Budget(w.timing.timeouts, d, i, k + 1)
  {
    Lengths(w);
    hide Inv, ClockOk, Max0, AnswersOk, BehindOk, Budget, StartsOk;
    var t, f := w.timing, First(w);
    var last := if f < |t.startedAt| then f else f - 1;
    StartedBy(t, d, i, last);
    BudgetStep(t.timeouts, d, i, last);
    BudgetGrows(t.timeouts, d, i, last + 1, k + 1);
    assert w.history.lastPump <= Due(t, last);
  }

  lemma BudgetStep(timeouts: seq<int>, d: nat, i: nat, k: nat)
    requires i <= k < |timeouts|
    ensures Budget(timeouts, d, i, k + 1) == Budget(timeouts, d, i, k) + Max0(timeouts[k]) + d
  {}

  /** Once cell `i` is started, every cell that follows it without a gap is answered in time, or its time
      has not passed. */
  lemma Bounded(w: World, d: nat, i: nat, k: nat)
    requires Inv(w) && ClockOk(w) && Punctual(w, d)
    requires i <= k < |w.timing.timeouts| == |w.timing.behind| && i < |w.timing.startedAt|
    requires forall j :: i < j <= k ==> w.timing.behind[j]
    ensures var t := w.timing;
      var bound := t.startedAt[i] + Budget(t.timeouts, d, i, k + 1);
      if k < |t.answeredAt| then t.answeredAt[k] <= bound else w.clock <= bound
  {
    Lengths(w);
    hide Inv, ClockOk, Max0, Budget, FrontOk, BehindOk, StartsOk, AnswersOk;
    if k < |w.timing.answeredAt| { AnsweredBy(w.timing, d, i, k); } else { StillWaiting(w, d, i, k); }
  }

  /** The timing history only grows, and a new answer is dated by the clock. */
  lemma TimingGrows(w: World, a: Action)
    requires Enabled(w, a)
    ensures var t, t' := w.timing, Next(w, a).timing;
      && t.timeouts <= t'.timeouts && t.behind <= t'.behind
      && t.startedAt <= t'.startedAt && t.answeredAt <= t'.answeredAt
      && (forall k :: |t.answeredAt| <= k < |t'.answeredAt| ==> t'.answeredAt[k] >= w.clock)
      && Next(w, a).clock >= w.clock
  {
    match a
    case Server => TimingServer(w); hide ServerStep;
    case MaxDoes(m) => MaxFrame(w, m); hide MaxStep;
    case _ =>
  }

  lemma TimingServer(w: World)
    requires ServerReady(w)
    ensures var t, t' := w.timing, ServerStep(w).timing;
      && t.timeouts <= t'.timeouts && t.behind <= t'.behind
      && t.startedAt <= t'.startedAt && t.answeredAt <= t'.answeredAt
      && (forall k :: |t.answeredAt| <= k < |t'.answeredAt| ==> t'.answeredAt[k] >= w.clock)
      && ServerStep(w).clock == w.clock
  {
    hide TimeoutReply, Output, AsLine, CodeMessage, GetContext;
  }
}
