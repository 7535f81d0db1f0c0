/**
 The inductive invariant of the deferred-execution protocol: how the pending queue, the contexts,
 the counters and `current_execution` fit together at every point of the server thread.
 */
module ProtocolInvariant {
  import opened Protocol

  // ------------------------------------------------------------ where we are

  function Loading(pc: Pc): nat { if pc.LoadTimeout? then 1 else 0 }

  /** The front cell has left the queue but its reply is not out yet. */
  predicate Dropping(pc: Pc) { pc.DropPending? || pc.SendReply? }

  /** The identity of the cell at the front of the queue. */
  function First(w: World): nat { w.history.popped }

  /** The number of requests whose reply has been sent. */
  function Answered(w: World): int { First(w) - if Dropping(w.pc) then 1 else 0 }

  predicate Started(ps: seq<Pending>) { ps != [] && ps[0].started }

  /** The number of requests whose code has been pushed to Max. */
  function Sent(w: World): int {
    First(w) + if w.interp.pending != [] && (Started(w.interp.pending) || w.pc.SetDeadline?) then 1 else 0
  }

  // -------------------------------------------------------------- the clauses

  /** A request's counter is the number of non-silent requests up to and including it. */
  predicate CountersOk(rs: seq<Request>) {
    forall k :: 0 <= k < |rs| ==> rs[k].counter == CounterBefore(rs, k) + if rs[k].silent then 0 else 1
  }

  function CounterBefore(rs: seq<Request>, k: nat): int
    requires k <= |rs|
  {
    if k == 0 then 0 else rs[k - 1].counter
  }

  predicate IsCell(rs: seq<Request>, ts: seq<int>, p: Pending, id: int) {
    && 0 <= id < |rs| && id < |ts|
    && p.id == id && p.context == Request(id)
    && p.counter == rs[id].counter && p.code == rs[id].code && p.silent == rs[id].silent
    && p.timeout == ts[id]
  }

  predicate CellsOk(rs: seq<Request>, ts: seq<int>, ps: seq<Pending>, first: nat) {
    forall i :: 0 <= i < |ps| ==> IsCell(rs, ts, ps[i], first + i)
  }

  predicate QueueOk(w: World) {
    && 0 <= Answered(w)
    && |w.history.requests| == First(w) + |w.interp.pending| + Loading(w.pc)
    && |w.timing.timeouts| == First(w) + |w.interp.pending|
    && (w.pc.LoadTimeout? ==> w.history.requests != [])
    && (Serving(w.pc) ==> w.interp.pending != [])
    && CellsOk(w.history.requests, w.timing.timeouts, w.interp.pending, First(w))
    && (Dropping(w.pc) ==> IsCell(w.history.requests, w.timing.timeouts, w.pc.done, First(w) - 1))
  }

  predicate DispatchOk(t: Interp, rs: seq<Request>) {
    && t.dispatch == (if rs == [] then NoRequest else Request(|rs| - 1))
    && t.executionCount == CounterBefore(rs, |rs|)
  }

  /** Only the front cell is ever started, and between handlers it always is. */
  predicate StartedOk(pc: Pc, ps: seq<Pending>) {
    && (forall i :: 0 < i < |ps| ==> !ps[i].started)
    && (pc.ClearResults? || pc.StoreCurrent? || pc.PushCode? || pc.SetDeadline? || Dropping(pc) ==> !Started(ps))
    && (pc.LoadAlive? || pc.LoadShutdown? || pc.PopResult? || pc.CheckDeadline? || pc.DropCurrent? ==> Started(ps))
    && (pc.Idle? || pc.LoadTimeout? || pc.FlushAsync? || pc.ExchangeFlag? || pc.PushShutdown?
        || pc.ReplyShutdown? || (pc.StorePending? && |ps| > 1)
        ==> ps == [] || Started(ps))
    && (Started(ps) && !pc.DropCurrent? ==> ps[0].timeout > 0)
  }

  predicate Holds(pc: Pc, ps: seq<Pending>) {
    ps != [] && (Started(ps) || pc.PushCode? || pc.SetDeadline?)
  }

  /** `current_execution` is the started cell's counter, and 0 when no cell is started or a stop made it so. */
  predicate CurrentOk(w: World) {
    if w.history.holder == -1 then
      w.impl.currentExecution == 0 && (Holds(w.pc, w.interp.pending) ==> w.history.stopStored)
    else
      && Holds(w.pc, w.interp.pending)
      && w.history.holder == First(w) && w.impl.currentExecution == w.interp.pending[0].counter
  }

  predicate PendingCountOk(w: World) {
    w.timing.timeouts != [] && !w.pc.StorePending? && !w.pc.DropPending?
    ==> w.impl.pendingExecutions == |w.interp.pending|
  }

  /** The active context is set exactly while a cell is served, and is that cell's own. */
  predicate ActiveOk(pc: Pc, t: Interp, first: nat) {
    if Serving(pc) || (pc.FlushAsync? && t.pending != []) then t.hasActive && t.active == Request(first)
    else if Dropping(pc) then t.hasActive && first > 0 && t.active == Request(first - 1)
    else !t.hasActive
  }

  predicate Inv(w: World) {
    && CountersOk(w.history.requests)
    && QueueOk(w)
    && DispatchOk(w.interp, w.history.requests)
    && StartedOk(w.pc, w.interp.pending)
    && CurrentOk(w)
    && PendingCountOk(w)
    && ActiveOk(w.pc, w.interp, First(w))
  }

  // ------------------------------------------------------------ preservation

  lemma InitInv(w: World)
    requires Init(w)
    ensures Inv(w)
  {}

  lemma CountersSnoc(rs: seq<Request>, r: Request)
    requires CountersOk(rs) && r.counter == CounterBefore(rs, |rs|) + if r.silent then 0 else 1
    ensures CountersOk(rs + [r])
  {}

  lemma InvDispatch(w: World, code: string, silent: bool)
    requires Inv(w) && w.pc == Idle
    ensures Inv(DispatchExecute(w, code, silent))
  {
    var w' := DispatchExecute(w, code, silent);
    var rs := w.history.requests;
    CountersSnoc(rs, Req(code, silent, w'.interp.executionCount));
    CellsMono(rs, w'.history.requests, w.timing.timeouts, w.timing.timeouts, w.interp.pending, First(w));
    hide CellsOk, CountersOk;
  }

  lemma CellsMono(rs: seq<Request>, rs': seq<Request>, ts: seq<int>, ts': seq<int>, ps: seq<Pending>, first: nat)
    requires CellsOk(rs, ts, ps, first) && rs <= rs' && ts <= ts'
    ensures CellsOk(rs', ts', ps, first)
  {}

  lemma CellsSnoc(rs: seq<Request>, ts: seq<int>, ps: seq<Pending>, first: nat, p: Pending)
    requires CellsOk(rs, ts, ps, first) && |ts| == first + |ps|
    requires IsCell(rs, ts + [p.timeout], p, first + |ps|)
    ensures CellsOk(rs, ts + [p.timeout], ps + [p], first)
  {}

  lemma CellsTail(rs: seq<Request>, ts: seq<int>, ps: seq<Pending>, first: nat)
    requires CellsOk(rs, ts, ps, first) && ps != []
    ensures IsCell(rs, ts, ps[0], first) && CellsOk(rs, ts, ps[1..], first + 1)
  {}

  lemma StartedSnoc(ps: seq<Pending>, p: Pending)
    requires StartedOk(LoadTimeout, ps) && !p.started
    ensures StartedOk(StorePending, ps + [p])
    ensures Holds(StorePending, ps + [p]) == Holds(LoadTimeout, ps)
    ensures ps != [] ==> (ps + [p])[0] == ps[0]
  {}

  lemma InvQueue(w: World)
    requires Inv(w) && w.pc == LoadTimeout
    ensures Inv(QueueCell(w))
  {
    var rs, ps, p := w.history.requests, w.interp.pending, QueueCell(w).interp.pending[|w.interp.pending|];
    CellsSnoc(rs, w.timing.timeouts, ps, First(w), p);
    StartedSnoc(ps, p);
    hide CellsOk, CountersOk, StartedOk, Holds;
  }

  lemma InvStartClock(w: World)
    requires Inv(w) && w.pc == SetDeadline
    ensures Inv(StartClock(w))
  {
    CellsStart(w.history.requests, w.timing.timeouts, w.interp.pending, First(w), StartClock(w).interp.pending[0]);
    hide CellsOk, IsCell, CountersOk, DispatchOk;
  }

  lemma CellsStart(rs: seq<Request>, ts: seq<int>, ps: seq<Pending>, first: nat, p: Pending)
    requires CellsOk(rs, ts, ps, first) && ps != [] && p == ps[0].(deadline := p.deadline, started := true)
    ensures CellsOk(rs, ts, ps[0 := p], first)
  {}

  lemma InvDrop(w: World, reply: Reply)
    requires Inv(w) && w.pc == DropCurrent(reply)
    ensures Inv(DropFront(w, reply))
  {
    hide CellsOk, CountersOk, IsCell;
    CellsTail(w.history.requests, w.timing.timeouts, w.interp.pending, First(w));
  }

  /** What the clauses say of the front cell. */
  lemma FrontCell(w: World)
    requires Inv(w) && w.interp.pending != []
    ensures IsCell(w.history.requests, w.timing.timeouts, w.interp.pending[0], First(w))
  {}

  lemma ServedIsPending(w: World)
    requires Inv(w) && Serving(w.pc)
    ensures w.interp.pending != []
  {
    hide CellsOk, CountersOk, CurrentOk, ActiveOk, StartedOk;
  }

  lemma InvFlush(w: World)
    requires Inv(w) && w.pc == FlushAsync
    ensures Inv(FlushOne(w))
  {}

  lemma InvTick(w: World)
    requires Inv(w) && w.pc == Idle
    ensures Inv(BeginTick(w))
  {}

  lemma InvEnterPump(w: World)
    requires Inv(w) && w.pc == PumpTop
    ensures Inv(EnterPump(w))
  {}

  lemma InvClear(w: World)
    requires Inv(w) && w.pc == ClearResults
    ensures Inv(ClearQueue(w))
  {}

  lemma InvTake(w: World)
    requires Inv(w) && w.pc == StoreCurrent
    ensures Inv(TakeCurrent(w))
  {}

  lemma InvSendCode(w: World)
    requires Inv(w) && w.pc == PushCode
    ensures Inv(SendCode(w))
  {}

  lemma InvFail(w: World, reply: Reply)
    requires Inv(w) && (w.pc == LoadAlive || w.pc == LoadShutdown || w.pc == CheckDeadline) && reply.ErrorReply?
    ensures Inv(Fail(w, reply))
  {}

  lemma InvGoto(w: World)
    requires Inv(w)
    ensures w.pc == LoadAlive ==> Inv(Goto(w, LoadShutdown))
    ensures w.pc == LoadShutdown ==> Inv(Goto(w, PopResult))
  {}

  lemma InvConsume(w: World)
    requires Inv(w) && w.pc == PopResult
    ensures Inv(Consume(w))
  {
    hide CellsOk, IsCell, CountersOk, DispatchOk, Output;
  }

  lemma InvTestDeadline(w: World)
    requires Inv(w) && w.pc == CheckDeadline
    ensures Inv(TestDeadline(w))
  {}

  lemma InvCountIn(w: World)
    requires Inv(w) && w.pc == StorePending
    ensures Inv(Goto(StoreCount(w), PumpTop))
  {}

  lemma InvCountOut(w: World, done: Pending, reply: Reply)
    requires Inv(w) && w.pc == DropPending(done, reply)
    ensures Inv(Goto(StoreCount(w), SendReply(done, reply)))
  {}

  lemma InvAnswer(w: World, done: Pending, reply: Reply)
    requires Inv(w) && w.pc == SendReply(done, reply)
    ensures Inv(AnswerCell(w, done, reply))
  {}

  lemma InvShutdown(w: World)
    requires Inv(w)
    ensures w.pc == Idle ==> Inv(BeginShutdown(w))
    ensures w.pc == ExchangeFlag ==> Inv(TakeFlag(w))
    ensures w.pc == PushShutdown ==> Inv(Goto(AnnounceShutdown(w), ReplyShutdown))
    ensures w.pc == ReplyShutdown ==> Inv(EndShutdown(w))
  {
    hide CellsOk, IsCell, CountersOk, DispatchOk;
  }

  lemma InvServer(w: World)
    requires Inv(w) && ServerReady(w)
    ensures Inv(ServerStep(w))
  {
    hide Inv;
    match w.pc
    case LoadTimeout => InvQueue(w);
    case StorePending => InvCountIn(w);
    case FlushAsync => InvFlush(w);
    case PumpTop => InvEnterPump(w);
    case ClearResults => InvClear(w);
    case StoreCurrent => InvTake(w);
    case PushCode => InvSendCode(w);
    case SetDeadline => InvStartClock(w);
    case LoadAlive => InvGoto(w); InvFail(w, SHUTTING_DOWN);
    case LoadShutdown => InvGoto(w); InvFail(w, SHUTTING_DOWN);
    case PopResult => InvConsume(w);
    case CheckDeadline => InvTestDeadline(w);
    case DropCurrent(reply) => InvDrop(w, reply);
    case DropPending(done, reply) => InvCountOut(w, done, reply);
    case SendReply(done, reply) => InvAnswer(w, done, reply);
    case ExchangeFlag => InvShutdown(w);
    case PushShutdown => InvShutdown(w);
    case ReplyShutdown => InvShutdown(w);
  }

  /** `current_execution` and its owner are what they were, or a stop has made it 0. */
  predicate KeepsCurrent(w: World, w': World) {
    && (w.history.stopStored ==> w'.history.stopStored)
    && ((w'.history.holder == w.history.holder && w'.impl.currentExecution == w.impl.currentExecution)
        || (w'.history.stopStored && w'.history.holder == -1 && w'.impl.currentExecution == 0))
  }

  /** What a Max thread leaves alone. */
  lemma MaxFrame(w: World, a: MaxAction)
    requires MaxEnabled(w, a)
    ensures var w' := MaxStep(w, a);
      && w'.interp == w.interp && w'.timing == w.timing && w'.pc == w.pc && w'.clock == w.clock
      && w'.history.requests == w.history.requests && w'.history.popped == w.history.popped
      && w'.history.lastPump == w.history.lastPump && w'.impl.pendingExecutions == w.impl.pendingExecutions
      && KeepsCurrent(w, w')
  {}

  lemma InvSame(w: World, w': World)
    requires Inv(w)
    requires w'.interp == w.interp && w'.timing == w.timing && w'.pc == w.pc
    requires w'.history.requests == w.history.requests && w'.history.popped == w.history.popped
    requires KeepsCurrent(w, w') && w'.impl.pendingExecutions == w.impl.pendingExecutions
    ensures Inv(w')
  {}

  /** Every action, of either thread, keeps the invariant. */
  lemma InvNext(w: World, a: Action)
    requires Inv(w) && Enabled(w, a)
    ensures Inv(Next(w, a))
  {
    hide Inv, ServerStep, MaxStep, BeginTick, BeginShutdown, DispatchExecute;
    match a
    case Execute(code, silent) => InvDispatch(w, code, silent);
    case Server => InvServer(w);
    case MaxDoes(m) => MaxFrame(w, m); InvSame(w, MaxStep(w, m));
    case Tick => InvTick(w);
    case TestStop => InvSame(w, LoopOn(w));
    case ClientShutdown => InvShutdown(w);
    case Advance(dt) => InvSame(w, w.(clock := w.clock + dt));
  }

  /** The server thread is never stuck: away from its idle point it always has a next operation. */
  lemma ServerNeverStuck(w: World)
    requires Inv(w) && w.pc != Idle
    ensures Enabled(w, Server)
  {}
}
