/**
 The Request-Reply discipline of the Jupyter messaging protocol, per request and over the whole
 trace. `Monitor` reads everything published and says how far one request has got, or `Broken` if an
 event came out of order; the invariant ties the monitor's verdict to the state, for every request.
 */
module ProtocolReplies {
  import opened Protocol
  import opened ProtocolInvariant

  // --------------------------------------------------------------- the monitor

  /** How far the conversation about one request has got. */
  datatype Phase =
    | Unseen                 // nothing published
    | Busy                   // busy status out
    | Announced              // execute_input out
    | Handed                 // code pushed to Max
    | Settled(reply: Reply)               // result or error published, which the reply must report
    | Replied(reply: Reply, told: bool)   // execute_reply sent, with or without such an output
    | Closed(reply: Reply, told: bool)    // idle status out
    | Broken

  /** An output on behalf of cell `id`, other than free-standing text. */
  predicate IsOutputOf(e: Event, id: nat) {
    && (e.Stream? || e.ExecuteResult? || e.ExecuteError?)
    && (e.source.FromKernel? || e.source.FromMax?)
    && (e.source.cell == id || e.parent == Request(id))
  }

  predicate IsFreeFor(e: Event, id: nat) {
    && (e.Stream? || e.ExecuteResult? || e.ExecuteError?)
    && e.source.FreeStanding? && e.parent == Request(id)
  }

  /** What the reply has to report after a result or an error. */
  function VerdictOf(e: Event): Reply
    requires e.ExecuteResult? || e.ExecuteError?
  {
    if e.ExecuteError? then ErrorReply(e.ename, e.evalue) else OkReply
  }

  function Observe(ph: Phase, e: Event, id: nat): Phase {
    if e == Status(Request(id), true) then (if ph == Unseen then Busy else Broken)
    else if e.ExecuteInput? && e.parent == Request(id) then (if ph == Busy then Announced else Broken)
    else if e.CodeToMax? && e.cell == id then (if ph == Busy || ph == Announced then Handed else Broken)
    else if IsOutputOf(e, id) then
      (if ph != Handed then Broken else if e.Stream? then Handed else Settled(VerdictOf(e)))
    else if IsFreeFor(e, id) then (if ph == Unseen || (ph.Closed? != (e.source.front == -1)) then Broken else ph)
    else if e.ExecuteReply? && e.id == id then
      (if ph == Handed || ph == Settled(e.reply) then Replied(e.reply, ph != Handed) else Broken)
    else if e == Status(Request(id), false) then (if ph.Replied? then Closed(ph.reply, ph.told) else Broken)
    else ph
  }

  function Monitor(trace: seq<Event>, id: nat): Phase {
    if trace == [] then Unseen else Observe(Monitor(trace[..|trace| - 1], id), trace[|trace| - 1], id)
  }

  lemma MonitorSnoc(trace: seq<Event>, e: Event, id: nat)
    ensures Monitor(trace + [e], id) == Observe(Monitor(trace, id), e, id)
  {}

  // --------------------------------------------------------------- the invariant

  /** A cell that may be answered without a result or an error having been published: one that is not
      waited for succeeds, and the kernel's own errors are not published for a silent one. */
  predicate MayBeQuiet(w: World, id: nat, reply: Reply) {
    && id < |w.history.requests| && id < |w.timing.timeouts|
    && if reply.OkReply? then w.timing.timeouts[id] <= 0 else w.history.requests[id].silent
  }

  predicate AboutToReply(w: World, id: nat, ph: Phase, reply: Reply) {
    ph == Settled(reply) || (ph == Handed && MayBeQuiet(w, id, reply))
  }

  /** The phase a pending cell is in, seen from the state. */
  predicate PhaseOk(w: World, id: nat, ph: Phase) {
    if id >= |w.history.requests| then ph == Unseen
    else if id < First(w) && !(Dropping(w.pc) && id + 1 == First(w)) then
      ph.Closed? && (ph.told || MayBeQuiet(w, id, ph.reply))
    else if id < First(w) then AboutToReply(w, id, ph, w.pc.reply)
    else if id == First(w) && w.pc.DropCurrent? then AboutToReply(w, id, ph, w.pc.reply)
    else if id == First(w) && (w.pc.SetDeadline? || Started(w.interp.pending)) then ph == Handed
    else ph == if w.history.requests[id].silent then Busy else Announced
  }

  predicate Tracks(w: World, id: nat) { PhaseOk(w, id, Monitor(w.history.trace, id)) }

  ghost predicate InOrder(w: World) { forall id: nat :: Tracks(w, id) }

  // ------------------------------------------------------------ preservation

  lemma MonitorSnoc2(trace: seq<Event>, e: Event, e': Event, id: nat)
    ensures Monitor(trace + [e, e'], id) == Observe(Observe(Monitor(trace, id), e, id), e', id)
  {
    MonitorSnoc(trace, e, id);
    MonitorSnoc(trace + [e], e', id);
    assert trace + [e, e'] == trace + [e] + [e'];
  }

  lemma ObserveDispatch(ph: Phase, n: nat, code: string, counter: int, id: nat)
    ensures var ph1 := Observe(ph, Status(Request(n), true), id);
      var ph2 := Observe(ph1, ExecuteInput(Request(n), code, counter), id);
      && (id != n ==> ph1 == ph && ph2 == ph)
      && (id == n && ph == Unseen ==> ph1 == Busy && ph2 == Announced)
  {}

  lemma DispatchTrace(w: World, code: string, silent: bool)
    requires !w.interp.hasActive
    ensures var w' := DispatchExecute(w, code, silent);
      var n := |w.history.requests|;
      var busy, input := Status(Request(n), true), ExecuteInput(Request(n), code, w'.interp.executionCount);
      && w'.history.trace == w.history.trace + (if silent then [busy] else [busy, input])
      && w'.history.requests[..n] == w.history.requests && |w'.history.requests| == n + 1
      && w'.history.requests[n].silent == silent
      && w'.history.popped == w.history.popped && w'.interp.pending == w.interp.pending && w'.pc == LoadTimeout
      && w'.timing == w.timing
  {}

  lemma TracksDispatch(w: World, code: string, silent: bool, id: nat)
    requires Inv(w) && Tracks(w, id) && w.pc == Idle
    ensures Tracks(DispatchExecute(w, code, silent), id)
  {
    hide Monitor, Observe;
    var n, trace, w' := |w.history.requests|, w.history.trace, DispatchExecute(w, code, silent);
    assert First(w) + |w.interp.pending| == n && !w.interp.hasActive;
    hide Inv;
    DispatchTrace(w, code, silent);
    hide DispatchExecute;
    var busy, input := Status(Request(n), true), ExecuteInput(Request(n), code, w'.interp.executionCount);
    MonitorSnoc(trace, busy, id);
    MonitorSnoc2(trace, busy, input, id);
    ObserveDispatch(Monitor(trace, id), n, code, w'.interp.executionCount, id);
    assert forall k :: 0 <= k < n ==> w'.history.requests[k] == w.history.requests[k];
  }

  lemma TracksQueue(w: World, id: nat)
    requires Inv(w) && Tracks(w, id) && w.pc == LoadTimeout
    ensures Tracks(QueueCell(w), id)
  {}

  lemma ObserveFree(ph: Phase, e: Event, id: nat)
    requires e.Stream? && e.source.FreeStanding?
    ensures e.parent != Request(id) || (ph != Unseen && (ph.Closed? <==> e.source.front == -1)) ==>
      Observe(ph, e, id) == ph
  {}

  lemma TracksFlush(w: World, id: nat)
    requires Inv(w) && Tracks(w, id) && w.pc == FlushAsync
    ensures Tracks(FlushOne(w), id)
  {
    hide Monitor, Observe;
    var trace, w' := w.history.trace, FlushOne(w);
    if w.impl.asyncQueue == [] {
      assert trace + [] == trace;
      TracksSame(w, w', [], id);
    } else {
      var e := w'.history.trace[|trace|];
      assert w'.history.trace == trace + [e];
      assert e.parent == Request(id) ==> id < |w.history.requests|;
      assert w.interp.pending != [] ==> e.parent == Request(First(w)) && Started(w.interp.pending);
      assert w.interp.pending == [] ==> First(w) == |w.history.requests|;
      hide Inv;
      MonitorSnoc(trace, e, id);
      ObserveFree(Monitor(trace, id), e, id);
    }
  }

  lemma TracksEnterPump(w: World, id: nat)
    requires Inv(w) && Tracks(w, id) && w.pc == PumpTop
    ensures Tracks(EnterPump(w), id)
  {}

  lemma TracksSendCode(w: World, id: nat)
    requires Inv(w) && Tracks(w, id) && w.pc == PushCode
    ensures Tracks(SendCode(w), id)
  {}

  lemma TracksStartClock(w: World, id: nat)
    requires Inv(w) && Tracks(w, id) && w.pc == SetDeadline
    ensures Tracks(StartClock(w), id)
  {}

  /** After an output of the front cell, which is the event `e`. */
  lemma TracksOutput(w: World, w': World, e: Event, id: nat)
    requires Inv(w) && Tracks(w, id) && Started(w.interp.pending) && !w.pc.DropCurrent? && !Dropping(w.pc)
    requires (e.Stream? || e.ExecuteResult? || e.ExecuteError?) && e.parent == Request(First(w))
    requires (e.source.FromKernel? || e.source.FromMax?) && e.source.cell == First(w)
    requires w'.history == w.history.(trace := w.history.trace + [e]) && w'.interp == w.interp && w'.timing == w.timing
    requires if e.Stream? then w'.pc == w.pc else w'.pc == DropCurrent(VerdictOf(e))
    ensures Tracks(w', id)
  {}

  lemma TracksFail(w: World, reply: Reply, id: nat)
    requires Inv(w) && Tracks(w, id) && reply.ErrorReply?
    requires w.pc == LoadAlive || w.pc == LoadShutdown || w.pc == CheckDeadline
    ensures Tracks(Fail(w, reply), id)
  {
    FrontCell(w);
    var p, trace := w.interp.pending[0], w.history.trace;
    if p.silent {
      assert trace + [] == trace;
      TracksSilent(w, reply, id);
    } else {
      var e := ExecuteError(GetContext(w.interp), reply.ename, reply.evalue, FromKernel(p.id));
      TracksOutput(w, Fail(w, reply), e, id);
    }
    hide Tracks, Inv;
  }

  lemma TracksSilent(w: World, reply: Reply, id: nat)
    requires Inv(w) && Tracks(w, id) && Started(w.interp.pending) && !w.pc.DropCurrent? && !Dropping(w.pc)
    requires MayBeQuiet(w, First(w), reply)
    ensures Tracks(w.(pc := DropCurrent(reply)), id)
  {}

  lemma TracksConsume(w: World, id: nat)
    requires Inv(w) && Tracks(w, id) && w.pc == PopResult
    ensures Tracks(Consume(w), id)
  {
    FrontCell(w);
    var p, trace := w.interp.pending[0], w.history.trace;
    if w.impl.resultQueue != [] && w.impl.resultQueue[0].counter == p.counter {
      TracksOutput(w, Consume(w), Output(w.interp, p, w.impl.resultQueue[0]), id);
    } else {
      assert trace + [] == trace;
      TracksSame(w, Consume(w), [], id);
    }
    hide Tracks, Inv;
  }

  lemma TracksDrop(w: World, reply: Reply, id: nat)
    requires Inv(w) && Tracks(w, id) && w.pc == DropCurrent(reply)
    ensures Tracks(DropFront(w, reply), id)
  {}

  lemma ObserveAnswer(ph: Phase, done: nat, reply: Reply, count: int, id: nat)
    ensures var ph' := Observe(Observe(ph, ExecuteReply(done, reply, count), id), Status(Request(done), false), id);
      && (id != done ==> ph' == ph)
      && (id == done && (ph == Handed || ph == Settled(reply)) ==> ph' == Closed(reply, ph != Handed))
  {}

  lemma TracksAnswer(w: World, done: Pending, reply: Reply, id: nat)
    requires Inv(w) && Tracks(w, id) && w.pc == SendReply(done, reply)
    ensures Tracks(AnswerCell(w, done, reply), id)
  {
    hide Monitor, Observe;
    assert done.id == First(w) - 1;
    assert !Started(w.interp.pending);
    hide Inv;
    MonitorSnoc2(w.history.trace, ExecuteReply(done.id, reply, done.counter), Status(Request(done.id), false), id);
    ObserveAnswer(Monitor(w.history.trace, id), done.id, reply, done.counter, id);
  }

  predicate IsStatusOnly(e: Event) {
    e == Status(Control, true) || e == Status(Control, false) || e.ShutdownReply? || e.ShutdownToMax?
  }

  lemma MonitorQuiet(trace: seq<Event>, more: seq<Event>, id: nat)
    requires forall i :: 0 <= i < |more| ==> IsStatusOnly(more[i])
    ensures Monitor(trace + more, id) == Monitor(trace, id)
  {
    if more == [] {
      assert trace + more == trace;
    } else {
      var k := |more| - 1;
      MonitorQuiet(trace, more[..k], id);
      MonitorSnoc(trace + more[..k], more[k], id);
      assert trace + more == trace + more[..k] + [more[k]];
    }
  }

  /** Same requests, same cells, and no event about a request. */
  lemma TracksSame(w: World, w': World, more: seq<Event>, id: nat)
    requires Tracks(w, id)
    requires w'.history.requests == w.history.requests && w'.history.popped == w.history.popped
    requires w'.interp.pending == w.interp.pending && w'.timing.timeouts == w.timing.timeouts
    requires w'.history.trace == w.history.trace + more && forall i :: 0 <= i < |more| ==> IsStatusOnly(more[i])
    requires w'.pc == w.pc || (!w.pc.SetDeadline? && !w.pc.DropCurrent? && !Dropping(w.pc)
                               && !w'.pc.SetDeadline? && !w'.pc.DropCurrent? && !Dropping(w'.pc))
      || (w.pc.DropPending? && w'.pc == SendReply(w.pc.done, w.pc.reply))
    ensures Tracks(w', id)
  {
    hide Monitor;
    MonitorQuiet(w.history.trace, more, id);
  }

  lemma TracksQuiet(w: World, id: nat)
    requires Inv(w) && Tracks(w, id) && ServerReady(w)
    requires w.pc == StorePending || w.pc == ClearResults || w.pc == StoreCurrent || w.pc.DropPending?
    ensures Tracks(ServerStep(w), id)
  {}

  lemma TracksGoto(w: World, pc: Pc, t: Interp, h: History, id: nat)
    requires Tracks(w, id) && t.pending == w.interp.pending && h == w.history.(lastPump := h.lastPump)
    requires !w.pc.SetDeadline? && !w.pc.DropCurrent? && !Dropping(w.pc)
    requires !pc.SetDeadline? && !pc.DropCurrent? && !Dropping(pc)
    ensures Tracks(w.(pc := pc), id) && Tracks(w.(interp := t, pc := pc), id)
    ensures Tracks(w.(interp := t, history := h, pc := pc), id)
  {}

  lemma TracksShutdown(w: World, id: nat)
    requires Tracks(w, id)
    requires w.pc == Idle || w.pc == ExchangeFlag || w.pc == PushShutdown || w.pc == ReplyShutdown
    ensures Tracks(BeginShutdown(w), id) && Tracks(TakeFlag(w), id) && Tracks(EndShutdown(w), id)
    ensures Tracks(Goto(AnnounceShutdown(w), ReplyShutdown), id)
  {
    hide Tracks;
    assert w.history.trace + [] == w.history.trace;
    TracksSame(w, BeginShutdown(w), [Status(Control, true)], id);
    TracksSame(w, TakeFlag(w), [], id);
    TracksSame(w, EndShutdown(w), [ShutdownReply, Status(Control, false)], id);
    TracksSame(w, Goto(AnnounceShutdown(w), ReplyShutdown), [ShutdownToMax(OutletMessage("shutdown", [], 1, 0))], id);
  }

  lemma TracksServer(w: World, id: nat)
    requires Inv(w) && Tracks(w, id) && ServerReady(w)
    ensures Tracks(ServerStep(w), id)
  {
    hide Inv, Tracks;
    match w.pc
    case LoadTimeout => TracksQueue(w, id);
    case FlushAsync => TracksFlush(w, id);
    case PumpTop => TracksEnterPump(w, id);
    case PushCode => TracksSendCode(w, id);
    case SetDeadline => TracksStartClock(w, id);
    case LoadAlive => TracksGoto(w, LoadShutdown, w.interp, w.history, id); TracksFail(w, SHUTTING_DOWN, id);
    case LoadShutdown => TracksGoto(w, PopResult, w.interp, w.history, id); TracksFail(w, SHUTTING_DOWN, id);
    case PopResult => TracksConsume(w, id);
    case CheckDeadline =>
      TracksGoto(w, Idle, w.interp.(hasActive := false), w.history.(lastPump := w.clock), id);
      TracksFail(w, TimeoutReply(w.interp.pending[0]), id);
    case DropCurrent(reply) => TracksDrop(w, reply, id);
    case SendReply(done, reply) => TracksAnswer(w, done, reply, id);
    case ExchangeFlag => TracksShutdown(w, id);
    case PushShutdown => TracksShutdown(w, id);
    case ReplyShutdown => TracksShutdown(w, id);
    case Idle =>
    case _ => TracksQuiet(w, id);
  }

  lemma TracksMax(w: World, a: MaxAction, id: nat)
    requires Tracks(w, id) && MaxEnabled(w, a)
    ensures Tracks(MaxStep(w, a), id)
  {}

  lemma InOrderNext(w: World, a: Action)
    requires Inv(w) && InOrder(w) && Enabled(w, a)
    ensures InOrder(Next(w, a))
  {
    hide Inv, Tracks, ServerStep, MaxStep, BeginShutdown, DispatchExecute, Activate;
    forall id: nat ensures Tracks(Next(w, a), id) {
      assert Tracks(w, id);
      match a
      case Execute(code, silent) => TracksDispatch(w, code, silent, id);
      case Server => TracksServer(w, id);
      case MaxDoes(m) => TracksMax(w, m, id);
      case Tick =>
        assert w.history.trace + [] == w.history.trace;
        assert Activate(w.interp).pending == w.interp.pending by { ActivateKeeps(w.interp); }
        TracksSame(w, BeginTick(w), [], id);
      case TestStop =>
        assert w.history.trace + [] == w.history.trace;
        TracksSame(w, LoopOn(w), [], id);
      case ClientShutdown => TracksShutdown(w, id);
      case Advance(dt) =>
        assert w.history.trace + [] == w.history.trace;
        TracksSame(w, w.(clock := w.clock + dt), [], id);
    }
  }

  lemma ActivateKeeps(t: Interp)
    ensures Activate(t).pending == t.pending
  {}
}
