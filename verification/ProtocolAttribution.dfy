/**
 Whose output is it? Every published message carries the context of the cell being served, and every
 stamped message a cell publishes was loaded by Max while `current_execution` held that cell's
 counter, even when the load and the push straddle the end of one cell and the start of the next.
 */
module ProtocolAttribution {
  import opened Protocol
  import opened ProtocolInvariant

  // -------------------------------------------------------------- the clauses

  /** A stamped message: its counter is that of the request it was loaded for. */
  predicate StampOk(rs: seq<Request>, m: ResultMessage) {
    0 <= m.loadedFor < |rs| && m.counter == rs[m.loadedFor].counter && m.counter != 0
  }

  /** A free-standing message: loaded while `current_execution` was 0, that is, while no cell was
      started or the started cell had counter 0. */
  predicate FreeOk(rs: seq<Request>, m: ResultMessage) {
    && m.IsStream() && !m.IsError() && m.counter == 0
    && (m.loadedFor == -1 || (0 <= m.loadedFor < |rs| && rs[m.loadedFor].counter == 0))
  }

  predicate InFlightOk(rs: seq<Request>, f: InFlight) {
    if f.stamped then StampOk(rs, f.message) else FreeOk(rs, f.message)
  }

  predicate QueuesOk(rs: seq<Request>, impl: Impl, flying: seq<InFlight>) {
    && (forall i :: 0 <= i < |impl.resultQueue| ==> StampOk(rs, impl.resultQueue[i]))
    && (forall i :: 0 <= i < |impl.asyncQueue| ==> FreeOk(rs, impl.asyncQueue[i]))
    && (forall i :: 0 <= i < |flying| ==> InFlightOk(rs, flying[i]))
  }

  predicate SourceOk(rs: seq<Request>, parent: Context, s: Source) {
    match s
    case FromKernel(cell) => cell < |rs| && parent == Request(cell)
    case FromMax(cell, m) => cell < |rs| && parent == Request(cell) && StampOk(rs, m) && m.counter == rs[cell].counter
    case FreeStanding(front, m) =>
      && FreeOk(rs, m)
      && (if front >= 0 then front < |rs| && parent == Request(front)
          else parent == NoRequest || (parent.Request? && parent.id < |rs|))
  }

  predicate EventOk(rs: seq<Request>, e: Event) {
    match e
    case ExecuteInput(parent, code, count) =>
      parent.Request? && parent.id < |rs| && rs[parent.id] == Req(code, false, count)
    case Stream(parent, _, _, source) => SourceOk(rs, parent, source)
    case ExecuteResult(parent, count, _, _, source) =>
      SourceOk(rs, parent, source) && source.FromMax? && count == rs[source.cell].counter
    case ExecuteError(parent, _, _, source) => SourceOk(rs, parent, source)
    case ExecuteReply(id, _, count) => id < |rs| && count == rs[id].counter
    case CodeToMax(cell, m) => cell < |rs| && IsCodeFor(m, rs[cell].code, rs[cell].counter)
    case _ => true
  }

  predicate TraceOk(rs: seq<Request>, trace: seq<Event>) {
    forall i :: 0 <= i < |trace| ==> EventOk(rs, trace[i])
  }

  predicate Attributed(w: World) {
    TraceOk(w.history.requests, w.history.trace) && QueuesOk(w.history.requests, w.impl, w.inFlight)
  }

  // ------------------------------------------------------------ preservation

  lemma TraceSnoc(rs: seq<Request>, trace: seq<Event>, e: Event)
    requires TraceOk(rs, trace) && EventOk(rs, e)
    ensures TraceOk(rs, trace + [e])
  {}

  lemma TraceAppend(rs: seq<Request>, trace: seq<Event>, more: seq<Event>)
    requires TraceOk(rs, trace) && TraceOk(rs, more)
    ensures TraceOk(rs, trace + more)
  {}

  lemma TraceMono(rs: seq<Request>, r: Request, trace: seq<Event>)
    requires TraceOk(rs, trace)
    ensures TraceOk(rs + [r], trace)
  {}

  lemma QueuesMono(rs: seq<Request>, r: Request, impl: Impl, flying: seq<InFlight>)
    requires QueuesOk(rs, impl, flying)
    ensures QueuesOk(rs + [r], impl, flying)
  {}

  lemma AttributedDispatch(w: World, code: string, silent: bool)
    requires Inv(w) && Attributed(w) && w.pc == Idle
    ensures Attributed(DispatchExecute(w, code, silent))
  {
    var w' := DispatchExecute(w, code, silent);
    var rs, trace, counter := w.history.requests, w.history.trace, w'.interp.executionCount;
    var r := Req(code, silent, counter);
    TraceMono(rs, r, trace);
    QueuesMono(rs, r, w.impl, w.inFlight);
    TraceSnoc(rs + [r], trace, Status(Request(|rs|), true));
    var input := if silent then [] else [ExecuteInput(Request(|rs|), code, counter)];
    TraceAppend(rs + [r], trace + [Status(Request(|rs|), true)], input);
    hide TraceOk, QueuesOk, QueueOk, StartedOk, CurrentOk, CountersOk;
  }

  lemma AttributedFlush(w: World)
    requires Inv(w) && Attributed(w) && w.pc == FlushAsync
    ensures Attributed(FlushOne(w))
  {}

  lemma AttributedSend(w: World)
    requires Inv(w) && Attributed(w) && w.pc == PushCode
    ensures Attributed(SendCode(w))
  {}

  lemma AttributedFail(w: World, reply: Reply)
    requires Inv(w) && Attributed(w) && reply.ErrorReply?
    requires w.pc == LoadAlive || w.pc == LoadShutdown || w.pc == CheckDeadline
    ensures Attributed(Fail(w, reply))
  {}

  lemma AttributedConsume(w: World)
    requires Inv(w) && Attributed(w) && w.pc == PopResult
    ensures Attributed(Consume(w))
  {}

  lemma AttributedAnswer(w: World, done: Pending, reply: Reply)
    requires Inv(w) && Attributed(w) && w.pc == SendReply(done, reply)
    ensures Attributed(AnswerCell(w, done, reply))
  {}

  lemma AttributedSame(w: World, w': World, events: seq<Event>)
    requires Attributed(w)
    requires forall i :: 0 <= i < |events| ==> events[i].Status? || events[i].ShutdownReply? || events[i].ShutdownToMax?
    requires w'.history.requests == w.history.requests && w'.history.trace == w.history.trace + events
    requires w'.impl.resultQueue == w.impl.resultQueue || w'.impl.resultQueue == []
    requires w'.impl.asyncQueue == w.impl.asyncQueue && w'.inFlight == w.inFlight
    ensures Attributed(w')
  {}

  lemma AttributedQuiet(w: World)
    requires Attributed(w) && ServerReady(w)
    requires w.pc == LoadTimeout || w.pc == StorePending || w.pc == PumpTop || w.pc == ClearResults
      || w.pc == StoreCurrent
      || w.pc == SetDeadline || w.pc.DropCurrent? || w.pc.DropPending?
    ensures Attributed(ServerStep(w))
  {}

  lemma AttributedShutdown(w: World)
    requires Attributed(w)
    ensures Attributed(BeginShutdown(w)) && Attributed(TakeFlag(w)) && Attributed(EndShutdown(w))
    ensures Attributed(Goto(AnnounceShutdown(w), ReplyShutdown)) && Attributed(AnnounceShutdown(w))
  {}

  lemma AttributedGoto(w: World, pc: Pc, t: Interp, h: History)
    requires Attributed(w) && h == w.history.(lastPump := h.lastPump)
    ensures Attributed(w.(pc := pc)) && Attributed(w.(interp := t, pc := pc))
    ensures Attributed(w.(interp := t, history := h, pc := pc))
  {}

  lemma AttributedServer(w: World)
    requires Inv(w) && Attributed(w) && ServerReady(w)
    ensures Attributed(ServerStep(w))
  {
    hide Inv, Attributed;
    match w.pc
    case FlushAsync => AttributedFlush(w);
    case PushCode => AttributedSend(w);
    case LoadAlive => AttributedGoto(w, LoadShutdown, w.interp, w.history); AttributedFail(w, SHUTTING_DOWN);
    case LoadShutdown => AttributedGoto(w, PopResult, w.interp, w.history); AttributedFail(w, SHUTTING_DOWN);
    case PopResult => AttributedConsume(w);
    case CheckDeadline =>
      AttributedGoto(w, Idle, w.interp.(hasActive := false), w.history.(lastPump := w.clock));
      AttributedFail(w, TimeoutReply(w.interp.pending[0]));
    case SendReply(done, reply) => AttributedAnswer(w, done, reply);
    case ExchangeFlag => AttributedShutdown(w);
    case PushShutdown => AttributedShutdown(w);
    case ReplyShutdown => AttributedShutdown(w);
    case Idle =>
    case _ => AttributedQuiet(w);
  }

  /** What a load produces is stamped with the counter of the cell that owns `current_execution`. */
  lemma LoadOk(w: World, text: string, ename: string, evalue: string, mime: string, stream: string)
    requires Inv(w)
    ensures InFlightOk(w.history.requests,
      LoadForResult(w.impl.currentExecution, w.history.holder, text, ename, evalue, mime))
    ensures stream == "stdout" || stream == "stderr"
      ==> InFlightOk(w.history.requests, LoadForPrint(w.impl.currentExecution, w.history.holder, stream, text))
  {}

  lemma QueuesLoad(rs: seq<Request>, impl: Impl, flying: seq<InFlight>, f: InFlight)
    requires QueuesOk(rs, impl, flying) && InFlightOk(rs, f)
    ensures QueuesOk(rs, impl, flying + [f])
  {}

  lemma QueuesPush(rs: seq<Request>, impl: Impl, flying: seq<InFlight>, i: nat)
    requires QueuesOk(rs, impl, flying) && i < |flying|
    ensures var rest := flying[..i] + flying[i + 1..];
      && (flying[i].stamped ==> QueuesOk(rs, impl.(resultQueue := impl.resultQueue + [flying[i].message]), rest))
      && (!flying[i].stamped ==> QueuesOk(rs, impl.(asyncQueue := impl.asyncQueue + [flying[i].message]), rest))
  {}

  lemma AttributedMax(w: World, a: MaxAction)
    requires Inv(w) && Attributed(w) && MaxEnabled(w, a)
    ensures Attributed(MaxStep(w, a))
  {
    hide Inv, TraceOk, InFlightOk, LoadForResult, LoadForPrint, StampOk, FreeOk;
    match a
    case LoadResult(text, ename, evalue, mime) =>
      LoadOk(w, text, ename, evalue, mime, "stdout");
      hide QueuesOk;
      QueuesLoad(w.history.requests, w.impl, w.inFlight,
                 LoadForResult(w.impl.currentExecution, w.history.holder, text, ename, evalue, mime));
    case LoadPrint(stream, text) =>
      LoadOk(w, text, "", "", "", stream);
      hide QueuesOk;
      QueuesLoad(w.history.requests, w.impl, w.inFlight,
                 LoadForPrint(w.impl.currentExecution, w.history.holder, stream, text));
    case Push(i) =>
      hide QueuesOk;
      QueuesPush(w.history.requests, w.impl, w.inFlight, i);
    case CallStop =>
      hide QueuesOk;
      if !w.impl.shutdownRequested {
        assert QueuesOk(w.history.requests, w.impl.(shutdownRequested := true), w.inFlight);
        AttributedShutdown(w.(impl := w.impl.(shutdownRequested := true)));
      }
    case _ =>
  }

  lemma AttributedNext(w: World, a: Action)
    requires Inv(w) && Attributed(w) && Enabled(w, a)
    ensures Attributed(Next(w, a))
  {
    hide Inv, Attributed, ServerStep, MaxStep, BeginShutdown, DispatchExecute, Activate;
    match a
    case Execute(code, silent) => AttributedDispatch(w, code, silent);
    case Server => AttributedServer(w);
    case MaxDoes(m) => AttributedMax(w, m);
    case Tick =>
      assert w.history.trace + [] == w.history.trace;
      AttributedSame(w, BeginTick(w), []);
    case TestStop =>
      assert w.history.trace + [] == w.history.trace;
      AttributedSame(w, LoopOn(w), []);
    case ClientShutdown => AttributedShutdown(w);
    case Advance(dt) =>
      assert w.history.trace + [] == w.history.trace;
      AttributedSame(w, w.(clock := w.clock + dt), []);
  }
}
