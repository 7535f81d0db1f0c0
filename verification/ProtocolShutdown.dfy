/**
 The end of the server's loop. A client's shutdown request stops the server in its handler, so the loop
 ends before another pump: what is pending then is never answered, and its count outlives the kernel.
 */
module ProtocolShutdown {
  import opened Protocol
  import opened ProtocolInvariant

  /** A client's shutdown request is being handled, or has been and the loop ends. */
  predicate GoingDown(w: World) {
    if w.pc == Idle then w.loop.stopAsked && w.loop.turn != Polling
    else (w.pc.ExchangeFlag? || w.pc.PushShutdown? || w.pc.ReplyShutdown?) && w.loop.turn == Testing
  }

  /** Handlers start from the poll, and a shutdown flag that Max has not stored is a client's. */
  predicate LoopOk(w: World) {
    && (w.pc != Idle ==> w.loop.turn == Testing)
    && (w.impl.shutdownRequested && !w.history.stopStored ==> GoingDown(w))
  }

  /** What going down leaves alone. */
  predicate Stranding(w: World, w': World) {
    && w'.interp.pending == w.interp.pending && w'.history.requests == w.history.requests
    && w'.impl.pendingExecutions == w.impl.pendingExecutions && w'.history.popped == w.history.popped
  }

  lemma MaxKeepsLoop(w: World, a: MaxAction)
    requires MaxEnabled(w, a)
    ensures var w' := MaxStep(w, a);
      && w'.loop.turn == w.loop.turn && (w.loop.stopAsked ==> w'.loop.stopAsked) && w'.pc == w.pc
      && (w'.impl.shutdownRequested && !w'.history.stopStored ==>
            w.impl.shutdownRequested && !w.history.stopStored)
  {}

  /** No action answers, drops or queues anything while the loop goes down. */
  lemma DownNext(w: World, a: Action)
    requires GoingDown(w) && Enabled(w, a)
    ensures GoingDown(Next(w, a)) && Stranding(w, Next(w, a))
    ensures !a.Execute? && !a.Tick?
  {
    if a.MaxDoes? {
      MaxFrame(w, a.action);
      MaxKeepsLoop(w, a.action);
      hide MaxStep;
    }
  }

  lemma LoopServer(w: World)
    requires LoopOk(w) && ServerReady(w)
    ensures LoopOk(ServerStep(w))
  {
    hide TimeoutReply, Output, AsLine, CodeMessage, GetContext, AfterStart, AfterOutput;
  }

  lemma LoopNext(w: World, a: Action)
    requires LoopOk(w) && Enabled(w, a)
    ensures LoopOk(Next(w, a))
  {
    if a.Server? {
      LoopServer(w);
      hide ServerStep;
    } else if a.MaxDoes? {
      MaxKeepsLoop(w, a.action);
      hide MaxStep;
    }
  }

  // ------------------------------------------------------------ the pending count

  /** Until a cell has been queued, the pending count is the one the start found. */
  predicate CountOk(w: World, found: int) {
    && (w.timing.timeouts == [] ==> w.impl.pendingExecutions == found)
    && (w.pc.StorePending? || Dropping(w.pc) ==> w.timing.timeouts != [])
  }

  lemma CountServer(w: World, found: int)
    requires Inv(w) && CountOk(w, found) && ServerReady(w)
    ensures CountOk(ServerStep(w), found)
  {
    if w.pc.DropCurrent? { FrontCell(w); }
    hide TimeoutReply, Output, AsLine, CodeMessage, GetContext, CellsOk, CountersOk, CurrentOk, ActiveOk;
  }

  lemma CountNext(w: World, a: Action, found: int)
    requires Inv(w) && CountOk(w, found) && Enabled(w, a)
    ensures CountOk(Next(w, a), found)
  {
    if a.Server? {
      CountServer(w, found);
      hide ServerStep, Inv;
    } else if a.MaxDoes? {
      MaxFrame(w, a.action);
      hide MaxStep, Inv;
    } else {
      hide Inv;
    }
  }

  /** Between handlers, the count is right exactly when a cell has been queued or the start found 0. */
  lemma CountBetween(w: World, found: int)
    requires Inv(w) && CountOk(w, found) && w.pc == Idle
    ensures w.impl.pendingExecutions == |w.interp.pending| <==> w.history.requests != [] || found == 0
  {
    hide CellsOk, CountersOk, CurrentOk, ActiveOk, StartedOk;
  }

  /** What `kernel_start` makes of the struct another start has left. */
  function NextStart(w: World, seconds: int): World {
    World(Impl([], [], w.impl.outletQueue, true, false, 0, w.impl.pendingExecutions, seconds),
          Interp([], NoRequest, NoRequest, false, 0), Idle, [], w.clock,
          History([], 0, [], [], w.impl.outletQueue, -1, false, false, w.clock),
          Timing([], [], [], []), Loop(false, Testing))
  }

  lemma NextStartBegins(w: World, seconds: int)
    ensures Init(NextStart(w, seconds))
    ensures NextStart(w, seconds).impl.pendingExecutions == w.impl.pendingExecutions
  {}
}
