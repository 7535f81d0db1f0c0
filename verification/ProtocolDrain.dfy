/**
 Teardown: once a pump begins with the shutdown flag set or `alive` cleared, that one pump answers
 every pending cell, in a bounded number of server operations, whatever Max does meanwhile.
 */
module ProtocolDrain {
  import opened Protocol
  import opened ProtocolInvariant

  predicate Stopping(w: World) { Stops(w.impl.alive, w.impl.shutdownRequested) }

  /** A pump under way that will not go back to waiting. */
  predicate Draining(w: World) {
    && Stopping(w)
    && (w.pc.PumpTop? || w.pc.ClearResults? || w.pc.StoreCurrent? || w.pc.PushCode? || w.pc.SetDeadline?
        || w.pc.LoadAlive? || w.pc.LoadShutdown? || w.pc.DropCurrent? || w.pc.DropPending? || w.pc.SendReply?)
    && (w.pc.LoadShutdown? ==> w.impl.shutdownRequested)
  }

  /** An upper bound on the server operations left in a draining pump. */
  function Left(w: World): nat {
    10 * |w.interp.pending|
    + match w.pc
      case DropPending(_, _) => 10
      case SendReply(_, _) => 9
      case PumpTop => 8
      case ClearResults => 7
      case StoreCurrent => 6
      case PushCode => 5
      case SetDeadline => 4
      case LoadAlive => 3
      case LoadShutdown => 2
      case DropCurrent(_) => 1
      case _ => 0
  }

  /** A server operation ends the pump with nothing pending, or gets closer to that. */
  lemma DrainServer(w: World)
    requires Inv(w) && Draining(w)
    ensures var w' := ServerStep(w);
      && w'.history.requests == w.history.requests
      && (if w'.pc == Idle then w'.interp.pending == [] else Draining(w') && Left(w') < Left(w))
  {}

  lemma DrainOther(w: World, a: Action)
    requires Draining(w) && Enabled(w, a) && !a.Server?
    ensures var w' := Next(w, a);
      Draining(w') && Left(w') == Left(w) && w'.history.requests == w.history.requests
  {}

  function Cost(a: Action): nat { if a.Server? then 1 else 0 }

  lemma DrainStep(w: World, a: Action)
    requires Inv(w) && Draining(w) && Enabled(w, a)
    ensures var w' := Next(w, a);
      && w'.history.requests == w.history.requests
      && (if w'.pc == Idle then w'.interp.pending == [] && Cost(a) <= Left(w)
          else Draining(w') && Left(w') + Cost(a) <= Left(w))
  {
    if a.Server? {
      DrainServer(w);
      LeftPos(w);
      hide ServerStep, Inv, Left;
    } else {
      DrainOther(w, a);
    }
  }

  lemma LeftPos(w: World)
    requires Draining(w)
    ensures Left(w) > 0 && w.pc != Idle
  {}

  function ServerCount(actions: seq<Action>): nat {
    if actions == [] then 0 else ServerCount(actions[..|actions| - 1]) + Cost(actions[|actions| - 1])
  }

  lemma ServerCountSnoc(actions: seq<Action>, i: nat, j: nat)
    requires i <= j < |actions|
    ensures ServerCount(actions[i..j + 1]) == ServerCount(actions[i..j]) + Cost(actions[j])
  {
    assert actions[i..j + 1][..j - i] == actions[i..j];
  }

  lemma DrainBegins(w: World)
    requires w.pc == PumpTop && Stopping(w)
    ensures Draining(w)
  {}

  /** From the start of a pump in a stopping kernel, up to any later point not past its end. */
  lemma {:induction false} DrainRun(worlds: seq<World>, actions: seq<Action>, i: nat, j: nat)
    requires IsRun(worlds, actions) && i <= j < |worlds|
    requires worlds[i].pc == PumpTop && Stopping(worlds[i])
    requires forall k :: i <= k < j ==> worlds[k].pc != Idle
    requires forall k :: 0 <= k < |worlds| ==> Inv(worlds[k])
    ensures worlds[j].history.requests == worlds[i].history.requests
    ensures ServerCount(actions[i..j]) <= Left(worlds[i])
    ensures if worlds[j].pc == Idle then worlds[j].interp.pending == []
            else Draining(worlds[j]) && ServerCount(actions[i..j]) + Left(worlds[j]) <= Left(worlds[i])
    decreases j
  {
    hide Inv, Draining, Left, Stopping, Enabled, Next, Init, Cost;
    DrainBegins(worlds[i]);
    if i < j {
      DrainRun(worlds, actions, i, j - 1);
      ServerCountSnoc(actions, i, j - 1);
      RunStep(worlds, actions, j - 1);
      hide IsRun, ServerCount;
      DrainStep(worlds[j - 1], actions[j - 1]);
    } else {
      assert actions[i..j] == [];
    }
  }

  // --------------------------------------------------------------- the wait of a stop

  /** A stopping kernel with nothing left to wait for: the queue is empty, or a pump that empties it is
      under way or about to begin. */
  predicate Closing(w: World) {
    Stopping(w) && (w.interp.pending == [] || w.pc.StorePending? || Draining(w))
  }

  /** What the wait in `kernel_shutdown` reads. */
  lemma ZeroIsClosing(w: World)
    requires Inv(w) && Stopping(w) && w.impl.pendingExecutions == 0
    ensures Closing(w)
  {
    hide CellsOk, CountersOk, CurrentOk, ActiveOk, StartedOk;
  }

  lemma ClosingServer(w: World)
    requires Inv(w) && Closing(w) && !Draining(w) && ServerReady(w)
    ensures Closing(ServerStep(w)) && ServerStep(w).history.requests == w.history.requests
  {
    hide CellsOk, CountersOk, CurrentOk, ActiveOk, StartedOk, AsLine, GetContext, Output;
  }

  lemma ClosingMax(w: World, a: MaxAction)
    requires Closing(w) && MaxEnabled(w, a)
    ensures Closing(MaxStep(w, a)) && MaxStep(w, a).history.requests == w.history.requests
  {
    hide LoadForResult, LoadForPrint;
  }

  lemma ClosingStep(w: World, a: Action)
    requires Inv(w) && Closing(w) && Enabled(w, a) && !a.Execute?
    ensures Closing(Next(w, a)) && Next(w, a).history.requests == w.history.requests
  {
    if Draining(w) {
      DrainStep(w, a);
      StaysStopping(w, a);
      hide Next, Enabled, Inv, Left;
    } else if a.Server? {
      ClosingServer(w);
      hide ServerStep, Inv, Draining;
    } else if a.MaxDoes? {
      ClosingMax(w, a.action);
      hide MaxStep, Inv, Draining;
    } else {
      hide Inv;
    }
  }

  lemma StaysStopping(w: World, a: Action)
    requires Stopping(w) && Enabled(w, a)
    ensures Stopping(Next(w, a))
  {
    hide TimeoutReply, AsLine, GetContext, Output, CodeMessage, LoadForResult, LoadForPrint;
  }
}
