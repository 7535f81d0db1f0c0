/**
 A message is never loaded for a request later than the cell that shows it, so a cell whose counter no
 earlier request has can only show messages of its own.
 */
module ProtocolOwners {
  import opened Protocol
  import opened ProtocolInvariant

  predicate NoneAhead(ms: seq<ResultMessage>, first: nat) {
    forall i :: 0 <= i < |ms| ==> ms[i].loadedFor <= first
  }

  predicate NoFlightAhead(fs: seq<InFlight>, first: nat) {
    forall i :: 0 <= i < |fs| ==> fs[i].message.loadedFor <= first
  }

  /** Output taken from Max was loaded for its cell or an earlier one. */
  predicate NotFromLater(e: Event) {
    (e.Stream? || e.ExecuteResult? || e.ExecuteError?) && e.source.FromMax? ==>
      e.source.message.loadedFor <= e.source.cell
  }

  predicate TraceNotAhead(trace: seq<Event>) { forall i :: 0 <= i < |trace| ==> NotFromLater(trace[i]) }

  predicate NotAhead(w: World) {
    && NoneAhead(w.impl.resultQueue, First(w)) && NoFlightAhead(w.inFlight, First(w)) && TraceNotAhead(w.history.trace)
  }

  lemma NotAheadGrows(w: World, w': World)
    requires NotAhead(w) && First(w) <= First(w') && w'.inFlight == w.inFlight
    requires w'.impl.resultQueue == w.impl.resultQueue || w'.impl.resultQueue == []
    requires w.history.trace <= w'.history.trace
    requires forall i :: |w.history.trace| <= i < |w'.history.trace| ==> NotFromLater(w'.history.trace[i])
    ensures NotAhead(w')
  {
    hide NotFromLater;
    forall i | 0 <= i < |w'.history.trace| ensures NotFromLater(w'.history.trace[i]) {
      if i < |w.history.trace| { assert w'.history.trace[i] == w.history.trace[i]; }
    }
  }

  /** Every server step but a pop moves no message from Max. */
  lemma ServerMovesNone(w: World)
    requires ServerReady(w) && w.pc != PopResult
    ensures var w' := ServerStep(w);
      && First(w) <= First(w') && w'.inFlight == w.inFlight && w.history.trace <= w'.history.trace
      && (w'.impl.resultQueue == w.impl.resultQueue || w'.impl.resultQueue == [])
      && forall i :: |w.history.trace| <= i < |w'.history.trace| ==> NotFromLater(w'.history.trace[i])
  {
    hide TimeoutReply, AsLine, CodeMessage, GetContext, AfterStart, Activate;
  }

  lemma NotAheadConsume(w: World)
    requires Inv(w) && NotAhead(w) && w.pc == PopResult
    ensures NotAhead(Consume(w))
  {
    FrontCell(w);
    hide Inv, AsLine, GetContext;
    var w', trace := Consume(w), w.history.trace;
    assert forall i :: 0 <= i < |trace| ==> NotFromLater(trace[i]);
    if w.impl.resultQueue != [] { assert w.impl.resultQueue[0].loadedFor <= First(w); }
  }

  lemma HolderIsFirst(w: World)
    requires Inv(w)
    ensures w.history.holder <= First(w)
  {
    hide CellsOk, CountersOk, StartedOk, ActiveOk;
  }

  lemma NotAheadMax(w: World, a: MaxAction)
    requires Inv(w) && NotAhead(w) && MaxEnabled(w, a)
    ensures NotAhead(MaxStep(w, a))
  {
    HolderIsFirst(w);
    hide Inv;
    var w' := MaxStep(w, a);
    assert forall i :: 0 <= i < |w.history.trace| ==> NotFromLater(w.history.trace[i]);
    hide NotFromLater;
    if a.CallStop? { assert NotFromLater(ShutdownToMax(OutletMessage("shutdown", [], 1, 0))) by { Notice(); } }
  }

  lemma Notice()
    ensures NotFromLater(ShutdownToMax(OutletMessage("shutdown", [], 1, 0)))
  {}

  lemma NotAheadNext(w: World, a: Action)
    requires Inv(w) && NotAhead(w) && Enabled(w, a)
    ensures NotAhead(Next(w, a))
  {
    hide Inv, NotAhead, ServerStep, MaxStep, Consume;
    match a
    case Execute(code, silent) => NotAheadGrows(w, DispatchExecute(w, code, silent));
    case Server => NotAheadServer(w);
    case MaxDoes(m) => NotAheadMax(w, m);
    case Tick => NotAheadGrows(w, BeginTick(w));
    case TestStop => NotAheadGrows(w, LoopOn(w));
    case ClientShutdown => NotAheadGrows(w, BeginShutdown(w));
    case Advance(dt) => NotAheadGrows(w, w.(clock := w.clock + dt));
  }

  lemma NotAheadServer(w: World)
    requires Inv(w) && NotAhead(w) && ServerReady(w)
    ensures NotAhead(ServerStep(w))
  {
    hide Inv, NotAhead, Consume;
    if w.pc == PopResult {
      NotAheadConsume(w);
    } else {
      ServerMovesNone(w);
      hide ServerStep;
      NotAheadGrows(w, ServerStep(w));
    }
  }

  // ---------------------------------------------------------------------- counters

  /** Counters never go down. */
  lemma {:induction false} CountersRise(rs: seq<Request>, i: nat, j: nat)
    requires CountersOk(rs) && i <= j < |rs|
    ensures rs[i].counter <= rs[j].counter
    decreases j
  {
    if i < j {
      assert rs[j].counter == CounterBefore(rs, j) + if rs[j].silent then 0 else 1;
      CountersRise(rs, i, j - 1);
    }
  }

  /** A request that is not silent has a counter no earlier request has. */
  lemma LoudIsNew(rs: seq<Request>, i: nat, j: nat)
    requires CountersOk(rs) && i < j < |rs| && !rs[j].silent
    ensures rs[i].counter < rs[j].counter
  {
    assert rs[j].counter == CounterBefore(rs, j) + 1;
    CountersRise(rs, i, j - 1);
  }

  /** A counter is positive exactly from the first request on that is not silent. */
  lemma {:induction false} PositiveFromFirstLoud(rs: seq<Request>, j: nat)
    requires CountersOk(rs) && j < |rs|
    ensures rs[j].counter >= 0
    ensures rs[j].counter > 0 <==> exists i :: 0 <= i <= j && !rs[i].silent
    decreases j
  {
    assert rs[j].counter == CounterBefore(rs, j) + if rs[j].silent then 0 else 1;
    if j > 0 { PositiveFromFirstLoud(rs, j - 1); }
  }
}
