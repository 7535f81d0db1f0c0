/**
 From a published message back to the Max-thread load that produced it. `NoInvention` says that one
 action never makes up a message; over a run this gives every published message its load.
 */
module ProtocolLoads {
  import opened Protocol

  // ---------------------------------------------------- messages have a load

  predicate Carries(e: Event, m: ResultMessage) {
    && (e.Stream? || e.ExecuteResult? || e.ExecuteError?)
    && (e.source.FromMax? || e.source.FreeStanding?)
    && e.source.message == m
  }

  predicate InTrace(trace: seq<Event>, m: ResultMessage) {
    exists i :: 0 <= i < |trace| && Carries(trace[i], m)
  }

  predicate Flying(flying: seq<InFlight>, m: ResultMessage) {
    exists i :: 0 <= i < |flying| && flying[i].message == m
  }

  /** The message is in flight, queued or published. */
  predicate Mentions(w: World, m: ResultMessage) {
    || m in w.impl.resultQueue || m in w.impl.asyncQueue
    || Flying(w.inFlight, m)
    || InTrace(w.history.trace, m)
  }

  /** The action is a Max thread's load of `current_execution` for the message: what Max said, stamped with
      the counter that is current. While none is, an error is a line on stderr and a result one on stdout. */
  predicate Loads(w: World, a: Action, m: ResultMessage) {
    && a.MaxDoes? && m.counter == w.impl.currentExecution && m.loadedFor == w.history.holder
    && match a.action
       case LoadResult(text, ename, evalue, mime) =>
         if w.impl.currentExecution != 0 then
           && m.text == text && m.errorName == ename && m.errorValue == evalue && m.streamName == ""
           && m.mimeType == mime
         else
           && m.errorName == "" && m.mimeType == mime
           && (if ename != "" then m.streamName == "stderr" && m.text == ename + ": " + evalue && m.errorValue == ""
               else m.streamName == "stdout" && m.text == text && m.errorValue == evalue)
       case LoadPrint(stream, text) =>
         m.text == text && m.streamName == stream && m.errorName == "" && m.errorValue == "" && m.mimeType == ""
       case _ => false
  }

  /** An action that publishes nothing carrying a message and adds none to the queues. */
  lemma QuietInvents(w: World, w': World, more: seq<Event>, m: ResultMessage)
    requires w'.history.trace == w.history.trace + more
    requires forall i :: 0 <= i < |more| && Carries(more[i], m) ==> m in w.impl.resultQueue || m in w.impl.asyncQueue
    requires m in w'.impl.resultQueue ==> m in w.impl.resultQueue
    requires m in w'.impl.asyncQueue ==> m in w.impl.asyncQueue
    requires Flying(w'.inFlight, m) ==> Flying(w.inFlight, m) || m in w.impl.resultQueue || m in w.impl.asyncQueue
    requires Mentions(w', m)
    ensures Mentions(w, m)
  {}

  lemma ServerInvents(w: World, m: ResultMessage)
    requires ServerReady(w) && Mentions(ServerStep(w), m)
    requires !w.pc.FlushAsync? && !w.pc.PopResult?
    ensures Mentions(w, m)
  {}

  lemma FlushInvents(w: World, m: ResultMessage)
    requires Mentions(FlushOne(w), m)
    ensures Mentions(w, m)
  {}

  lemma ConsumeInvents(w: World, m: ResultMessage)
    requires w.interp.pending != [] && Mentions(Consume(w), m)
    ensures Mentions(w, m)
  {}

  lemma MaxInvents(w: World, a: MaxAction, m: ResultMessage)
    requires MaxEnabled(w, a) && Mentions(MaxStep(w, a), m)
    ensures Mentions(w, m) || Loads(w, MaxDoes(a), m)
  {
    if a.LoadResult? || a.LoadPrint? {
      LoadsItself(w, a);
      var f := MaxStep(w, a).inFlight[|w.inFlight|];
      hide Loads;
      if f.message != m { assert Mentions(w, m); }
    } else {
      assert Mentions(w, m);
    }
  }

  lemma LoadsItself(w: World, a: MaxAction)
    requires MaxEnabled(w, a) && (a.LoadResult? || a.LoadPrint?)
    ensures var w', n := MaxStep(w, a), |w.inFlight|;
      && |w'.inFlight| == n + 1 && w'.inFlight[..n] == w.inFlight && w' == w.(inFlight := w'.inFlight)
      && Loads(w, MaxDoes(a), w'.inFlight[n].message)
  {
    var w', n := MaxStep(w, a), |w.inFlight|;
    var m := w'.inFlight[n].message;
    match a
    case LoadResult(text, ename, evalue, mime) =>
      assert m == LoadForResult(w.impl.currentExecution, w.history.holder, text, ename, evalue, mime).message;
    case LoadPrint(stream, text) =>
      assert m == LoadForPrint(w.impl.currentExecution, w.history.holder, stream, text).message;
  }

  lemma DispatchInvents(w: World, code: string, silent: bool, m: ResultMessage)
    requires Mentions(DispatchExecute(w, code, silent), m)
    ensures Mentions(w, m)
  {}

  /** One action mentions only messages that were mentioned before or that it loads itself. */
  lemma NoInvention(w: World, a: Action, m: ResultMessage)
    requires Enabled(w, a) && Mentions(Next(w, a), m)
    ensures Mentions(w, m) || Loads(w, a, m)
  {
    hide Mentions, ServerStep, MaxStep, DispatchExecute;
    assert w.history.trace + [] == w.history.trace;
    match a
    case Execute(code, silent) => DispatchInvents(w, code, silent, m);
    case Server =>
      if w.pc.FlushAsync? { assert ServerStep(w) == FlushOne(w) by { FlushStep(w); } FlushInvents(w, m); }
      else if w.pc.PopResult? { assert ServerStep(w) == Consume(w) by { FlushStep(w); } ConsumeInvents(w, m); }
      else { ServerInvents(w, m); }
    case MaxDoes(x) => MaxInvents(w, x, m);
    case Tick => QuietInvents(w, BeginTick(w), [], m);
    case TestStop => QuietInvents(w, LoopOn(w), [], m);
    case ClientShutdown => QuietInvents(w, BeginShutdown(w), [Status(Control, true)], m);
    case Advance(_) => QuietInvents(w, Next(w, a), [], m);
  }

  lemma FlushStep(w: World)
    requires ServerReady(w)
    ensures w.pc == FlushAsync ==> ServerStep(w) == FlushOne(w)
    ensures w.pc == PopResult ==> ServerStep(w) == Consume(w)
  {}

  /** In a run, every message mentioned at step `k` was loaded at an earlier step. */
  lemma {:induction false} EveryMessageWasLoaded(worlds: seq<World>, actions: seq<Action>, k: nat, m: ResultMessage)
    returns (t: nat)
    requires IsRun(worlds, actions) && k < |worlds| && Mentions(worlds[k], m)
    ensures t < k && Loads(worlds[t], actions[t], m)
  {
    if k == 0 {
      assert false;
    } else {
      hide Mentions, Next, Loads;
      NoInvention(worlds[k - 1], actions[k - 1], m);
      if Loads(worlds[k - 1], actions[k - 1], m) { t := k - 1; }
      else { t := EveryMessageWasLoaded(worlds, actions, k - 1, m); }
    }
  }
}
