/**
 What the published messages say, field by field: output says what Max said, the kernel's own errors say
 what happened, and Max is handed the code that the client sent.
 */
module ProtocolContents {
  import opened Decimals
  import opened Protocol
  import opened ProtocolInvariant

  /** A text as a line: with a newline at its end, and not with two. */
  predicate IsLine(text: string, line: string) {
    if text != "" && text[|text| - 1] == '\n' then line == text else line == text + "\n"
  }

  /** A message of Max published for the cell it was stamped for. */
  predicate SaysMessage(e: Event, m: ResultMessage) {
    if m.errorName != "" then e.ExecuteError? && e.ename == m.errorName && e.evalue == m.errorValue
    else if m.streamName != "" then e.Stream? && e.name == m.streamName && IsLine(m.text, e.text)
    else e.ExecuteResult? && e.data == m.text && e.mime == if m.mimeType == "" then "text/plain" else m.mimeType
  }

  /** A message of Max published while no cell waits for it. */
  predicate SaysFreeText(e: Event, m: ResultMessage) {
    e.Stream? && IsLine(m.text, e.text) && e.name == if m.streamName == "" then "stdout" else m.streamName
  }

  /** The kernel's own verdict on a cell. */
  predicate SaysFailure(rs: seq<Request>, ts: seq<int>, cell: nat, e: Event) {
    && e.ExecuteError? && cell < |rs| && cell < |ts| && !rs[cell].silent
    && (|| (e.ename == "MaxShutdown" && e.evalue == "kernel is shutting down")
        || (ts[cell] > 0 && e.ename == "MaxTimeout"
            && e.evalue == "no result from Max within " + Digits(ts[cell]) + "s: " + rs[cell].code))
  }

  predicate Says(rs: seq<Request>, ts: seq<int>, e: Event) {
    match e
    case Status(parent, _) => parent == Control || (parent.Request? && parent.id < |rs|)
    case ExecuteInput(parent, code, count) =>
      && parent.Request? && parent.id < |rs|
      && code == rs[parent.id].code && count == rs[parent.id].counter && !rs[parent.id].silent
    case ExecuteReply(id, _, count) => id < |rs| && count == rs[id].counter
    case CodeToMax(cell, m) => cell < |rs| && IsCodeFor(m, rs[cell].code, rs[cell].counter)
    case ShutdownToMax(m) => IsShutdownNotice(m)
    case ShutdownReply => true
    case Stream(_, _, _, source) => SaysOutput(rs, ts, source, e)
    case ExecuteResult(_, count, _, _, source) =>
      SaysOutput(rs, ts, source, e) && source.FromMax? && source.cell < |rs| && count == rs[source.cell].counter
    case ExecuteError(_, _, _, source) => SaysOutput(rs, ts, source, e)
  }

  predicate SaysOutput(rs: seq<Request>, ts: seq<int>, source: Source, e: Event) {
    match source
    case FromKernel(cell) => SaysFailure(rs, ts, cell, e)
    case FromMax(_, m) => SaysMessage(e, m)
    case FreeStanding(_, m) => SaysFreeText(e, m)
  }

  predicate AllSay(rs: seq<Request>, ts: seq<int>, events: seq<Event>) {
    forall i :: 0 <= i < |events| ==> Says(rs, ts, events[i])
  }

  predicate Contents(w: World) { AllSay(w.history.requests, w.timing.timeouts, w.history.trace) }

  // ------------------------------------------------------------------ preservation

  lemma SaysStill(rs: seq<Request>, ts: seq<int>, rs': seq<Request>, ts': seq<int>, e: Event)
    requires Says(rs, ts, e) && rs <= rs' && ts <= ts'
    ensures Says(rs', ts', e)
  {
    hide SaysMessage, SaysFreeText, IsCodeFor, IsShutdownNotice;
  }

  /** What was published stays true, and what is published now is. */
  lemma ContentsGrow(w: World, w': World, more: seq<Event>)
    requires Contents(w) && w'.history.trace == w.history.trace + more
    requires w.history.requests <= w'.history.requests && w.timing.timeouts <= w'.timing.timeouts
    requires AllSay(w'.history.requests, w'.timing.timeouts, more)
    ensures Contents(w')
  {
    hide Says;
    forall i | 0 <= i < |w'.history.trace| ensures Says(w'.history.requests, w'.timing.timeouts, w'.history.trace[i]) {
      if i < |w.history.trace| {
        SaysStill(w.history.requests, w.timing.timeouts, w'.history.requests, w'.timing.timeouts, w.history.trace[i]);
      } else {
        assert w'.history.trace[i] == more[i - |w.history.trace|];
      }
    }
  }

  lemma ContentsDispatch(w: World, code: string, silent: bool)
    requires Inv(w) && Contents(w) && w.pc == Idle
    ensures Contents(DispatchExecute(w, code, silent))
  {
    var w' := DispatchExecute(w, code, silent);
    var more := w'.history.trace[|w.history.trace|..];
    assert !w.interp.hasActive;
    hide Inv;
    assert AllSay(w'.history.requests, w'.timing.timeouts, more);
    hide AllSay;
    ContentsGrow(w, w', more);
  }

  lemma ContentsFlush(w: World)
    requires Contents(w)
    ensures Contents(FlushOne(w))
  {
    var w' := FlushOne(w);
    var more := w'.history.trace[|w.history.trace|..];
    assert AllSay(w'.history.requests, w'.timing.timeouts, more);
    hide AllSay;
    ContentsGrow(w, w', more);
  }

  lemma OutputSays(t: Interp, p: Pending, m: ResultMessage, rs: seq<Request>, ts: seq<int>)
    requires p.id < |rs| && p.counter == rs[p.id].counter
    ensures Says(rs, ts, Output(t, p, m))
  {}

  lemma ContentsConsume(w: World)
    requires Inv(w) && Contents(w) && w.pc == PopResult
    ensures Contents(Consume(w))
  {
    ServedIsPending(w);
    FrontCell(w);
    hide Inv;
    var w', p := Consume(w), w.interp.pending[0];
    var more := w'.history.trace[|w.history.trace|..];
    if w.impl.resultQueue != [] {
      OutputSays(w.interp, p, w.impl.resultQueue[0], w.history.requests, w.timing.timeouts);
    }
    hide Output, Says;
    assert AllSay(w'.history.requests, w'.timing.timeouts, more);
    hide AllSay;
    ContentsGrow(w, w', more);
  }

  lemma ContentsSend(w: World)
    requires Inv(w) && Contents(w) && w.pc == PushCode
    ensures Contents(SendCode(w))
  {
    ServedIsPending(w);
    FrontCell(w);
    hide Inv;
    var w' := SendCode(w);
    var more := w'.history.trace[|w.history.trace|..];
    assert AllSay(w'.history.requests, w'.timing.timeouts, more);
    hide AllSay;
    ContentsGrow(w, w', more);
  }

  /** The kernel fails the front cell because it is stopping, or because the cell's time is up. */
  lemma ContentsFail(w: World, reply: Reply)
    requires Inv(w) && Contents(w) && Serving(w.pc)
    requires reply == SHUTTING_DOWN || (w.interp.pending[0].timeout > 0 && reply == TimeoutReply(w.interp.pending[0]))
    ensures Contents(Fail(w, reply))
  {
    ServedIsPending(w);
    FrontCell(w);
    hide Inv;
    var w' := Fail(w, reply);
    var more := w'.history.trace[|w.history.trace|..];
    assert AllSay(w'.history.requests, w'.timing.timeouts, more);
    hide AllSay;
    ContentsGrow(w, w', more);
  }

  lemma WaitingHasTimeout(w: World)
    requires Inv(w) && w.pc == CheckDeadline
    ensures w.interp.pending != [] && w.interp.pending[0].timeout > 0
  {
    hide CellsOk, CountersOk, CurrentOk, ActiveOk;
  }

  lemma ContentsAnswer(w: World, done: Pending, reply: Reply)
    requires Inv(w) && Contents(w) && w.pc == SendReply(done, reply)
    ensures Contents(AnswerCell(w, done, reply))
  {
    assert IsCell(w.history.requests, w.timing.timeouts, done, First(w) - 1);
    hide Inv;
    var w' := AnswerCell(w, done, reply);
    var more := w'.history.trace[|w.history.trace|..];
    assert AllSay(w'.history.requests, w'.timing.timeouts, more);
    hide AllSay;
    ContentsGrow(w, w', more);
  }

  lemma ContentsShutdown(w: World)
    requires Contents(w)
    ensures Contents(BeginShutdown(w)) && Contents(TakeFlag(w)) && Contents(EndShutdown(w))
    ensures Contents(AnnounceShutdown(w)) && Contents(Goto(AnnounceShutdown(w), ReplyShutdown))
  {
    assert w.history.trace + [] == w.history.trace;
    var m := OutletMessage("shutdown", [], 1, 0);
    ContentsGrow(w, BeginShutdown(w), [Status(Control, true)]);
    ContentsGrow(w, TakeFlag(w), []);
    ContentsGrow(w, EndShutdown(w), [ShutdownReply, Status(Control, false)]);
    ContentsGrow(w, AnnounceShutdown(w), [ShutdownToMax(m)]);
    ContentsGrow(w, Goto(AnnounceShutdown(w), ReplyShutdown), [ShutdownToMax(m)]);
  }

  lemma ContentsQuiet(w: World, w': World)
    requires Contents(w) && w'.history.trace == w.history.trace
    requires w'.history.requests == w.history.requests && w.timing.timeouts <= w'.timing.timeouts
    ensures Contents(w')
  {
    assert w.history.trace + [] == w.history.trace;
    ContentsGrow(w, w', []);
  }

  /** The steps that publish nothing. */
  predicate Mute(pc: Pc) {
    pc.LoadTimeout? || pc.StorePending? || pc.PumpTop? || pc.ClearResults? || pc.StoreCurrent? || pc.SetDeadline?
    || pc.DropCurrent? || pc.DropPending?
  }

  lemma MuteStep(w: World)
    requires ServerReady(w) && Mute(w.pc)
    ensures var w' := ServerStep(w);
      && w'.history.trace == w.history.trace && w'.history.requests == w.history.requests
      && w.timing.timeouts <= w'.timing.timeouts
  {}

  lemma ContentsServer(w: World)
    requires Inv(w) && Contents(w) && ServerReady(w)
    ensures Contents(ServerStep(w))
  {
    hide Inv, Contents, TimeoutReply;
    if Mute(w.pc) {
      MuteStep(w);
      hide ServerStep;
      ContentsQuiet(w, ServerStep(w));
    } else {
      ContentsSpoken(w);
    }
  }

  lemma ContentsSpoken(w: World)
    requires Inv(w) && Contents(w) && ServerReady(w) && !Mute(w.pc)
    ensures Contents(ServerStep(w))
  {
    hide Inv, Contents, TimeoutReply, Fail, Consume, FlushOne, SendCode, AnswerCell, AnnounceShutdown, TakeFlag,
         EndShutdown;
    if w.pc == FlushAsync { ContentsFlush(w); }
    else if w.pc == PopResult { ContentsConsume(w); }
    else if w.pc == PushCode { ContentsSend(w); }
    else if w.pc.SendReply? { ContentsAnswer(w, w.pc.done, w.pc.reply); }
    else if w.pc == LoadAlive { ContentsFail(w, SHUTTING_DOWN); ContentsQuiet(w, Goto(w, LoadShutdown)); }
    else if w.pc == LoadShutdown { ContentsFail(w, SHUTTING_DOWN); ContentsQuiet(w, Goto(w, PopResult)); }
    else if w.pc == CheckDeadline {
      WaitingHasTimeout(w);
      ContentsFail(w, TimeoutReply(w.interp.pending[0]));
      if w.clock < w.interp.pending[0].deadline { ContentsQuiet(w, TestDeadline(w)); }
    } else {
      ContentsShutdown(w);
    }
  }

  lemma ContentsMax(w: World, a: MaxAction)
    requires Contents(w) && MaxEnabled(w, a)
    ensures Contents(MaxStep(w, a))
  {
    hide Contents, LoadForResult, LoadForPrint;
    if a.CallStop? && !w.impl.shutdownRequested {
      var w1 := w.(impl := w.impl.(shutdownRequested := true));
      ContentsQuiet(w, w1);
      hide AnnounceShutdown;
      ContentsShutdown(w1);
    } else {
      ContentsQuiet(w, MaxStep(w, a));
    }
  }

  /** A result that is popped is published if it bears the counter of the cell being served, and dropped if it
      does not; a result or an error settles the cell. */
  lemma PopPublishesItsOwn(w: World)
    requires ServerReady(w) && w.pc == PopResult && w.impl.resultQueue != []
    ensures var w', m, p := ServerStep(w), w.impl.resultQueue[0], w.interp.pending[0];
      && w'.impl.resultQueue == w.impl.resultQueue[1..]
      && if m.counter != p.counter then w'.history.trace == w.history.trace && w'.pc == PopResult
         else
           && |w'.history.trace| == |w.history.trace| + 1 && w.history.trace <= w'.history.trace
           && var e := w'.history.trace[|w.history.trace|];
              && SaysMessage(e, m) && (e.Stream? || e.ExecuteResult? || e.ExecuteError?)
              && e.source == FromMax(p.id, m) && (e.ExecuteResult? ==> e.count == p.counter)
              && (if e.Stream? then w'.pc == PopResult
                  else if e.ExecuteError? then w'.pc == DropCurrent(ErrorReply(m.errorName, m.errorValue))
                  else w'.pc == DropCurrent(OkReply))
  {}

  /** Every action keeps every published message saying what it should. */
  lemma ContentsNext(w: World, a: Action)
    requires Inv(w) && Contents(w) && Enabled(w, a)
    ensures Contents(Next(w, a))
  {
    hide Inv, Contents, ServerStep, MaxStep, DispatchExecute, BeginShutdown;
    match a
    case Execute(code, silent) => ContentsDispatch(w, code, silent);
    case Server => ContentsServer(w);
    case MaxDoes(m) => ContentsMax(w, m);
    case Tick => ContentsQuiet(w, BeginTick(w));
    case TestStop => ContentsQuiet(w, LoopOn(w));
    case ClientShutdown => ContentsShutdown(w);
    case Advance(dt) => ContentsQuiet(w, w.(clock := w.clock + dt));
  }
}
