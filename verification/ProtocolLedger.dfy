/**
 Totals over the whole trace: which replies went out and in what order, which code messages Max was
 given, what the outlets have delivered, and how often the patch was told of a shutdown.
 */
module ProtocolLedger {
  import opened Protocol
  import opened ProtocolInvariant

  datatype Ledger = Ledger(replies: seq<nat>, codes: seq<OutletMessage>, outlets: seq<OutletMessage>, notices: nat)

  function Enter(l: Ledger, e: Event): Ledger {
    match e
    case ExecuteReply(id, _, _) => l.(replies := l.replies + [id])
    case CodeToMax(_, m) => l.(codes := l.codes + [m], outlets := l.outlets + [m])
    case ShutdownToMax(m) => l.(outlets := l.outlets + [m], notices := l.notices + 1)
    case _ => l
  }

  function Tally(trace: seq<Event>): Ledger {
    if trace == [] then Ledger([], [], [], 0) else Enter(Tally(trace[..|trace| - 1]), trace[|trace| - 1])
  }

  function Upto(n: nat): (s: seq<nat>)
    ensures |s| == n && forall i :: 0 <= i < n ==> s[i] == i
  {
    seq(n, i => i)
  }

  // --------------------------------------------------------------- the invariant

  /** The codes handed to Max are those of the first requests, in request order. */
  predicate CodesOk(rs: seq<Request>, codes: seq<OutletMessage>) {
    |codes| <= |rs| && forall i :: 0 <= i < |codes| ==> IsCodeFor(codes[i], rs[i].code, rs[i].counter)
  }

  /** One notice once a client was first to set the flag, when it is due; none if Max was, and none before. */
  predicate NoticesOk(w: World, n: nat) {
    && (w.pc.PushShutdown? || w.history.stopFromMax || w.history.stopStored ==> w.impl.shutdownRequested)
    && (w.pc.PushShutdown? ==> !w.history.stopFromMax)
    && n == if w.impl.shutdownRequested && !w.history.stopFromMax && !w.pc.PushShutdown? then 1 else 0
  }

  predicate Balanced(w: World, l: Ledger) {
    && 0 <= Answered(w) && l.replies == Upto(Answered(w))
    && CodesOk(w.history.requests, l.codes) && |l.codes| == Sent(w)
    && w.history.delivered + w.impl.outletQueue == w.history.leftover + l.outlets
    && NoticesOk(w, l.notices)
  }

  predicate Kept(w: World) { Balanced(w, Tally(w.history.trace)) }

  // ------------------------------------------------------------ preservation

  lemma TallySnoc(trace: seq<Event>, e: Event)
    ensures Tally(trace + [e]) == Enter(Tally(trace), e)
  {}

  predicate Neutral(e: Event) { !e.ExecuteReply? && !e.CodeToMax? && !e.ShutdownToMax? }

  lemma TallyNeutral(trace: seq<Event>, more: seq<Event>)
    requires forall i :: 0 <= i < |more| ==> Neutral(more[i])
    ensures Tally(trace + more) == Tally(trace)
  {
    if more == [] {
      assert trace + more == trace;
    } else {
      var k := |more| - 1;
      TallyNeutral(trace, more[..k]);
      TallySnoc(trace + more[..k], more[k]);
      assert trace + more == trace + more[..k] + [more[k]];
    }
  }

  /** An action that answers no cell, hands nothing to Max and leaves the flags alone. */
  lemma KeptNeutral(w: World, w': World, more: seq<Event>)
    requires Kept(w)
    requires w'.history.trace == w.history.trace + more && forall i :: 0 <= i < |more| ==> Neutral(more[i])
    requires w.history.requests <= w'.history.requests
    requires Answered(w') == Answered(w) && Sent(w') == Sent(w)
    requires w'.history.delivered + w'.impl.outletQueue == w.history.delivered + w.impl.outletQueue
    requires w'.history.leftover == w.history.leftover
    requires w'.impl.shutdownRequested == w.impl.shutdownRequested && w'.pc.PushShutdown? == w.pc.PushShutdown?
    requires w'.history.stopFromMax == w.history.stopFromMax && w'.history.stopStored == w.history.stopStored
    ensures Kept(w')
  {
    TallyNeutral(w.history.trace, more);
    hide Tally;
  }

  lemma OutletsGrow(delivered: seq<OutletMessage>, queue: seq<OutletMessage>, leftover: seq<OutletMessage>,
                    outlets: seq<OutletMessage>, m: OutletMessage)
    requires delivered + queue == leftover + outlets
    ensures delivered + (queue + [m]) == leftover + (outlets + [m])
  {
    assert delivered + (queue + [m]) == delivered + queue + [m];
    assert leftover + (outlets + [m]) == leftover + outlets + [m];
  }

  lemma CodesGrow(rs: seq<Request>, codes: seq<OutletMessage>, m: OutletMessage)
    requires CodesOk(rs, codes) && |codes| < |rs| && IsCodeFor(m, rs[|codes|].code, rs[|codes|].counter)
    ensures CodesOk(rs, codes + [m])
  {}

  lemma MessageIsCode(code: string, counter: int)
    ensures IsCodeFor(CodeMessage(code, counter), code, counter)
  {}

  lemma KeptSend(w: World)
    requires Inv(w) && Kept(w) && w.pc == PushCode
    ensures Kept(SendCode(w))
  {
    hide Tally, CodesOk;
    FrontCell(w);
    assert !Started(w.interp.pending);
    hide Inv, CodeMessage;
    var p, l := w.interp.pending[0], Tally(w.history.trace);
    var m := CodeMessage(p.code, p.counter);
    TallySnoc(w.history.trace, CodeToMax(p.id, m));
    OutletsGrow(w.history.delivered, w.impl.outletQueue, w.history.leftover, l.outlets, m);
    MessageIsCode(p.code, p.counter);
    CodesGrow(w.history.requests, l.codes, m);
  }

  lemma UptoGrows(n: nat)
    ensures Upto(n) + [n] == Upto(n + 1)
  {}

  lemma KeptAnswer(w: World, done: Pending, reply: Reply)
    requires Inv(w) && Kept(w) && w.pc == SendReply(done, reply)
    ensures Kept(AnswerCell(w, done, reply))
  {
    hide Tally, CodesOk, Upto;
    var trace, w' := w.history.trace, AnswerCell(w, done, reply);
    var e, e' := ExecuteReply(done.id, reply, done.counter), Status(Request(done.id), false);
    assert done.id == Answered(w) && Answered(w') == Answered(w) + 1 && Sent(w') == Sent(w);
    hide Inv;
    TallySnoc(trace, e);
    TallySnoc(trace + [e], e');
    assert w'.history.trace == trace + [e] + [e'];
    UptoGrows(Answered(w));
  }

  lemma KeptAnnounce(w: World, w': World, m: OutletMessage)
    requires Kept(w) && w.pc.PushShutdown?
    requires w' == HandToMax(w, m, ShutdownToMax(m)).(pc := w'.pc)
    requires w'.impl.shutdownRequested && !w'.pc.PushShutdown? && Answered(w') == Answered(w) && Sent(w') == Sent(w)
    ensures Kept(w')
  {
    hide Tally, CodesOk;
    TallySnoc(w.history.trace, ShutdownToMax(m));
    OutletsGrow(w.history.delivered, w.impl.outletQueue, w.history.leftover, Tally(w.history.trace).outlets, m);
  }

  lemma KeptTakeFlag(w: World)
    requires Kept(w) && w.pc == ExchangeFlag
    ensures Kept(TakeFlag(w))
  {}

  lemma KeptPush(w: World)
    requires Kept(w) && w.pc == PushShutdown
    ensures Kept(Goto(AnnounceShutdown(w), ReplyShutdown))
  {
    hide Tally, CodesOk;
    KeptAnnounce(w, Goto(AnnounceShutdown(w), ReplyShutdown), OutletMessage("shutdown", [], 1, 0));
  }

  lemma ServerNeutral(w: World)
    requires Inv(w) && ServerReady(w)
    requires !w.pc.PushCode? && !w.pc.SendReply? && !w.pc.ExchangeFlag? && !w.pc.PushShutdown?
    ensures var w' := ServerStep(w);
      && w.history.trace <= w'.history.trace
      && forall i :: |w.history.trace| <= i < |w'.history.trace| ==> Neutral(w'.history.trace[i])
  {
    hide Inv, Activate, TimeoutReply, GetContext, AfterStart, AfterOutput;
  }

  lemma ServerCounts(w: World)
    requires Inv(w) && ServerReady(w)
    requires !w.pc.PushCode? && !w.pc.SendReply? && !w.pc.ExchangeFlag? && !w.pc.PushShutdown?
    ensures var w' := ServerStep(w);
      Answered(w') == Answered(w) && Sent(w') == Sent(w) && !w'.pc.PushShutdown?
  {
    hide TimeoutReply, GetContext, Output, AsLine, CellsOk, CurrentOk, ActiveOk, CountersOk, CodeMessage, IsCell;
    hide DispatchOk, PendingCountOk;
    if w.pc == LoadTimeout { StartedSnoc(w.interp.pending, QueueCell(w).interp.pending[|w.interp.pending|]); }
  }

  lemma ServerFlags(w: World)
    requires Inv(w) && ServerReady(w)
    requires !w.pc.PushCode? && !w.pc.SendReply? && !w.pc.ExchangeFlag? && !w.pc.PushShutdown?
    ensures var w' := ServerStep(w);
      && w'.history.requests == w.history.requests && w'.history.delivered == w.history.delivered
      && w'.history.leftover == w.history.leftover && w'.impl.outletQueue == w.impl.outletQueue
      && w'.impl.shutdownRequested == w.impl.shutdownRequested
      && w'.history.stopFromMax == w.history.stopFromMax && w'.history.stopStored == w.history.stopStored
  {
    hide Inv, Activate, TimeoutReply, GetContext, AfterStart, AfterOutput, Output, AsLine;
  }

  lemma KeptServer(w: World)
    requires Inv(w) && Kept(w) && ServerReady(w)
    ensures Kept(ServerStep(w))
  {
    hide Inv, Kept;
    if w.pc == PushCode { KeptSend(w); }
    else if w.pc.SendReply? { KeptAnswer(w, w.pc.done, w.pc.reply); }
    else if w.pc == ExchangeFlag { KeptTakeFlag(w); }
    else if w.pc == PushShutdown { KeptPush(w); }
    else {
      ServerNeutral(w); ServerCounts(w); ServerFlags(w);
      var w' := ServerStep(w);
      hide ServerStep, Neutral;
      KeptNeutral(w, w', w'.history.trace[|w.history.trace|..]);
    }
  }

  lemma KeptMax(w: World, a: MaxAction)
    requires Kept(w) && MaxEnabled(w, a)
    ensures Kept(MaxStep(w, a))
  {}

  lemma KeptNext(w: World, a: Action)
    requires Inv(w) && Kept(w) && Enabled(w, a)
    ensures Kept(Next(w, a))
  {
    hide Inv, Kept, ServerStep, MaxStep, DispatchExecute;
    var trace := w.history.trace;
    assert trace + [] == trace;
    match a
    case Execute(code, silent) => KeptDispatch(w, code, silent);
    case Server => KeptServer(w);
    case MaxDoes(m) => KeptMax(w, m);
    case Tick => KeptNeutral(w, BeginTick(w), []);
    case TestStop => KeptNeutral(w, LoopOn(w), []);
    case ClientShutdown => KeptNeutral(w, BeginShutdown(w), [Status(Control, true)]);
    case Advance(dt) => KeptNeutral(w, w.(clock := w.clock + dt), []);
  }

  lemma KeptDispatch(w: World, code: string, silent: bool)
    requires Inv(w) && Kept(w) && w.pc == Idle
    ensures Kept(DispatchExecute(w, code, silent))
  {
    hide Inv, Kept;
    var w' := DispatchExecute(w, code, silent);
    KeptNeutral(w, w', w'.history.trace[|w.history.trace|..]);
  }
}
