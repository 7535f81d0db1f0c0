/**
 From a published message back to what Max said, field by field and over whole runs.
 */
module ProtocolOrigins {
  import opened Protocol
  import opened ProtocolInvariant
  import opened ProtocolAttribution
  import opened ProtocolLoads
  import opened ProtocolContents
  import opened ProtocolTheorems

  /** Everything published in any world of any run says what it should. */
  lemma {:induction false} RunSays(worlds: seq<World>, actions: seq<Action>, k: nat)
    requires IsRun(worlds, actions) && k < |worlds|
    ensures Contents(worlds[k])
  {
    hide Safe, Inv, Contents, Next, Enabled;
    if k == 0 {
      NothingSaid(worlds[0]);
    } else {
      RunSays(worlds, actions, k - 1);
      RunIsSafe(worlds, actions, k - 1);
      SafeIsInv(worlds[k - 1]);
      RunStep(worlds, actions, k - 1);
      ContentsNext(worlds[k - 1], actions[k - 1]);
    }
  }

  lemma NothingSaid(w: World)
    requires Init(w)
    ensures Contents(w)
  {}

  /** What a Max thread says for the cell that is current, as it is published for a cell: an error as an
      error, a result as a result under its own or the plain mime type, a print as a line of its stream. */
  predicate Conveys(e: Event, a: MaxAction) {
    match a
    case LoadResult(text, ename, evalue, mime) =>
      if ename != "" then e.ExecuteError? && e.ename == ename && e.evalue == evalue
      else e.ExecuteResult? && e.data == text && (if mime == "" then e.mime == "text/plain" else e.mime == mime)
    case LoadPrint(stream, text) => e.Stream? && e.name == stream && IsLine(text, e.text)
    case _ => false
  }

  /** What a Max thread says while no cell is current: an error as a line of stderr, a result as one of
      stdout, a print as a line of its stream. */
  predicate ConveysFreely(e: Event, a: MaxAction) {
    match a
    case LoadResult(text, ename, evalue, _) =>
      e.Stream? && (if ename != "" then e.name == "stderr" && IsLine(ename + ": " + evalue, e.text)
                    else e.name == "stdout" && IsLine(text, e.text))
    case LoadPrint(stream, text) => e.Stream? && e.name == stream && IsLine(text, e.text)
    case _ => false
  }

  lemma LoadConveys(w: World, a: Action, e: Event, m: ResultMessage)
    requires Enabled(w, a) && Loads(w, a, m)
    ensures m.counter != 0 && SaysMessage(e, m) ==> Conveys(e, a.action)
    ensures m.counter == 0 && SaysFreeText(e, m) ==> ConveysFreely(e, a.action)
  {
    hide IsLine;
  }

  /** Every output that is not the kernel's own is what Max said at an earlier step: for a cell, while the
      counter of that cell was current, and free-standing text while none was. */
  lemma OutputSaysWhatMaxSaid(worlds: seq<World>, actions: seq<Action>, k: nat, i: nat) returns (t: nat)
    requires IsRun(worlds, actions) && k < |worlds| && i < |worlds[k].history.trace|
    requires var e := worlds[k].history.trace[i];
      (e.Stream? || e.ExecuteResult? || e.ExecuteError?) && !e.source.FromKernel?
    ensures var e, rs := worlds[k].history.trace[i], worlds[k].history.requests;
      && t < k && actions[t].MaxDoes?
      && (e.source.FromMax? ==>
            && e.source.cell < |rs| && worlds[t].impl.currentExecution == rs[e.source.cell].counter != 0
            && Conveys(e, actions[t].action))
      && (e.source.FreeStanding? ==> worlds[t].impl.currentExecution == 0 && ConveysFreely(e, actions[t].action))
  {
    hide Safe, Inv, Next, Enabled, Init, Contents, Conveys, ConveysFreely, SaysMessage, SaysFreeText, SaysFailure,
         Loads, Mentions, TraceOk;
    var w, e := worlds[k], worlds[k].history.trace[i];
    var m := e.source.message;
    RunIsSafe(worlds, actions, k);
    EventIsOk(w, i);
    RunSays(worlds, actions, k);
    EventSays(w, i);
    IsMentioned(w, i, m);
    t := EveryMessageWasLoaded(worlds, actions, k, m);
    RunStep(worlds, actions, t);
    LoadIsStamped(worlds[t], actions[t], m);
    LoadConveys(worlds[t], actions[t], e, m);
  }

  lemma EventIsOk(w: World, i: nat)
    requires Safe(w) && i < |w.history.trace|
    ensures EventOk(w.history.requests, w.history.trace[i])
  {
    hide Inv, EventOk;
  }

  lemma EventSays(w: World, i: nat)
    requires Contents(w) && i < |w.history.trace|
    ensures Says(w.history.requests, w.timing.timeouts, w.history.trace[i])
  {
    hide Says;
  }

  lemma IsMentioned(w: World, i: nat, m: ResultMessage)
    requires i < |w.history.trace| && Carries(w.history.trace[i], m)
    ensures Mentions(w, m)
  {}

  lemma LoadIsStamped(w: World, a: Action, m: ResultMessage)
    requires Loads(w, a, m)
    ensures a.MaxDoes? && m.counter == w.impl.currentExecution
  {}
}
