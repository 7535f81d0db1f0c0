/**
 The deferred-execution protocol between the Jupyter server thread and Max.

 `World` is everything the two sides share plus the server thread's own state, and `Next` is one
 atomic action: one load, store or queue operation of the server thread, one operation of a Max
 thread, or a clock advance. `Pc` names the point the server thread has reached inside
 `execute_request_impl`, `on_idle`, `pump` and the functions they call, so Max can act between any
 two of its operations. A run is a sequence of actions.

 Every dispatched `execute_request` is identified by its position in `requests`; the identity is
 what the request's header and the reply callback carry.
 */
module Protocol {
  import opened Decimals

  // ---------------------------------------------------------------- messages

  /** A message from Max. `loadedFor` is a history variable: the request that owned
      `current_execution` when the Max thread loaded it, or -1 if no request did. */
  datatype ResultMessage = ResultMessage(text: string, errorName: string, errorValue: string,
                                         streamName: string, mimeType: string,
                                         counter: int, loadedFor: int)
  {
    predicate IsError() { errorName != "" }
    predicate IsStream() { streamName != "" }
  }

  datatype OutletMessage = OutletMessage(selector: string, atoms: seq<string>, outlet: int, counter: int)

  /** What Max is given of a cell: `execute` and the code, out of the left outlet, stamped with the counter. */
  predicate IsCodeFor(m: OutletMessage, code: string, counter: int) {
    m.selector == "code" && m.atoms == ["execute", code] && m.outlet == 0 && m.counter == counter
  }

  /** What the patch is told when a client shuts the kernel down, out of the right outlet. */
  predicate IsShutdownNotice(m: OutletMessage) {
    m.selector == "shutdown" && m.atoms == [] && m.outlet == 1 && m.counter == 0
  }

  /** A Max stream message is one line: it ends in a newline when published. */
  function AsLine(text: string): (line: string)
    ensures line != [] && line[|line| - 1] == '\n'
    ensures line == text || (line == text + "\n" && !EndsLine(text))
  {
    if EndsLine(text) then text else text + "\n"
  }

  predicate EndsLine(text: string) { text != "" && text[|text| - 1] == '\n' }

  // ------------------------------------------------------- what is published

  /** The request context a published message is attributed to. */
  datatype Context = NoRequest | Request(id: nat) | Control

  datatype Reply = OkReply | ErrorReply(ename: string, evalue: string)

  /** Where an output came from: the kernel itself while serving `cell`, a stamped message popped
      while serving `cell`, or free-standing output flushed by an idle tick. */
  datatype Source =
    | FromKernel(cell: nat)
    | FromMax(cell: nat, message: ResultMessage)
    | FreeStanding(front: int, message: ResultMessage)

  datatype Event =
    | Status(parent: Context, busy: bool)
    | ExecuteInput(parent: Context, code: string, count: int)
    | Stream(parent: Context, name: string, text: string, source: Source)
    | ExecuteResult(parent: Context, count: int, mime: string, data: string, source: Source)
    | ExecuteError(parent: Context, ename: string, evalue: string, source: Source)
    | ExecuteReply(id: nat, reply: Reply, count: int)
    | CodeToMax(cell: nat, message: OutletMessage)
    | ShutdownToMax(message: OutletMessage)
    | ShutdownReply

  // ---------------------------------------------------------------- the state

  /** A request as the client sent it, with the counter xeus gave it. */
  datatype Request = Req(code: string, silent: bool, counter: int)

  datatype Pending = Pending(id: nat, context: Context, counter: int, code: string, silent: bool,
                             timeout: int, deadline: int, started: bool)

  /** A Max thread between its load of `current_execution` and its push. */
  datatype InFlight = InFlight(message: ResultMessage, stamped: bool)

  /** The next operation of the server thread. */
  datatype Pc =
    | Idle
    | LoadTimeout | StorePending
    | FlushAsync
    | PumpTop
    | ClearResults | StoreCurrent | PushCode | SetDeadline
    | LoadAlive | LoadShutdown | PopResult | CheckDeadline
    | DropCurrent(reply: Reply) | DropPending(done: Pending, reply: Reply) | SendReply(done: Pending, reply: Reply)
    | ExchangeFlag | PushShutdown | ReplyShutdown

  /** The shared struct `t_kernel_impl`. */
  datatype Impl = Impl(
    resultQueue: seq<ResultMessage>, asyncQueue: seq<ResultMessage>, outletQueue: seq<OutletMessage>,
    alive: bool, shutdownRequested: bool, currentExecution: int, pendingExecutions: int, timeout: int)

  /** The state of `max_interpreter`, with the counter of its base class. */
  datatype Interp = Interp(
    pending: seq<Pending>, dispatch: Context, active: Context, hasActive: bool, executionCount: int)

  /** History: the requests dispatched, how many cells have left the queue, everything published, the outlet
      messages Max has received and those already queued when the kernel started, the request that owns
      `current_execution` (-1: none), whether Max has stored the shutdown flag and whether it did so before
      any client, and the last time a pump left a cell waiting or a cell came into an empty queue. */
  datatype History = History(
    requests: seq<Request>, popped: nat, trace: seq<Event>,
    delivered: seq<OutletMessage>, leftover: seq<OutletMessage>,
    holder: int, stopStored: bool, stopFromMax: bool, lastPump: int)

  /** History for the timing bound, one entry per cell: its timeout, whether it was queued behind another,
      and when it was started and answered. */
  datatype Timing = Timing(
    timeouts: seq<int>, behind: seq<bool>, startedAt: seq<int>, answeredAt: seq<int>)

  /** Where the server thread is in its loop when no handler runs: before it tests whether to stop, in the
      poll, or past the loop. */
  datatype Turn = Testing | Polling | Ended

  datatype Loop = Loop(stopAsked: bool, turn: Turn)

  datatype World = World(impl: Impl, interp: Interp, pc: Pc, inFlight: seq<InFlight>, clock: int,
                         history: History, timing: Timing, loop: Loop)

  /** `kernel_start` re-arms the shared state and makes a fresh interpreter. It leaves the outlet
      queue and `pending_executions` as the previous start left them. */
  predicate Init(w: World) {
    && w.impl.resultQueue == [] && w.impl.asyncQueue == []
    && w.impl.alive && !w.impl.shutdownRequested && w.impl.currentExecution == 0
    && w.interp.pending == [] && w.interp.dispatch == NoRequest && !w.interp.hasActive && w.interp.executionCount == 0
    && w.pc == Idle && w.inFlight == []
    && w.history == History([], 0, [], [], w.impl.outletQueue, -1, false, false, w.history.lastPump)
    && w.timing == Timing([], [], [], []) && w.loop == Loop(false, Testing)
  }

  // ---------------------------------------------------------- server actions

  /** `get_request_context`: the cell being serviced if there is one, else the last dispatch. */
  function GetContext(t: Interp): Context {
    if t.hasActive then t.active else t.dispatch
  }

  function Publish(w: World, events: seq<Event>): World {
    w.(history := w.history.(trace := w.history.trace + events))
  }

  function Goto(w: World, pc: Pc): World { w.(pc := pc) }

  /** `xkernel_core::dispatch` and `execute_request`, then `xinterpreter::execute_request`. */
  function DispatchExecute(w: World, code: string, silent: bool): World {
    var id := |w.history.requests|;
    var counter := w.interp.executionCount + if silent then 0 else 1;
    var t := w.interp.(dispatch := Request(id), executionCount := counter);
    var input := if silent then [] else [ExecuteInput(GetContext(t), code, counter)];
    w.(interp := t, pc := LoadTimeout, loop := w.loop.(turn := Testing),
    history := w.history.(requests := w.history.requests + [Req(code, silent, counter)],
    trace := w.history.trace + [Status(Request(id), true)] + input))
  }

  /** `execute_request_impl` queues the cell under the context just dispatched. */
  function QueueCell(w: World): World
    requires w.history.requests != []
  {
    var id := |w.history.requests| - 1;
    var r := w.history.requests[id];
    var p := Pending(id, w.interp.dispatch, w.interp.executionCount, r.code, r.silent, w.impl.timeout, 0, false);
    var behind := w.interp.pending != [];
    w.(interp := w.interp.(pending := w.interp.pending + [p]),
    timing := w.timing.(timeouts := w.timing.timeouts + [w.impl.timeout], behind := w.timing.behind + [behind]),
    history := w.history.(lastPump := if behind then w.history.lastPump else w.clock),
    pc := StorePending)
  }

  function Activate(t: Interp): Interp {
    if t.pending == [] then t else t.(active := t.pending[0].context, hasActive := true)
  }

  function FrontId(t: Interp): int { if t.pending == [] then -1 else t.pending[0].id }

  function FlushOne(w: World): World {
    if w.impl.asyncQueue == [] then w.(interp := w.interp.(hasActive := false), pc := PumpTop)
    else
      var m := w.impl.asyncQueue[0];
      var name := if m.streamName == "" then "stdout" else m.streamName;
      Publish(w, [Stream(GetContext(w.interp), name, AsLine(m.text), FreeStanding(FrontId(w.interp), m))])
      .(impl := w.impl.(asyncQueue := w.impl.asyncQueue[1..]))
  }

  /** Where `service_front` goes once the front cell has been handed to Max. */
  function AfterStart(p: Pending): Pc {
    if p.timeout <= 0 then DropCurrent(OkReply) else LoadAlive
  }

  function EnterPump(w: World): World {
    if w.interp.pending == [] then w.(pc := Idle)
    else
      var p := w.interp.pending[0];
      w.(interp := Activate(w.interp), pc := if p.started then AfterStart(p) else ClearResults)
  }

  function CodeMessage(code: string, counter: int): OutletMessage {
    OutletMessage("code", ["execute", code], 0, counter)
  }

  function Max0(x: int): (r: int)
    ensures r >= 0 && r >= x && (r == 0 || r == x)
  {
    if x > 0 then x else 0
  }

  function StartClock(w: World): World
    requires w.interp.pending != []
  {
    var p := w.interp.pending[0].(deadline := w.clock + Max0(w.interp.pending[0].timeout), started := true);
    w.(interp := w.interp.(pending := w.interp.pending[0 := p]),
    timing := w.timing.(startedAt := w.timing.startedAt + [w.clock]), pc := AfterStart(p))
  }

  const SHUTTING_DOWN := ErrorReply("MaxShutdown", "kernel is shutting down")

  /** Publish an error under the current context unless the cell is silent, then answer with it. */
  function Fail(w: World, reply: Reply): World
    requires w.interp.pending != [] && reply.ErrorReply?
  {
    var p := w.interp.pending[0];
    var error := if p.silent then []
                 else [ExecuteError(GetContext(w.interp), reply.ename, reply.evalue, FromKernel(p.id))];
    Goto(Publish(w, error), DropCurrent(reply))
  }

  /** What `service_front` publishes for a stamped message of its own cell. */
  function Output(t: Interp, p: Pending, m: ResultMessage): Event {
    if m.IsError() then ExecuteError(GetContext(t), m.errorName, m.errorValue, FromMax(p.id, m))
    else if m.IsStream() then Stream(GetContext(t), m.streamName, AsLine(m.text), FromMax(p.id, m))
    else
      var mime := if m.mimeType != "" then m.mimeType else "text/plain";
      ExecuteResult(GetContext(t), p.counter, mime, m.text, FromMax(p.id, m))
  }

  function AfterOutput(m: ResultMessage): Pc {
    if m.IsError() then DropCurrent(ErrorReply(m.errorName, m.errorValue))
    else if m.IsStream() then PopResult
    else DropCurrent(OkReply)
  }

  function Consume(w: World): World
    requires w.interp.pending != []
  {
    if w.impl.resultQueue == [] then w.(pc := CheckDeadline)
    else
      var p, m := w.interp.pending[0], w.impl.resultQueue[0];
      var w1 := w.(impl := w.impl.(resultQueue := w.impl.resultQueue[1..]));
      if m.counter != p.counter then w1
      else Goto(Publish(w1, [Output(w.interp, p, m)]), AfterOutput(m))
  }

  function TimedOut(code: string, timeout: int): Reply {
    ErrorReply("MaxTimeout", "no result from Max within " + Digits(Max0(timeout)) + "s: " + code)
  }

  function TimeoutReply(p: Pending): Reply { TimedOut(p.code, p.timeout) }

  function TestDeadline(w: World): World
    requires w.interp.pending != []
  {
    if w.clock < w.interp.pending[0].deadline then
      w.(interp := w.interp.(hasActive := false), history := w.history.(lastPump := w.clock), pc := Idle)
    else Fail(w, TimeoutReply(w.interp.pending[0]))
  }

  function DropFront(w: World, reply: Reply): World
    requires w.interp.pending != []
  {
    w.(interp := w.interp.(pending := w.interp.pending[1..]),
    impl := w.impl.(currentExecution := 0),
    history := w.history.(popped := w.history.popped + 1, holder := -1),
    timing := w.timing.(answeredAt := w.timing.answeredAt + [w.clock]),
    pc := DropPending(w.interp.pending[0], reply))
  }

  function StoreCount(w: World): World {
    w.(impl := w.impl.(pendingExecutions := |w.interp.pending|))
  }

  function HandToMax(w: World, message: OutletMessage, event: Event): World {
    Publish(w, [event]).(impl := w.impl.(outletQueue := w.impl.outletQueue + [message]))
  }

  function AnnounceShutdown(w: World): World {
    var m := OutletMessage("shutdown", [], 1, 0);
    HandToMax(w, m, ShutdownToMax(m))
  }

  /** The points of `service_front` and `start_front`, where a front cell is being served. */
  predicate Serving(pc: Pc) {
    pc.ClearResults? || pc.StoreCurrent? || pc.PushCode? || pc.SetDeadline? || pc.LoadAlive?
    || pc.LoadShutdown? || pc.PopResult? || pc.CheckDeadline? || pc.DropCurrent?
  }

  predicate ServerReady(w: World) {
    && w.pc != Idle
    && (w.pc.LoadTimeout? ==> w.history.requests != [])
    && (Serving(w.pc) ==> w.interp.pending != [])
  }

  function ClearQueue(w: World): World {
    w.(impl := w.impl.(resultQueue := []), pc := StoreCurrent)
  }

  function TakeCurrent(w: World): World
    requires w.interp.pending != []
  {
    w.(impl := w.impl.(currentExecution := w.interp.pending[0].counter),
    history := w.history.(holder := w.interp.pending[0].id), pc := PushCode)
  }

  function SendCode(w: World): World
    requires w.interp.pending != []
  {
    var p := w.interp.pending[0];
    var m := CodeMessage(p.code, p.counter);
    Goto(HandToMax(w, m, CodeToMax(p.id, m)), SetDeadline)
  }

  /** The reply callback of `xkernel_core::execute_request`: the reply, then the idle status. */
  function AnswerCell(w: World, done: Pending, reply: Reply): World {
    Publish(w, [ExecuteReply(done.id, reply, done.counter), Status(Request(done.id), false)])
    .(interp := w.interp.(hasActive := false), pc := PumpTop)
  }

  function BeginTick(w: World): World {
    w.(interp := Activate(w.interp), pc := FlushAsync, loop := w.loop.(turn := Testing))
  }

  function BeginShutdown(w: World): World {
    Goto(Publish(w, [Status(Control, true)]), ExchangeFlag).(loop := w.loop.(turn := Testing))
  }

  /** `while(!is_stopped())`. */
  function LoopOn(w: World): World {
    w.(loop := w.loop.(turn := if w.loop.stopAsked then Ended else Polling))
  }

  function TakeFlag(w: World): World {
    w.(impl := w.impl.(shutdownRequested := true),
    pc := if w.impl.shutdownRequested then ReplyShutdown else PushShutdown)
  }

  /** `xkernel_core::shutdown_request` stops the server before it replies. */
  function EndShutdown(w: World): World {
    Goto(Publish(w, [ShutdownReply, Status(Control, false)]), Idle).(loop := w.loop.(stopAsked := true))
  }

  /** One operation of the server thread, away from its idle point. */
  function ServerStep(w: World): World
    requires ServerReady(w)
  {
    match w.pc
    case LoadTimeout => QueueCell(w)
    case StorePending => Goto(StoreCount(w), PumpTop)
    case FlushAsync => FlushOne(w)
    case PumpTop => EnterPump(w)
    case ClearResults => ClearQueue(w)
    case StoreCurrent => TakeCurrent(w)
    case PushCode => SendCode(w)
    case SetDeadline => StartClock(w)
    case LoadAlive => if w.impl.alive then Goto(w, LoadShutdown) else Fail(w, SHUTTING_DOWN)
    case LoadShutdown => if w.impl.shutdownRequested then Fail(w, SHUTTING_DOWN) else Goto(w, PopResult)
    case PopResult => Consume(w)
    case CheckDeadline => TestDeadline(w)
    case DropCurrent(reply) => DropFront(w, reply)
    case DropPending(done, reply) => Goto(StoreCount(w), SendReply(done, reply))
    case SendReply(done, reply) => AnswerCell(w, done, reply)
    case ExchangeFlag => TakeFlag(w)
    case PushShutdown => Goto(AnnounceShutdown(w), ReplyShutdown)
    case ReplyShutdown => EndShutdown(w)
  }

  // ------------------------------------------------------------ Max's actions

  datatype MaxAction =
    | LoadResult(text: string, errorName: string, errorValue: string, mimeType: string)
    | LoadPrint(stream: string, text: string)
    | Push(i: nat)
    | Drain
    | StoreTimeout(seconds: int)
    | RequestStop | CallStop | StopServer | Forget | Die

  /** The load in `queue_for_jupyter`, and what it decides to push. */
  function LoadForResult(current: int, holder: int, text: string, ename: string, evalue: string,
    mime: string): InFlight {
    if current != 0 then InFlight(ResultMessage(text, ename, evalue, "", mime, current, holder), true)
    else if ename != "" then
      InFlight(ResultMessage(ename + ": " + evalue, "", "", "stderr", mime, 0, holder), false)
    else InFlight(ResultMessage(text, ename, evalue, "stdout", mime, 0, holder), false)
  }

  /** The load in `kernel_print`. */
  function LoadForPrint(current: int, holder: int, stream: string, text: string): InFlight {
    InFlight(ResultMessage(text, "", "", stream, "", current, holder), current != 0)
  }

  predicate MaxEnabled(w: World, a: MaxAction) {
    MaxCan(a, |w.inFlight|, |w.impl.outletQueue|, w.history.stopStored)
  }

  /** A loaded message can be pushed, a queued one drained, and a stop goes on once it was asked for. */
  predicate MaxCan(a: MaxAction, loaded: nat, queued: nat, stopStored: bool) {
    match a
    case Push(i) => i < loaded
    case LoadPrint(stream, _) => stream == "stdout" || stream == "stderr"
    case Drain => queued > 0
    case CallStop => stopStored
    case StopServer => stopStored
    case Forget => stopStored
    case _ => true
  }

  /** A kernel that is going down, as `service_front` tests for it. */
  predicate Stops(alive: bool, shutdownRequested: bool) { !alive || shutdownRequested }

  function MaxStep(w: World, a: MaxAction): World
    requires MaxEnabled(w, a)
  {
    match a
    case LoadResult(text, ename, evalue, mime) =>
      w.(inFlight := w.inFlight + [LoadForResult(w.impl.currentExecution, w.history.holder, text, ename, evalue, mime)])
    case LoadPrint(stream, text) =>
      w.(inFlight := w.inFlight + [LoadForPrint(w.impl.currentExecution, w.history.holder, stream, text)])
    case Push(i) =>
      var f := w.inFlight[i];
      w.(inFlight := w.inFlight[..i] + w.inFlight[i + 1..],
      impl := if f.stamped then w.impl.(resultQueue := w.impl.resultQueue + [f.message])
              else w.impl.(asyncQueue := w.impl.asyncQueue + [f.message]))
    case Drain =>
      w.(impl := w.impl.(outletQueue := w.impl.outletQueue[1..]),
      history := w.history.(delivered := w.history.delivered + [w.impl.outletQueue[0]]))
    case StoreTimeout(t) => w.(impl := w.impl.(timeout := t))
    // kernel_shutdown stores the flag before it calls xkernel::stop, which exchanges it
    case RequestStop =>
      w.(impl := w.impl.(shutdownRequested := true),
      history := w.history.(stopStored := true, stopFromMax := w.history.stopFromMax || !w.impl.shutdownRequested))
    case CallStop =>
      if w.impl.shutdownRequested then w
      else AnnounceShutdown(w.(impl := w.impl.(shutdownRequested := true)))
    // and which then stops the server
    case StopServer => w.(loop := w.loop.(stopAsked := true))
    // kernel_stop ends with this store, while a thread it could not join runs on
    case Forget => w.(impl := w.impl.(currentExecution := 0), history := w.history.(holder := -1))
    case Die => w.(impl := w.impl.(alive := false))
  }

  // -------------------------------------------------------------------- runs

  datatype Action =
    | Execute(code: string, silent: bool)
    | Tick
    | ClientShutdown
    | TestStop
    | Server
    | MaxDoes(action: MaxAction)
    | Advance(seconds: nat)

  /** Handlers start only in the poll, and none for a request once the server is asked to stop; everything
      else may happen at any time. */
  predicate Enabled(w: World, a: Action) {
    match a
    case Execute(_, _) => w.pc == Idle && w.loop == Loop(false, Polling)
    case Tick => w.pc == Idle && w.loop.turn == Polling
    case ClientShutdown => w.pc == Idle && w.loop.turn == Polling
    case TestStop => w.pc == Idle && w.loop.turn == Testing
    case Server => ServerReady(w)
    case MaxDoes(m) => MaxEnabled(w, m)
    case Advance(_) => true
  }

  function Next(w: World, a: Action): World
    requires Enabled(w, a)
  {
    match a
    case Execute(code, silent) => DispatchExecute(w, code, silent)
    case Tick => BeginTick(w)
    case ClientShutdown => BeginShutdown(w)
    case TestStop => LoopOn(w)
    case Server => ServerStep(w)
    case MaxDoes(m) => MaxStep(w, m)
    case Advance(dt) => w.(clock := w.clock + dt)
  }

  /** `run` is a sequence of worlds, each reached from the one before by the action at its index. */
  ghost predicate IsRun(worlds: seq<World>, actions: seq<Action>) {
    && |worlds| == |actions| + 1
    && Init(worlds[0])
    && forall i :: 0 <= i < |actions| ==> Enabled(worlds[i], actions[i]) && worlds[i + 1] == Next(worlds[i], actions[i])
  }

  lemma RunStep(worlds: seq<World>, actions: seq<Action>, k: nat)
    requires IsRun(worlds, actions) && k < |actions|
    ensures Enabled(worlds[k], actions[k]) && worlds[k + 1] == Next(worlds[k], actions[k])
  {}
}
