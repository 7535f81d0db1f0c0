/**
 `max_interpreter` as it is written: objects whose methods update fields, with Max's threads running
 between any two operations on shared state. Every state of the interpreter is the last world of a
 run of the protocol, so whatever holds of all runs holds of it.

 The ghost field `pc` names the operation the server thread performs next.
 */
module Interpreter {
  import opened Protocol
  import opened ProtocolInvariant
  import opened ProtocolTheorems

  /** The shared struct. */
  class KernelImpl {
    var resultQueue: seq<ResultMessage>
    var asyncQueue: seq<ResultMessage>
    var outletQueue: seq<OutletMessage>
    var alive: bool
    var shutdownRequested: bool
    var currentExecution: int
    var pendingExecutions: int
    var timeout: int

    function Snap(): Impl
      reads this
    {
      Impl(resultQueue, asyncQueue, outletQueue, alive, shutdownRequested, currentExecution, pendingExecutions, timeout)
    }

    /** What `kernel_start` stores before it creates the interpreter; the outlet queue and the pending
        count keep the values an earlier start left. */
    constructor (leftover: seq<OutletMessage>, stale: int, seconds: int)
      ensures Snap() == Impl([], [], leftover, true, false, 0, stale, seconds)
    {
      resultQueue, asyncQueue, outletQueue := [], [], leftover;
      alive, shutdownRequested, currentExecution := true, false, 0;
      pendingExecutions, timeout := stale, seconds;
    }
  }

  /** Everything outside the server thread: Max's threads, the clock, and what they will still do. */
  class Host {
    var schedule: seq<Action>
    var inFlight: seq<InFlight>
    var clock: int
    /** The server's `m_request_stop`. */
    var stopAsked: bool

    constructor (schedule: seq<Action>, now: int)
      ensures this.schedule == schedule && inFlight == [] && clock == now && !stopAsked
    {
      this.schedule, inFlight, clock, stopAsked := schedule, [], now, false;
    }
  }

  lemma ExtendRun(worlds: seq<World>, actions: seq<Action>, a: Action, w: World)
    requires IsRun(worlds, actions) && Enabled(worlds[|worlds| - 1], a) && w == Next(worlds[|worlds| - 1], a)
    ensures IsRun(worlds + [w], actions + [a])
  {}

  /** What other threads and the clock leave alone, and which way they move the rest. */
  predicate Interfered(w: World, w': World) {
    && w'.interp == w.interp && w'.timing == w.timing && w'.pc == w.pc && w'.clock >= w.clock
    && w'.loop.turn == w.loop.turn && (w.loop.stopAsked ==> w'.loop.stopAsked)
    && w'.history.requests == w.history.requests && w'.history.popped == w.history.popped
    && w'.history.lastPump == w.history.lastPump && w'.impl.pendingExecutions == w.impl.pendingExecutions
    && KeepsCurrent(w, w')
    && (w'.impl.alive ==> w.impl.alive) && (w.impl.shutdownRequested ==> w'.impl.shutdownRequested)
  }

  lemma MaxInterferes(w: World, a: MaxAction)
    requires MaxEnabled(w, a)
    ensures var w' := MaxStep(w, a);
      && Interfered(w, w')
      && |w'.inFlight| + |w'.impl.resultQueue| <= |w.inFlight| + |w.impl.resultQueue| + 1
      && |w'.inFlight| + |w'.impl.asyncQueue| <= |w.inFlight| + |w.impl.asyncQueue| + 1
  {}

  /** The next operation of the server thread, by where it is. */
  lemma StepOf(w: World)
    requires ServerReady(w)
    ensures match w.pc
      case LoadTimeout => ServerStep(w) == QueueCell(w)
      case StorePending => ServerStep(w) == Goto(StoreCount(w), PumpTop)
      case FlushAsync => ServerStep(w) == FlushOne(w)
      case PumpTop => ServerStep(w) == EnterPump(w)
      case ClearResults => ServerStep(w) == ClearQueue(w)
      case StoreCurrent => ServerStep(w) == TakeCurrent(w)
      case PushCode => ServerStep(w) == SendCode(w)
      case SetDeadline => ServerStep(w) == StartClock(w)
      case LoadAlive =>
        ServerStep(w) == if w.impl.alive then Goto(w, LoadShutdown) else Fail(w, SHUTTING_DOWN)
      case LoadShutdown =>
        ServerStep(w) == if w.impl.shutdownRequested then Fail(w, SHUTTING_DOWN) else Goto(w, PopResult)
      case PopResult => ServerStep(w) == Consume(w)
      case CheckDeadline => ServerStep(w) == TestDeadline(w)
      case DropCurrent(reply) => ServerStep(w) == DropFront(w, reply)
      case DropPending(done, reply) => ServerStep(w) == Goto(StoreCount(w), SendReply(done, reply))
      case SendReply(done, reply) => ServerStep(w) == AnswerCell(w, done, reply)
      case ExchangeFlag => ServerStep(w) == TakeFlag(w)
      case PushShutdown => ServerStep(w) == Goto(AnnounceShutdown(w), ReplyShutdown)
      case ReplyShutdown => ServerStep(w) == EndShutdown(w)
      case Idle => false
  {}

  class MaxInterpreter {
    const impl: KernelImpl
    const host: Host

    var pending: seq<Pending>
    var dispatch: Context
    var active: Context
    var hasActive: bool
    var executionCount: int

    ghost var pc: Pc
    var history: History
    ghost var timing: Timing
    ghost var turn: Turn
    ghost var worlds: seq<World>
    ghost var actions: seq<Action>

    ghost function Snap(): World
      reads this, impl, host
    {
      World(impl.Snap(), Interp(pending, dispatch, active, hasActive, executionCount), pc,
            host.inFlight, host.clock, history, timing, Loop(host.stopAsked, turn))
    }

    /** The object's past is a run of the protocol that ends in its present state. */
    ghost predicate Valid()
      reads this, impl, host
    {
      IsRun(worlds, actions) && worlds[|worlds| - 1] == Snap()
    }

    /** How many more messages a queue of this length can deliver. */
    function Work(queue: nat): nat
      reads host
    {
      2 * |host.schedule| + |host.inFlight| + queue
    }

    constructor (impl: KernelImpl, host: Host)
      requires impl.resultQueue == [] && impl.asyncQueue == [] && impl.alive && !impl.shutdownRequested
      requires impl.currentExecution == 0 && host.inFlight == [] && !host.stopAsked
      ensures this.impl == impl && this.host == host
      ensures Valid() && pc == Idle && turn == Testing && pending == [] && history.requests == []
    {
      this.impl, this.host := impl, host;
      pending, dispatch, active, hasActive, executionCount := [], NoRequest, NoRequest, false, 0;
      pc, turn, timing := Idle, Testing, Timing([], [], [], []);
      history := History([], 0, [], [], impl.outletQueue, -1, false, false, host.clock);
      new;
      worlds, actions := [Snap()], [];
    }

    /** The step just taken is an action of the protocol. */
    ghost method Record(a: Action)
      requires IsRun(worlds, actions) && Enabled(worlds[|worlds| - 1], a)
      requires Snap() == Next(worlds[|worlds| - 1], a)
      modifies this`worlds, this`actions
      ensures worlds == old(worlds) + [Snap()] && actions == old(actions) + [a] && Valid()
    {
      ExtendRun(worlds, actions, a, Snap());
      worlds, actions := worlds + [Snap()], actions + [a];
    }

    /** Every state of the object satisfies the protocol's invariants. */
    lemma Invariant()
      requires Valid()
      ensures Safe(Snap()) && Inv(Snap())
    {
      hide Safe, Inv, Next, Enabled, Init;
      RunIsSafe(worlds, actions, |worlds| - 1);
      SafeIsInv(Snap());
    }

    // ------------------------------------------------------------ Max's threads

    /** One operation of a Max thread: the load or the push of `queue_for_jupyter` and `kernel_print`,
        one pop of `kernel_outlet_drain`, or a store of teardown. */
    method MaxActs(a: MaxAction)
      requires Valid() && MaxEnabled(Snap(), a)
      modifies impl, host`inFlight, host`stopAsked, this`history, this`worlds, this`actions
      ensures Valid() && Snap() == MaxStep(old(Snap()), a)
      ensures worlds == old(worlds) + [Snap()] && actions == old(actions) + [MaxDoes(a)]
    {
      if a.LoadResult? || a.LoadPrint? || a.Push? {
        MaxSpeaks(a);
      } else {
        MaxManages(a);
      }
      hide IsRun, MaxStep;
      Record(MaxDoes(a));
    }

    method MaxSpeaks(a: MaxAction)
      requires MaxEnabled(Snap(), a) && (a.LoadResult? || a.LoadPrint? || a.Push?)
      modifies impl, host`inFlight
      ensures Snap() == MaxStep(old(Snap()), a)
    {
      hide LoadForResult, LoadForPrint;
      match a
      case LoadResult(text, ename, evalue, mime) =>
        host.inFlight := host.inFlight
          + [LoadForResult(impl.currentExecution, history.holder, text, ename, evalue, mime)];
      case LoadPrint(stream, text) =>
        host.inFlight := host.inFlight + [LoadForPrint(impl.currentExecution, history.holder, stream, text)];
      case Push(i) =>
        var f := host.inFlight[i];
        host.inFlight := host.inFlight[..i] + host.inFlight[i + 1..];
        if f.stamped {
          impl.resultQueue := impl.resultQueue + [f.message];
        } else {
          impl.asyncQueue := impl.asyncQueue + [f.message];
        }
    }

    method MaxManages(a: MaxAction)
      requires MaxEnabled(Snap(), a) && !a.LoadResult? && !a.LoadPrint? && !a.Push?
      modifies impl, host`stopAsked, this`history
      ensures Snap() == MaxStep(old(Snap()), a)
    {
      match a
      case Drain =>
        history := history.(delivered := history.delivered + [impl.outletQueue[0]]);
        impl.outletQueue := impl.outletQueue[1..];
      case StoreTimeout(seconds) =>
        impl.timeout := seconds;
      case RequestStop =>
        history := history.(stopStored := true, stopFromMax := history.stopFromMax || !impl.shutdownRequested);
        impl.shutdownRequested := true;
      case CallStop =>
        var already := impl.shutdownRequested;
        impl.shutdownRequested := true;
        if !already {
          PushNotice();
        }
      case StopServer =>
        host.stopAsked := true;
      case Forget =>
        impl.currentExecution := 0;
        history := history.(holder := -1);
      case Die =>
        impl.alive := false;
    }

    method PushNotice()
      modifies impl`outletQueue, this`history
      ensures var m := OutletMessage("shutdown", [], 1, 0);
        && impl.outletQueue == old(impl.outletQueue) + [m]
        && history == old(history).(trace := old(history).trace + [ShutdownToMax(m)])
    {
      var m := OutletMessage("shutdown", [], 1, 0);
      impl.outletQueue := impl.outletQueue + [m];
      history := history.(trace := history.trace + [ShutdownToMax(m)]);
    }

    /** Other threads run for a while: any number of the scheduled operations happen. */
    method Interfere()
      requires Valid()
      modifies impl, host, this`history, this`worlds, this`actions
      ensures Valid() && Interfered(old(Snap()), Snap())
      ensures Work(|impl.resultQueue|) <= old(Work(|impl.resultQueue|))
      ensures Work(|impl.asyncQueue|) <= old(Work(|impl.asyncQueue|))
    {
      while *
        invariant Valid() && Interfered(old(Snap()), Snap())
        invariant Work(|impl.resultQueue|) <= old(Work(|impl.resultQueue|))
        invariant Work(|impl.asyncQueue|) <= old(Work(|impl.asyncQueue|))
        decreases |host.schedule|
      {
        if host.schedule == [] { break; }
        NextScheduled();
      }
    }

    method NextScheduled()
      requires Valid() && host.schedule != []
      modifies impl, host, this`history, this`worlds, this`actions
      ensures Valid() && Interfered(old(Snap()), Snap()) && |host.schedule| < |old(host.schedule)|
      ensures Work(|impl.resultQueue|) <= old(Work(|impl.resultQueue|))
      ensures Work(|impl.asyncQueue|) <= old(Work(|impl.asyncQueue|))
    {
      hide MaxStep, Next, Init, IsRun;
      var a := host.schedule[0];
      host.schedule := host.schedule[1..];
      if a.Advance? {
        TimePasses(a.seconds);
      } else if a.MaxDoes? {
        if MaxCan(a.action, |host.inFlight|, |impl.outletQueue|, history.stopStored) {
          MaxInterferes(Snap(), a.action);
          MaxActs(a.action);
        }
      }
    }

    method TimePasses(seconds: nat)
      requires Valid()
      modifies host`clock, this`worlds, this`actions
      ensures Valid() && Snap() == old(Snap()).(clock := old(host.clock) + seconds)
    {
      host.clock := host.clock + seconds;
      hide IsRun;
      Record(Advance(seconds));
    }

    // ------------------------------------- single operations of the server thread

    /** The context every `publish_*` call reads. */
    function RequestContext(): Context
      reads this
    {
      if hasActive then active else dispatch
    }

    ghost predicate Steps(w: World)
      reads this, impl, host
    {
      Valid() && Snap() == w
    }

    method ClearResultQueue()
      requires Valid() && pc == ClearResults && pending != []
      modifies impl`resultQueue, this`pc, this`worlds, this`actions
      ensures Steps(ClearQueue(old(Snap())))
    {
      impl.resultQueue := [];
      pc := StoreCurrent;
      hide IsRun, ServerStep;
      StepOf(old(Snap()));
      Record(Server);
    }

    method StoreCurrentExecution()
      requires Valid() && pc == StoreCurrent && pending != []
      modifies impl`currentExecution, this`history, this`pc, this`worlds, this`actions
      ensures Steps(TakeCurrent(old(Snap())))
    {
      impl.currentExecution := pending[0].counter;
      history := history.(holder := pending[0].id);
      pc := PushCode;
      hide IsRun, ServerStep;
      StepOf(old(Snap()));
      Record(Server);
    }

    method PushCodeMessage()
      requires Valid() && pc == PushCode && pending != []
      modifies impl`outletQueue, this`history, this`pc, this`worlds, this`actions
      ensures Steps(SendCode(old(Snap())))
    {
      PushFront();
      hide IsRun, SendCode, ServerStep;
      StepOf(old(Snap()));
      Record(Server);
    }

    method PushFront()
      requires pending != []
      modifies impl`outletQueue, this`history, this`pc
      ensures Snap() == SendCode(old(Snap()))
    {
      var p := pending[0];
      var m := OutletMessage("code", ["execute", p.code], 0, p.counter);
      impl.outletQueue := impl.outletQueue + [m];
      history := history.(trace := history.trace + [CodeToMax(p.id, m)]);
      pc := SetDeadline;
    }

    method ArmDeadline()
      requires Valid() && pc == SetDeadline && pending != []
      modifies this`pending, this`timing, this`pc, this`worlds, this`actions
      ensures Steps(StartClock(old(Snap())))
    {
      ArmFront();
      hide IsRun, StartClock, ServerStep;
      StepOf(old(Snap()));
      Record(Server);
    }

    method ArmFront()
      requires pending != []
      modifies this`pending, this`timing, this`pc
      ensures Snap() == StartClock(old(Snap()))
    {
      var seconds := if pending[0].timeout > 0 then pending[0].timeout else 0;
      pending := pending[0 := pending[0].(deadline := host.clock + seconds, started := true)];
      timing := timing.(startedAt := timing.startedAt + [host.clock]);
      pc := AfterStart(pending[0]);
    }

    /** Publish an error unless the cell is silent. */
    method PublishFailure(reply: Reply)
      requires pending != [] && reply.ErrorReply?
      modifies this`history, this`pc
      ensures Snap() == Fail(old(Snap()), reply)
    {
      if !pending[0].silent {
        var e := ExecuteError(RequestContext(), reply.ename, reply.evalue, FromKernel(pending[0].id));
        history := history.(trace := history.trace + [e]);
      } else {
        assert history.trace + [] == history.trace;
      }
      pc := DropCurrent(reply);
    }

    method LoadAliveFlag() returns (stop: bool)
      requires Valid() && pc == LoadAlive && pending != []
      modifies this`history, this`pc, this`worlds, this`actions
      ensures stop == !old(impl.alive)
      ensures Steps(if stop then Fail(old(Snap()), SHUTTING_DOWN) else Goto(old(Snap()), LoadShutdown))
    {
      stop := !impl.alive;
      if stop {
        PublishFailure(ErrorReply("MaxShutdown", "kernel is shutting down"));
      } else {
        pc := LoadShutdown;
      }
      hide IsRun, Fail, ServerStep;
      StepOf(old(Snap()));
      Record(Server);
    }

    method LoadShutdownFlag() returns (stop: bool)
      requires Valid() && pc == LoadShutdown && pending != []
      modifies this`history, this`pc, this`worlds, this`actions
      ensures stop == old(impl.shutdownRequested)
      ensures Steps(if stop then Fail(old(Snap()), SHUTTING_DOWN) else Goto(old(Snap()), PopResult))
    {
      stop := impl.shutdownRequested;
      if stop {
        PublishFailure(ErrorReply("MaxShutdown", "kernel is shutting down"));
      } else {
        pc := PopResult;
      }
      hide IsRun, Fail, ServerStep;
      StepOf(old(Snap()));
      Record(Server);
    }

    /** One turn of the result loop: what was popped, if anything, and the reply it settles the cell with. */
    method PopOneResult() returns (empty: bool, settled: bool, reply: Reply)
      requires Valid() && pc == PopResult && pending != []
      modifies impl`resultQueue, this`history, this`pc, this`worlds, this`actions
      ensures Steps(Consume(old(Snap())))
      ensures empty == (old(impl.resultQueue) == []) && (empty ==> !settled && pc == CheckDeadline)
      ensures settled ==> pc == DropCurrent(reply)
      ensures !empty && !settled ==> pc == PopResult
    {
      empty, settled, reply := TakeResult();
      hide IsRun, Consume, ServerStep;
      StepOf(old(Snap()));
      Record(Server);
    }

    method TakeResult() returns (empty: bool, settled: bool, reply: Reply)
      requires pc == PopResult && pending != []
      modifies impl`resultQueue, this`history, this`pc
      ensures Snap() == Consume(old(Snap()))
      ensures empty == (old(impl.resultQueue) == []) && (empty ==> !settled && pc == CheckDeadline)
      ensures settled ==> pc == DropCurrent(reply)
      ensures !empty && !settled ==> pc == PopResult
    {
      hide Output;
      empty, settled, reply := impl.resultQueue == [], false, OkReply;
      if empty {
        pc := CheckDeadline;
      } else {
        var r := impl.resultQueue[0];
        impl.resultQueue := impl.resultQueue[1..];
        if r.counter == pending[0].counter {
          settled, reply := PublishMessage(r);
        }
      }
    }

    /** Publish a stamped message of the front cell. */
    method PublishMessage(r: ResultMessage) returns (settled: bool, reply: Reply)
      requires pending != [] && pc == PopResult
      modifies this`history, this`pc
      ensures history == old(history).(trace := old(history).trace + [Output(old(Snap()).interp, pending[0], r)])
      ensures pc == AfterOutput(r)
      ensures if settled then pc == DropCurrent(reply) else pc == PopResult
    {
      var e;
      if r.errorName != "" {
        e := ExecuteError(RequestContext(), r.errorName, r.errorValue, FromMax(pending[0].id, r));
        settled, reply := true, ErrorReply(r.errorName, r.errorValue);
      } else if r.streamName != "" {
        e := Stream(RequestContext(), r.streamName, AsLine(r.text), FromMax(pending[0].id, r));
        settled, reply := false, OkReply;
      } else {
        var mime := if r.mimeType != "" then r.mimeType else "text/plain";
        e := ExecuteResult(RequestContext(), pending[0].counter, mime, r.text, FromMax(pending[0].id, r));
        settled, reply := true, OkReply;
      }
      history := history.(trace := history.trace + [e]);
      pc := AfterOutput(r);
    }

    /** The deadline test; a cell that is still waiting ends the pump, which drops the active context. */
    method TestTheDeadline() returns (expired: bool, reply: Reply)
      requires Valid() && pc == CheckDeadline && pending != []
      modifies this`history, this`pc, this`hasActive, this`worlds, this`actions
      ensures Steps(TestDeadline(old(Snap()))) && expired == (old(host.clock) >= pending[0].deadline)
      ensures if expired then pc == DropCurrent(reply) else pc == Idle && !hasActive
      ensures history.requests == old(history.requests)
    {
      expired, reply := TestFront();
      hide IsRun, TestDeadline, ServerStep;
      StepOf(old(Snap()));
      Record(Server);
    }

    method TestFront() returns (expired: bool, reply: Reply)
      requires pending != []
      modifies this`history, this`pc, this`hasActive
      ensures Snap() == TestDeadline(old(Snap())) && expired == (host.clock >= pending[0].deadline)
      ensures if expired then pc == DropCurrent(reply) else pc == Idle && !hasActive
      ensures history.requests == old(history.requests)
    {
      expired, reply := host.clock >= pending[0].deadline, TimeoutReply(pending[0]);
      if expired {
        PublishFailure(reply);
      } else {
        hasActive := false;
        history := history.(lastPump := host.clock);
        pc := Idle;
      }
    }

    method DropTheFront(reply: Reply) returns (done: Pending)
      requires Valid() && pc == DropCurrent(reply) && pending != []
      modifies impl`currentExecution, this`pending, this`history, this`timing, this`pc, this`worlds, this`actions
      ensures Steps(DropFront(old(Snap()), reply)) && done == old(pending)[0] && pc == DropPending(done, reply)
    {
      done := pending[0];
      PopFront(reply);
      hide IsRun, ServerStep, DropFront;
      StepOf(old(Snap()));
      Record(Server);
    }

    method PopFront(reply: Reply)
      requires pending != []
      modifies impl`currentExecution, this`pending, this`history, this`timing, this`pc
      ensures Snap() == DropFront(old(Snap()), reply) && pc == DropPending(old(pending)[0], reply)
    {
      pc := DropPending(pending[0], reply);
      pending := pending[1..];
      impl.currentExecution := 0;
      history := history.(popped := history.popped + 1, holder := -1);
      timing := timing.(answeredAt := timing.answeredAt + [host.clock]);
    }

    method StorePendingCount(next: Pc)
      requires Valid()
      requires (pc == StorePending && next == PumpTop) || (pc.DropPending? && next == SendReply(pc.done, pc.reply))
      modifies impl`pendingExecutions, this`pc, this`worlds, this`actions
      ensures Steps(Goto(StoreCount(old(Snap())), next))
    {
      impl.pendingExecutions := |pending|;
      pc := next;
      hide IsRun, ServerStep;
      StepOf(old(Snap()));
      Record(Server);
    }

    /** The reply callback; the pump drops the active context as soon as it returns. */
    method CallBack(done: Pending, reply: Reply)
      requires Valid() && pc == SendReply(done, reply)
      modifies this`history, this`hasActive, this`pc, this`worlds, this`actions
      ensures Steps(AnswerCell(old(Snap()), done, reply))
    {
      SendTheReply(done, reply);
      hide IsRun, AnswerCell, ServerStep;
      StepOf(old(Snap()));
      Record(Server);
    }

    method SendTheReply(done: Pending, reply: Reply)
      modifies this`history, this`hasActive, this`pc
      ensures Snap() == AnswerCell(old(Snap()), done, reply)
    {
      history := history.(trace := history.trace
        + [ExecuteReply(done.id, reply, done.counter), Status(Request(done.id), false)]);
      hasActive := false;
      pc := PumpTop;
    }

    // ------------------------------------------------- the interpreter's methods

    ghost predicate Stopping()
      reads impl
    {
      Stops(impl.alive, impl.shutdownRequested)
    }

    /** Hand the front cell to Max and start its clock. */
    method StartFront()
      requires Valid() && pc == ClearResults && pending != [] && !pending[0].started
      modifies this, impl, host
      ensures Valid() && pending != [] && pc == AfterStart(pending[0]) && pending[1..] == old(pending)[1..]
      ensures pending[0] == old(pending)[0].(started := true, deadline := pending[0].deadline)
      ensures pending[0].deadline >= old(host.clock) + Max0(pending[0].timeout)
      ensures history.requests == old(history.requests) && (old(Stopping()) ==> Stopping())
    {
      hide IsRun, CodeMessage;
      ClearResultQueue();
      Interfere();
      StoreCurrentExecution();
      Interfere();
      PushCodeMessage();
      Interfere();
      ArmDeadline();
    }

    /** Take the front cell off the queue, store the new counts, and call its callback. */
    method CompleteFront(reply: Reply)
      requires Valid() && pc == DropCurrent(reply) && pending != []
      modifies this, impl, host
      ensures Valid() && pc == PumpTop && pending == old(pending)[1..] && !hasActive
      ensures history.requests == old(history.requests) && (old(Stopping()) ==> Stopping())
    {
      hide IsRun;
      var done := DropTheFront(reply);
      Interfere();
      StorePendingCount(SendReply(done, reply));
      Interfere();
      CallBack(done, reply);
    }

    /** Serve the front cell as far as it will go. True if it was answered and removed. */
    method ServiceFront() returns (completed: bool)
      requires Valid() && pending != [] && pc == (if pending[0].started then AfterStart(pending[0]) else ClearResults)
      modifies this, impl, host
      ensures Valid() && history.requests == old(history.requests) && !hasActive && (old(Stopping()) ==> Stopping())
      ensures old(pending)[0].timeout <= 0 || old(Stopping()) ==> completed
      ensures if completed then pc == PumpTop && pending == old(pending)[1..]
              else pc == Idle && |pending| == |old(pending)| && host.clock < pending[0].deadline
    {
      hide IsRun;
      if !pending[0].started {
        StartFront();
        Interfere();
      }
      if pending[0].timeout <= 0 {
        CompleteFront(OkReply);
        return true;
      }
      completed := AwaitResult();
    }

    /** The rest of `service_front`, for a started cell that waits for its result. */
    method AwaitResult() returns (completed: bool)
      requires Valid() && pending != [] && pc == LoadAlive
      modifies this, impl, host
      ensures Valid() && history.requests == old(history.requests) && !hasActive && (old(Stopping()) ==> Stopping())
      ensures old(Stopping()) ==> completed
      ensures if completed then pc == PumpTop && pending == old(pending)[1..]
              else pc == Idle && pending == old(pending) && host.clock < pending[0].deadline
    {
      hide IsRun, TestDeadline;
      var stop := CheckStop();
      if stop {
        CompleteFront(SHUTTING_DOWN);
        return true;
      }
      var settled, reply := DrainResults();
      if !settled {
        Interfere();
        settled, reply := TestTheDeadline();
      }
      if settled {
        CompleteFront(reply);
      }
      return settled;
    }

    /** The two loads of the teardown test. */
    method CheckStop() returns (stop: bool)
      requires Valid() && pc == LoadAlive && pending != []
      modifies impl, host, this`history, this`pc, this`worlds, this`actions
      ensures Valid() && (if stop then pc == DropCurrent(SHUTTING_DOWN) else pc == PopResult)
      ensures old(Stopping()) ==> stop
      ensures history.requests == old(history.requests) && (old(Stopping()) ==> Stopping())
    {
      hide IsRun;
      stop := LoadAliveFlag();
      if !stop {
        Interfere();
        stop := LoadShutdownFlag();
      }
    }

    /** Pop results until the queue is empty or one settles the cell. */
    method DrainResults() returns (settled: bool, reply: Reply)
      requires Valid() && pc == PopResult && pending != []
      modifies impl, host, this`history, this`pc, this`worlds, this`actions
      ensures Valid() && (if settled then pc == DropCurrent(reply) else pc == CheckDeadline)
      ensures history.requests == old(history.requests) && (old(Stopping()) ==> Stopping())
    {
      hide IsRun, Output;
      var empty := false;
      settled, reply := false, OkReply;
      while !empty && !settled
        invariant Valid() && history.requests == old(history.requests) && (old(Stopping()) ==> Stopping())
        invariant if settled then !empty && pc == DropCurrent(reply)
                  else pc == if empty then CheckDeadline else PopResult
        decreases !empty && !settled, Work(|impl.resultQueue|)
      {
        Interfere();
        empty, settled, reply := PopOneResult();
      }
    }

    method EnterTheLoop()
      requires Valid() && pc == PumpTop
      modifies this`active, this`hasActive, this`pc, this`worlds, this`actions
      ensures Steps(EnterPump(old(Snap())))
    {
      if pending != [] {
        active, hasActive := pending[0].context, true;
      }
      pc := if pending == [] then Idle else if pending[0].started then AfterStart(pending[0]) else ClearResults;
      hide IsRun, ServerStep;
      StepOf(old(Snap()));
      Record(Server);
    }

    /** Advance the queue as far as it can go without blocking. */
    method Pump()
      requires Valid() && pc == PumpTop && !hasActive
      modifies this, impl, host
      ensures Valid() && pc == Idle && !hasActive && history.requests == old(history.requests)
      ensures old(Stopping()) ==> pending == []
      ensures |pending| <= |old(pending)|
    {
      hide IsRun, ServerStep, Init;
      EnterTheLoop();
      while pending != []
        invariant Valid() && history.requests == old(history.requests) && (old(Stopping()) ==> Stopping())
        invariant |pending| <= |old(pending)|
        invariant if pending == [] then pc == Idle && !hasActive
                  else pc == (if pending[0].started then AfterStart(pending[0]) else ClearResults)
        decreases |pending|
      {
        Interfere();
        var completed := ServiceFront();
        if !completed { break; }
        EnterTheLoop();
      }
    }

    // ---------------------------------------------------------------- handlers

    method FlushOneMessage() returns (more: bool)
      requires Valid() && pc == FlushAsync
      modifies impl`asyncQueue, this`history, this`hasActive, this`pc, this`worlds, this`actions
      ensures Steps(FlushOne(old(Snap()))) && more == (old(impl.asyncQueue) != [])
      ensures if more then pc == FlushAsync else pc == PumpTop && !hasActive
    {
      more := FlushNext();
      hide IsRun, FlushOne, ServerStep;
      StepOf(old(Snap()));
      Record(Server);
    }

    method FlushNext() returns (more: bool)
      requires pc == FlushAsync
      modifies impl`asyncQueue, this`history, this`hasActive, this`pc
      ensures Snap() == FlushOne(old(Snap())) && more == (old(impl.asyncQueue) != [])
      ensures if more then pc == FlushAsync else pc == PumpTop && !hasActive
    {
      hide AsLine;
      more := impl.asyncQueue != [];
      if more {
        var m := impl.asyncQueue[0];
        impl.asyncQueue := impl.asyncQueue[1..];
        var name := if m.streamName == "" then "stdout" else m.streamName;
        var front := if pending == [] then -1 else pending[0].id;
        history := history.(trace := history.trace
          + [Stream(RequestContext(), name, AsLine(m.text), FreeStanding(front, m))]);
      } else {
        hasActive := false;
        pc := PumpTop;
      }
    }

    /** Publish everything Max queued outside of a cell. */
    method FlushAsyncOutput()
      requires Valid() && pc == FlushAsync
      modifies impl, host, this`history, this`hasActive, this`pc, this`worlds, this`actions
      ensures Valid() && pc == PumpTop && !hasActive
      ensures history.requests == old(history.requests) && (old(Stopping()) ==> Stopping())
    {
      hide IsRun, AsLine;
      var more := true;
      while more
        invariant Valid() && history.requests == old(history.requests) && (old(Stopping()) ==> Stopping())
        invariant if more then pc == FlushAsync else pc == PumpTop && !hasActive
        decreases more, Work(|impl.asyncQueue|)
      {
        Interfere();
        more := FlushOneMessage();
      }
    }

    method BeginIdle()
      requires Valid() && pc == Idle && turn == Polling
      modifies this`active, this`hasActive, this`pc, this`turn, this`worlds, this`actions
      ensures Steps(BeginTick(old(Snap())))
    {
      if pending != [] {
        active, hasActive := pending[0].context, true;
      }
      pc, turn := FlushAsync, Testing;
      hide IsRun;
      Record(Tick);
    }

    /** The server's poll timed out: publish free-standing output, then serve the queue. In a stopping
        kernel one tick answers every cell. */
    method OnIdle()
      requires Valid() && pc == Idle && turn == Polling
      modifies this, impl, host
      ensures Valid() && pc == Idle && !hasActive && history.requests == old(history.requests)
      ensures old(Stopping()) ==> pending == []
    {
      hide IsRun;
      BeginIdle();
      FlushAsyncOutput();
      Pump();
    }

    /** `xkernel_core::dispatch` to `xinterpreter::execute_request`: busy, context, counter, input. */
    method Dispatch(code: string, silent: bool)
      requires Valid() && pc == Idle && turn == Polling && !host.stopAsked
      modifies this`dispatch, this`executionCount, this`history, this`pc, this`turn, this`worlds, this`actions
      ensures Steps(DispatchExecute(old(Snap()), code, silent))
    {
      Announce(code, silent);
      hide IsRun, DispatchExecute;
      Record(Execute(code, silent));
    }

    method Announce(code: string, silent: bool)
      modifies this`dispatch, this`executionCount, this`history, this`pc, this`turn
      ensures Snap() == DispatchExecute(old(Snap()), code, silent)
    {
      var id := |history.requests|;
      var busy := [Status(Request(id), true)];
      dispatch := Request(id);
      var input := [];
      if !silent {
        executionCount := executionCount + 1;
        input := [ExecuteInput(RequestContext(), code, executionCount)];
      }
      history := history.(requests := history.requests + [Req(code, silent, executionCount)],
                          trace := history.trace + busy + input);
      pc, turn := LoadTimeout, Testing;
    }

    method QueueTheCell()
      requires Valid() && pc == LoadTimeout && history.requests != []
      modifies this`pending, this`history, this`timing, this`pc, this`worlds, this`actions
      ensures Steps(QueueCell(old(Snap())))
    {
      PushCell();
      hide IsRun, QueueCell, ServerStep;
      StepOf(old(Snap()));
      Record(Server);
    }

    method PushCell()
      requires history.requests != []
      modifies this`pending, this`history, this`timing, this`pc
      ensures Snap() == QueueCell(old(Snap()))
    {
      var id := |history.requests| - 1;
      var r := history.requests[id];
      timing := timing.(timeouts := timing.timeouts + [impl.timeout], behind := timing.behind + [pending != []]);
      if pending == [] {
        history := history.(lastPump := host.clock);
      }
      pending := pending + [Pending(id, dispatch, executionCount, r.code, r.silent, impl.timeout, 0, false)];
      pc := StorePending;
    }

    /** An execute request: queue the cell without replying, and serve the queue. */
    method ExecuteRequest(code: string, silent: bool)
      requires Valid() && pc == Idle && turn == Polling && !host.stopAsked
      modifies this, impl, host
      ensures Valid() && pc == Idle && !hasActive
      ensures |history.requests| == |old(history.requests)| + 1 && old(history.requests) <= history.requests
      ensures history.requests[|old(history.requests)|] ==
        Req(code, silent, old(executionCount) + (if silent then 0 else 1))
      ensures old(Stopping()) ==> pending == []
    {
      hide IsRun, Init;
      assert !hasActive by { Invariant(); hide Safe, QueueOk, StartedOk, CurrentOk, CountersOk, DispatchOk; }
      Enqueue(code, silent);
      Interfere();
      Pump();
    }

    method Enqueue(code: string, silent: bool)
      requires Valid() && pc == Idle && turn == Polling && !host.stopAsked && !hasActive
      modifies this, impl, host
      ensures Valid() && pc == PumpTop && !hasActive && (old(Stopping()) ==> Stopping())
      ensures |history.requests| == |old(history.requests)| + 1 && old(history.requests) <= history.requests
      ensures history.requests[|old(history.requests)|] ==
        Req(code, silent, old(executionCount) + (if silent then 0 else 1))
    {
      hide IsRun, Init;
      Dispatch(code, silent);
      Interfere();
      QueueTheCell();
      Interfere();
      StorePendingCount(PumpTop);
    }

    method BeginStop()
      requires Valid() && pc == Idle && turn == Polling
      modifies this`history, this`pc, this`turn, this`worlds, this`actions
      ensures Steps(BeginShutdown(old(Snap())))
    {
      history := history.(trace := history.trace + [Status(Control, true)]);
      pc, turn := ExchangeFlag, Testing;
      hide IsRun;
      Record(ClientShutdown);
    }

    method ExchangeTheFlag() returns (already: bool)
      requires Valid() && pc == ExchangeFlag
      modifies impl`shutdownRequested, this`pc, this`worlds, this`actions
      ensures Steps(TakeFlag(old(Snap()))) && already == old(impl.shutdownRequested)
    {
      already := impl.shutdownRequested;
      impl.shutdownRequested := true;
      pc := if already then ReplyShutdown else PushShutdown;
      hide IsRun, ServerStep;
      StepOf(old(Snap()));
      Record(Server);
    }

    method PushTheNotice()
      requires Valid() && pc == PushShutdown
      modifies impl`outletQueue, this`history, this`pc, this`worlds, this`actions
      ensures Steps(Goto(AnnounceShutdown(old(Snap())), ReplyShutdown))
    {
      PushNotice();
      pc := ReplyShutdown;
      hide IsRun, ServerStep;
      StepOf(old(Snap()));
      Record(Server);
    }

    method EndStop()
      requires Valid() && pc == ReplyShutdown
      modifies host`stopAsked, this`history, this`pc, this`worlds, this`actions
      ensures Steps(EndShutdown(old(Snap())))
    {
      host.stopAsked := true;
      history := history.(trace := history.trace + [ShutdownReply, Status(Control, false)]);
      pc := Idle;
      hide IsRun, ServerStep;
      StepOf(old(Snap()));
      Record(Server);
    }

    /** The server's loop goes on unless it was asked to stop. */
    method LoopAgain() returns (again: bool)
      requires Valid() && pc == Idle && turn == Testing
      modifies this`turn, this`worlds, this`actions
      ensures Steps(LoopOn(old(Snap()))) && again == !host.stopAsked
      ensures turn == if again then Polling else Ended
    {
      again := !host.stopAsked;
      turn := if again then Polling else Ended;
      hide IsRun;
      Record(TestStop);
    }

    /** A client's shutdown request: flag it, tell the patch unless the flag was set already, and stop the
        server, whatever is pending. */
    method ShutdownRequest()
      requires Valid() && pc == Idle && turn == Polling
      modifies this, impl, host
      ensures Valid() && pc == Idle && turn == Testing && pending == old(pending)
      ensures host.stopAsked && impl.shutdownRequested
      ensures history.requests == old(history.requests)
    {
      hide IsRun;
      BeginStop();
      Interfere();
      var already := ExchangeTheFlag();
      if !already {
        Interfere();
        PushTheNotice();
      }
      Interfere();
      EndStop();
    }
  }
}
