# Max/MSP Jupyter kernel: verified models

A Dafny 4.11 model of the algorithms in the `kernel` external for Max and in the code it ships with.
`dafny verify dfyconfig.toml` checks everything.

- **The deferred-execution protocol** (`Protocol*.dfy`). A Jupyter cell is queued without a reply, handed
  to Max when it reaches the front, and answered when Max returns a result or an error, at its deadline,
  or when Max stops the kernel. The model is a transition system: one action is one load, store or queue
  operation of the server thread, one operation of a Max thread (a load of `current_execution` and the push that
  follows it are two), or a clock advance. Everything published is a trace, and the theorems in
  `ProtocolTheorems.dfy` speak of every run: order, attribution, causes, shutdown and time.
  `ProtocolOrigins.dfy`, `ProtocolQueues.dfy` and `ProtocolStores.dfy` tie what is published, what is queued
  and every flag to the actions that made them, and `ProtocolLimits.dfy` shows where the promises end.
- **The interpreter itself** (`Interpreter.dfy`). `max_interpreter` as a class with its fields and loops.
  Its `Valid()` says that the object's past is a run of the protocol, so the theorems hold of it.
- **The life of the kernel thread** (`Lifecycle*.dfy`). Start, stop and free in steps, beside any number
  of kernel threads and what each of them reads from the shared struct: memory safety and progress.
- **JSON Patch, Merge Patch and destruction** (`Json*.dfy`), after RFC 6902, RFC 6901 and RFC 7396.
  `JsonLaws.dfy` says what each operation does and with which exception it fails.
- **doctest's algorithms**: wildcard matching (`Wildcard*.dfy`), subcase enumeration by re-running the
  test body (`Subcase*.dfy`), and the 24-byte string (`DocString.dfy`).
- **The calculator** (`Calc*.dfy`): grammar, two-phase evaluator, one-phase parser, tokenizer, printing
  with the fewest parentheses; `CalcLaws.dfy` and `CalcFaults.dfy` go from the text to the answer.
- **The UTF-8 decoder** (`Utf8.dfy`), after RFC 3629.

## Where the code departs from what it says

- Free-standing output is published under the last request even after its idle status, exactly when no
  cell is pending as it is flushed (`ProtocolTheorems.FreeTextFollowsIdleExactly`); it is the only output
  that can follow an idle status.
- Silent cells reuse the counter of the cell before them, so a stamp does not identify a cell. A cell can
  be given the output of another if and only if it is silent and some earlier request was not
  (`ProtocolLimits.MisattributionExactly`). A silent cell before all others has counter 0, which Max reads
  as "no cell is waiting", and no result or stream of Max is ever published as its own.
- `kernel_start` re-arms neither `pending_executions` nor the outlet queue. Between handlers the pending
  count equals the queue length if and only if a request has been dispatched or the start found 0
  (`ProtocolTheorems.BetweenHandlers`), and a start can find another value
  (`ProtocolLimits.ShutdownLeavesCellWaiting`, `ProtocolTheorems.NextStartInheritsCount`).
- The comment at `interpreter.cpp:158` means to answer pending cells on a client's shutdown request. The
  server is stopped in the handler of that request and no pump follows: what is pending then is never
  answered (`ProtocolTheorems.ClientShutdownAnswersNothing`), and `MaxShutdown` is never a client's doing.
- `operation_add` holds a primitive parent to be impossible; it is not
  (`JsonLaws.AddAssertsOnPrimitiveParent`). `operation_remove` under a parent that is no container
  silently succeeds (`JsonLaws.RemoveSucceeds`, `RemoveFromPrimitiveExample`).
- "All children are finished" in `~Subcase` inserts the whole leaf path, not the finished subcase's own.
  That path is there already, so the insertion never adds anything (`SubcaseEnds.OnlyLeavesAreAdded`).
  When siblings do not have distinct signatures, some run enters more than its leaf path or reads
  `subcaseStack` past its end (`Subcases.LeavesExactlyWhenDistinct`), and the loop over the runs need not end (`SubcaseEnds.NeverEnds`, `SubcaseEnds.StopsExactly`).
- Appending a doctest `String` to itself makes `memcpy` read what it writes, in all four cases
  (`DocString.String.Append`).
- `FUNCTIONS[name]` also finds what the table inherits, so calling `constructor` or `__proto__` is a
  TypeError and not a NameError (`CalcRoundTrip.InheritedIsTypeError`, `ConstructorExample`).
- `kernel_shutdown` leaks what a detached thread holds, but clears `interpreter_view` and the kernel
  pointer, which that thread may still read: before its loop, and in the idle tick of every turn, where
  it reads the view twice. `LifecycleSafety.FaultsExactlyWhenStranded` and `DetachIsSafeExactlyWhenSettled`
  give the exact conditions; `ThreadInItsLoopCanFault` is a thread that had long reached its loop.
- `thread_finished` is shared by all threads of the object, and "a join will not block" once it is set
  holds only if no detached thread reports after a later start (`LifecycleProgress.JoinDoesNotWait`). When
  one does, the main thread can join a thread that has only been launched (`LifecycleProgress.JoinCanWait`).

## Model

Rows name the member whose contract states the property. `worlds` and `actions` in the contracts are a
run; a history variable (a request's identity, the trace, times) is part of the model's state only.

| member | source | states |
|---|---|---|
| `Protocol.AsLine` | source/projects/kernel/interpreter.cpp:48-54 | a published Max line is the text if that ends in a newline, and the text with one added if not |
| `ProtocolInvariant.InvNext` | source/projects/kernel/interpreter.cpp:64-246 | every atomic action of either thread keeps the queue, counter, context, started-front and `current_execution` invariant |
| `ProtocolInvariant.ServerNeverStuck` | source/projects/kernel/interpreter.cpp:144-246 | away from its idle point the server thread always has a next operation |
| `ProtocolInvariant.FrontCell` | source/projects/kernel/interpreter.cpp:73-82 | the front of the queue is the oldest unanswered request, with its own context, counter, code and timeout |
| `ProtocolInvariant.MaxFrame` | source/projects/kernel/external.cpp:106-131 | a Max thread leaves the interpreter and the pending count alone, and `current_execution` too until the last store of a stop |
| `ProtocolAttribution.AttributedNext` | source/projects/kernel/interpreter.cpp:169-200 | every action keeps: each queued, in-flight or published message carries the counter of the request that was current at its load, and each event the context it belongs to |
| `ProtocolAttribution.LoadOk` | source/projects/kernel/external.cpp:106-131 | a load stamps the message with the counter of the request that is current, and with none when no request is |
| `ProtocolContents.ContentsNext` | source/projects/kernel/interpreter.cpp:169-216 | every action keeps, field by field: an output made from a message of Max is its error name and value, its stream and its text as a line, or its text under its MIME type or text/plain; an error of the kernel is one of its two texts; code messages are `execute` and the code, a shutdown notice has no atoms; inputs, replies and results bear their request's counter |
| `ProtocolContents.PopPublishesItsOwn` | source/projects/kernel/interpreter.cpp:169-200 | a popped result is published if and only if it bears the counter of the cell being served; a result or an error settles the cell, with the error in the reply |
| `ProtocolOrigins.RunSays` | source/projects/kernel/interpreter.cpp:56-62 | everything published in every world of every run says that |
| `ProtocolOrigins.OutputSaysWhatMaxSaid` | source/projects/kernel/external.cpp:106-131 | whatever is published of Max is, field by field, what an earlier return or print said: for a cell while its counter was current, and as free-standing text while none was |
| `ProtocolQueues.NothingIsLostOrReordered` | source/projects/kernel/message_queue.h:50-66 | over every run, unstamped messages are published once each in the order they were pushed, or still queued; stamped ones are published at most once, in that order, or still queued |
| `ProtocolQueues.LoadsArePushedOnce` | source/projects/kernel/external.cpp:106-131 | over every run, each message that was loaded is in flight or was pushed, exactly once |
| `ProtocolStores.StoresTakeEffect` | source/projects/kernel/external.cpp:334-355 | over every run: the kernel is alive until Max frees it; the shutdown flag is set exactly by Max's stop or a client's exchange, the loop is asked to end exactly by the stop or at the end of a client's request; the timeout is the last one stored |
| `ProtocolStores.TimeoutIsTakenWhenQueued` | source/projects/kernel/interpreter.cpp:73-81 | a cell's timeout is the last one stored before the cell was queued, whatever is stored later |
| `ProtocolStores.ForgottenUntilStarted` | source/projects/kernel/external.cpp:530-536 | after a stop forgets the current cell, what Max returns or prints is stamped for no cell until the server starts another |
| `ProtocolLoads.NoInvention` | source/projects/kernel/external.cpp:106-131 | a message that occurs anywhere after an action occurred before it or was loaded by it |
| `ProtocolLoads.EveryMessageWasLoaded` | source/projects/kernel/external.cpp:681-687 | over whole runs, every message that occurs anywhere was made by an earlier load |
| `ProtocolReplies.InOrderNext` | source/projects/kernel/thirdparty/xeus/src/xkernel_core.cpp:195-282 | every action keeps each request at the phase of busy, input, code, output, reply, idle that the state says |
| `ProtocolConversation.Conversed` | source/projects/kernel/thirdparty/xeus/src/xkernel_core.cpp:253-282 | a trace the monitor accepts has each milestone once, in order, output between code and reply, the result or error last and reported by the reply |
| `ProtocolLedger.KeptNext` | source/projects/kernel/interpreter.cpp:91-120 | every action keeps the ledger: replies are the first requests in order; code messages carry `execute` and the code of the first requests, in order; exactly one shutdown notice once a client was first to set the flag, none otherwise |
| `ProtocolTiming.PunctualNext` | source/projects/kernel/interpreter.cpp:109-112 | if, while a cell is pending, at most d passes between the times a pump leaves a cell waiting, then every action, time passing at any point included, keeps each start and answer within its bound |
| `ProtocolTiming.StartsSoon` | source/projects/kernel/interpreter.cpp:219-232 | a front cell not yet started is started within d of the last pump or of its arrival |
| `ProtocolTiming.StartedBy` | source/projects/kernel/interpreter.cpp:219-232 | a cell that follows others without a gap was started within their timeouts plus d each |
| `ProtocolTiming.AnsweredBy` | source/projects/kernel/interpreter.cpp:202-216 | an answered cell was answered by the start of the cell it follows without a gap plus the budgets up to it |
| `ProtocolTiming.StillWaiting` | source/projects/kernel/interpreter.cpp:202-204 | a cell still waiting has not passed that bound |
| `ProtocolTiming.TimingGrows` | source/projects/kernel/interpreter.cpp:109-120 | timing history only grows and later answers carry later times |
| `ProtocolClock.ClockNext` | source/projects/kernel/interpreter.cpp:109-112 | every action keeps one start and one answer time per cell, and the front deadline equal to its start plus its timeout |
| `ProtocolCauses.JustifiedNext` | source/projects/kernel/interpreter.cpp:151-216 | every action keeps every answer given or on its way out caused by Max or by something that entitles the kernel to give it |
| `ProtocolDrain.DrainStep` | source/projects/kernel/interpreter.cpp:158-167 | in a stopping kernel every server operation lowers the number left, and no other action raises it |
| `ProtocolDrain.DrainRun` | source/projects/kernel/interpreter.cpp:219-232 | a pump begun while stopping ends with an empty queue after a bounded number of operations |
| `ProtocolTheorems.SafeNext` | source/projects/kernel/interpreter.cpp:64-246 | every action keeps all the invariants together |
| `ProtocolTheorems.RunIsSafe` | source/projects/kernel/interpreter.cpp:64-246 | every world of every run satisfies all the invariants |
| `ProtocolTheorems.RequestsAreAnsweredInOrder` | source/projects/kernel/interpreter.cpp:81-82 | requests = answered, then the one being answered, the queue and the one being dispatched; the replies are exactly the answered ones, once each, in request order |
| `ProtocolTheorems.AnsweredRequestsConverse` | source/projects/kernel/thirdparty/xeus/src/xkernel_core.cpp:195-282 | an answered request has one busy, code, reply and idle in that order, all output between code and reply; at most one result or error, last, which the reply reports; none only for a cell not waited for or a silent one failed by the kernel; free-standing text after the idle exactly when flushed with nothing pending |
| `ProtocolTheorems.FreeTextFollowsIdleExactly` | source/projects/kernel/interpreter.cpp:234-243 | in every run, free-standing text published under a request follows that request's idle status if and only if no cell was pending when it was flushed |
| `ProtocolTheorems.RunIsJustified` | source/projects/kernel/interpreter.cpp:151-216 | that holds in every world of every run |
| `ProtocolTheorems.AnswersHaveCauses` | source/projects/kernel/interpreter.cpp:151-216 | an answered cell's reply reports the result or error Max returned for it, or is a success because the cell is not waited for, MaxShutdown because Max is stopping the kernel or freeing it and never because of a client, or MaxTimeout because its whole timeout had passed |
| `ProtocolTheorems.UnansweredRequestsWait` | source/projects/kernel/interpreter.cpp:69-72 | an unanswered request has no reply and no idle, its code exactly if it was handed to Max, busy exactly if it was dispatched |
| `ProtocolTheorems.BetweenHandlers` | source/projects/kernel/interpreter.cpp:219-246 | between handlers exactly the front cell is started, `current_execution` is its counter or 0 (0 for a waiting cell only after a stop), the pending count is the queue length if and only if a request was dispatched or the start found 0, and no active context is set |
| `ProtocolShutdown.LoopNext` | source/projects/kernel/thirdparty/xeus-zmq/src/server/xserver_zmq_default.cpp:36-55 | every action keeps: handlers start from the poll, and a shutdown flag that Max has not stored means that the loop is ending |
| `ProtocolShutdown.DownNext` | source/projects/kernel/thirdparty/xeus/src/xkernel_core.cpp:364-374 | while a client's shutdown request is handled and after it, no action queues, starts, drops or answers anything |
| `ProtocolShutdown.CountNext` | source/projects/kernel/external.cpp:414-423 | every action keeps: until a cell is queued, the pending count is the one the start found |
| `ProtocolTheorems.ShutdownStrands` | source/projects/kernel/thirdparty/xeus/src/xkernel_core.cpp:364-374 | the same over whole runs, to the end of the loop |
| `ProtocolTheorems.ClientShutdownAnswersNothing` | source/projects/kernel/interpreter.cpp:158-167 | after a client's shutdown request a request has a reply if and only if it had one before; all have one if and only if none was pending |
| `ProtocolTheorems.NextStartInheritsCount` | source/projects/kernel/external.cpp:414-423 | the next start begins with the number of cells that were pending then |
| `ProtocolTheorems.CodesAreHandedOnceInOrder` | source/projects/kernel/interpreter.cpp:91-107 | outlet messages, delivered or queued, are the left-over ones and then those of this start; the i-th code message has selector `code`, the atoms `execute` and the i-th request's code, outlet 0 and its counter, one for each started request |
| `ProtocolTheorems.HolderIsCurrent` | source/projects/kernel/interpreter.cpp:94-97 | the request that owns `current_execution` is the front cell, and the stored counter is its own |
| `ProtocolOwners.NotAheadNext` | source/projects/kernel/interpreter.cpp:169-200 | every action keeps: no message in flight or queued was loaded for a cell behind the front, and none was published for a cell before the one it was loaded for |
| `ProtocolOwners.LoudIsNew` | source/projects/kernel/thirdparty/xeus/src/xinterpreter.cpp:38-45 | the counter of a request that is not silent is larger than every earlier one |
| `ProtocolTheorems.RunIsNotAhead` | source/projects/kernel/interpreter.cpp:169-200 | that invariant holds in every world of every run |
| `ProtocolTheorems.OutputWasLoadedForItsCounter` | source/projects/kernel/interpreter.cpp:169-200 | whatever a cell streams or returns was loaded while a request with the same positive counter was current, and that was the cell itself or an earlier one; a cell with counter 0 never has such output |
| `ProtocolTheorems.OutputWasLoadedForItsCell` | source/projects/kernel/external.cpp:106-131 | for a cell that is not silent, it was loaded while that very cell was current, even when load and push straddle its completion, whatever silent cells there are |
| `ProtocolTheorems.OutputCarriesItsOwnContext` | source/projects/kernel/interpreter.cpp:56-62 | output published for a cell carries that cell's context whatever was dispatched since; free-standing text carries the front cell's when there is one |
| `ProtocolTheorems.ShutdownIsAnnouncedAtMostOnce` | source/projects/kernel/interpreter.cpp:300-320 | at most one shutdown notice per start, and one exactly when the flag is set, Max was not the first to set it and the notice is not about to be pushed |
| `ProtocolTheorems.StoppedPumpAnswersAll` | source/projects/kernel/interpreter.cpp:158-167 | a pump that begins while stopping answers every dispatched request and leaves the queue empty, within 10 operations a cell and 8 more |
| `ProtocolTheorems.ZeroPendingMeansAllAnswered` | source/projects/kernel/external.cpp:336-353 | once the shutdown flag is set and the pending count reads 0, and nothing is dispatched any more, every request of this start has its reply whenever the server thread is between handlers |
| `ProtocolTheorems.RunIsPunctual` | source/projects/kernel/interpreter.cpp:144-246 | every world of such a run satisfies the timing invariant, wherever in handlers or between them time passes |
| `ProtocolTheorems.HistoryGrows` | source/projects/kernel/interpreter.cpp:109-120 | later worlds extend the timing history of earlier ones |
| `ProtocolTheorems.QueuedCellsAreAnsweredInTime` | source/projects/kernel/interpreter.cpp:109-112 | a cell queued behind a started front is answered by the front's start plus the sum of (timeout + d) up to it, nonpositive timeouts counting 0, or that time has not passed; handlers may take time |
| `ProtocolTheorems.FrontStartsSoon` | source/projects/kernel/interpreter.cpp:219-232 | over whole runs, an unstarted front cell is started within d of the last pump |
| `ProtocolTheorems.PendingCellsAreAnsweredInTime` | source/projects/kernel/interpreter.cpp:109-112 | a cell pending at any moment, started or not, is answered within d and the budgets of the cells up to it from then, or that time has not passed |
| `ProtocolLimits.ReachNext` | source/projects/kernel/interpreter.cpp:64-246 | reachable worlds are closed under enabled actions |
| `ProtocolLimits.SilentCellsCanBeMisattributed` | source/projects/kernel/thirdparty/xeus/src/xinterpreter.cpp:38-45 | from every quiet state: the late message of a next cell that is not silent can be streamed by a silent cell after it, which reuses the counter |
| `ProtocolLimits.MisattributionHappens` | source/projects/kernel/thirdparty/xeus/src/xinterpreter.cpp:38-45 | after any requests that are not all silent, a silent one can be given output loaded for another |
| `ProtocolLimits.MisattributedIsSilent` | source/projects/kernel/thirdparty/xeus/src/xinterpreter.cpp:38-45 | a cell that was given output of another is silent and has a request before it that is not |
| `ProtocolLimits.MisattributionExactly` | source/projects/kernel/thirdparty/xeus/src/xinterpreter.cpp:38-45 | a new cell can be given output of another if and only if it is silent and some earlier request was not |
| `ProtocolLimits.FreeStandingTextFollowsIdle` | source/projects/kernel/interpreter.cpp:234-243 | from every quiet state of a loop that goes on: text printed now is published under the last request after its idle status |
| `ProtocolLimits.ShutdownLeavesCellWaiting` | source/projects/kernel/thirdparty/xeus/src/xkernel_core.cpp:364-374 | from every quiet state: a client shuts the kernel down under a waiting cell, which stays unanswered, and the next start begins with a pending count of 1 |
| `Interpreter.ExtendRun` | source/projects/kernel/interpreter.cpp:64-246 | a run and one more enabled action is a run |
| `Interpreter.MaxInterferes` | source/projects/kernel/external.cpp:106-131 | what an operation of a Max thread may change under the server thread, and how far it can lengthen a queue |
| `Interpreter.MaxInterpreter.constructor` | source/projects/kernel/external.cpp:414-427 | a fresh interpreter is the beginning of a run |
| `Interpreter.MaxInterpreter.Invariant` | source/projects/kernel/interpreter.cpp:64-246 | every state of the object satisfies the invariants of the protocol |
| `Interpreter.MaxInterpreter.MaxActs` | source/projects/kernel/external.cpp:106-131 | one operation of a Max thread is one action of the protocol |
| `Interpreter.MaxInterpreter.Interfere` | source/projects/kernel/external.cpp:681-687 | any number of operations of other threads keep the object's past a run and change only what other threads may |
| `Interpreter.MaxInterpreter.StartFront` | source/projects/kernel/interpreter.cpp:91-112 | the front cell, and no other, is started with a deadline no earlier than now plus its timeout |
| `Interpreter.MaxInterpreter.CompleteFront` | source/projects/kernel/interpreter.cpp:114-120 | exactly the front cell leaves the queue and no active context is left |
| `Interpreter.MaxInterpreter.ServiceFront` | source/projects/kernel/interpreter.cpp:144-217 | true: the front cell left the queue, always so for a nonpositive timeout or a stopping kernel; false: it waits and its deadline is ahead |
| `Interpreter.MaxInterpreter.AwaitResult` | source/projects/kernel/interpreter.cpp:158-217 | the same for a started cell that waits for its result |
| `Interpreter.MaxInterpreter.CheckStop` | source/projects/kernel/interpreter.cpp:160 | the two loads notice a stop that was there before them |
| `Interpreter.MaxInterpreter.DrainResults` | source/projects/kernel/interpreter.cpp:169-200 | pops until the queue is empty or a result or error settles the cell, and terminates while Max keeps pushing |
| `Interpreter.MaxInterpreter.Pump` | source/projects/kernel/interpreter.cpp:219-232 | ends between handlers with no active context, and with nothing pending if the kernel was stopping |
| `Interpreter.MaxInterpreter.FlushAsyncOutput` | source/projects/kernel/interpreter.cpp:48-54 | terminates while Max keeps pushing, publishing each message as one action of the protocol |
| `Interpreter.MaxInterpreter.OnIdle` | source/projects/kernel/interpreter.cpp:234-246 | one idle tick is a run of the protocol; in a stopping kernel it answers everything |
| `Interpreter.MaxInterpreter.Dispatch` | source/projects/kernel/thirdparty/xeus/src/xinterpreter.cpp:32-45 | busy, context, counter and input, as one action of the protocol |
| `Interpreter.MaxInterpreter.ExecuteRequest` | source/projects/kernel/interpreter.cpp:64-89 | appends one request with the right counter and returns between handlers |
| `Interpreter.MaxInterpreter.ShutdownRequest` | source/projects/kernel/interpreter.cpp:300-320 | leaves the flag set, the server asked to stop and the queue alone |
| `Interpreter.MaxInterpreter.LoopAgain` | source/projects/kernel/thirdparty/xeus-zmq/src/server/xserver_zmq_default.cpp:36 | the loop goes on exactly when the server was not asked to stop |
| `Interpreter.MaxInterpreter.DropTheFront` | source/projects/kernel/interpreter.cpp:114-117 | pops the front and stores 0 to `current_execution` as one action of the protocol |
| `Interpreter.MaxInterpreter.CallBack` | source/projects/kernel/thirdparty/xeus/src/xkernel_core.cpp:253-282 | reply then idle, as one action of the protocol |
| `Lifecycle.InvNext` | source/projects/kernel/external.cpp:306-400 | every step of the main thread and of every kernel thread keeps the lifecycle invariant: who owns which kernel, what is destroyed, leaked, hooked and freed |
| `Lifecycle.RunIsSafe` | source/projects/kernel/external.cpp:402-550 | every world of every run satisfies it, restarts after a leaked thread included |
| `Lifecycle.DestroyedAfterJoin` | source/projects/kernel/external.cpp:369-399 | a kernel and its context are destroyed only if no thread was launched for it or the one that was has been joined |
| `Lifecycle.FreedUnlessDetached` | source/projects/kernel/external.cpp:252-266 | the shared struct is freed exactly when no thread was ever detached, and then all have been joined |
| `Lifecycle.NotifyIsSafe` | source/projects/kernel/types.h:94-112 | no notification reaches a freed queue element and no thread touches a freed struct |
| `Lifecycle.NothingElseLeaks` | source/projects/kernel/external.cpp:224-266 | after `free`, only kernels of detached threads, and the struct with them, are left |
| `LifecycleSafety.OwnNext` | source/projects/kernel/external.cpp:306-320 | every step keeps: a thread not detached uses its own kernel only, and a detached one was asked to stop |
| `LifecycleSafety.NoFault` | source/projects/kernel/external.cpp:463-467 | with no detached thread stranded, no step of a thread uses what is destroyed or freed or goes through a null pointer |
| `LifecycleSafety.UnstrandedNext` | source/projects/kernel/external.cpp:369-399 | a step keeps nothing stranded unless it detaches a thread that has something left to read |
| `LifecycleSafety.LeakFreeRunsAreSafe` | source/projects/kernel/external.cpp:306-320 | as long as no thread was ever detached, no step of a thread is a fault |
| `LifecycleSafety.SettledRunsAreSafe` | source/projects/kernel/external.cpp:369-399 | if each detached thread is past its last read or about to test whether to stop, no step is ever a fault, restarts after a leak included |
| `LifecycleSafety.UnstrandedCannotFault` | source/projects/kernel/external.cpp:402-517 | with nothing stranded, no fault follows without a further detach, whatever is started, stopped or freed |
| `LifecycleSafety.StrandedAtRest` | source/projects/kernel/external.cpp:402-517 | a stranded thread of a stopped object can fault: by the freed object, by a kernel gone between test and use, or by the interpreter view of a later start |
| `LifecycleSafety.StrandedAfterDetach` | source/projects/kernel/external.cpp:379-391 | right after the detach it can fault without a restart |
| `LifecycleSafety.FaultsExactlyWhenStranded` | source/projects/kernel/external.cpp:306-320 | between calls to the object, and right after a detach, a fault can follow without a further detach if and only if a detached thread is stranded |
| `LifecycleSafety.DetachIsSafeExactlyWhenSettled` | source/projects/kernel/external.cpp:372-376 | a detach makes a fault possible if and only if the thread has something left to read |
| `LifecycleSafety.ThreadInItsLoopCanFault` | source/projects/kernel/thirdparty/xeus-zmq/src/server/xserver_zmq_default.cpp:36-55 | a reachable case: a thread detached while it serves its loop goes through the cleared view at its next idle tick |
| `LifecycleProgress.MainAdvances` | source/projects/kernel/external.cpp:334-400 | every step of the main thread inside a call brings it nearer to the end of the call |
| `LifecycleProgress.MainIsNotStuck` | source/projects/kernel/external.cpp:334-400 | the main thread always has a step, unless it joins a thread that has not ended |
| `LifecycleProgress.FreeEnds` | source/projects/kernel/external.cpp:217-266 | `free` takes at most nine steps of the main thread |
| `LifecycleProgress.LoopEndsExactlyWhenAsked` | source/projects/kernel/thirdparty/xeus-zmq/src/server/xserver_zmq_default.cpp:36-55 | a thread leaves its loop at a test exactly when a stop or a client's shutdown request asked its server to stop before |
| `LifecycleProgress.FinishedIsTrue` | source/projects/kernel/external.cpp:316-319 | as long as no detached thread reports after a later start, `thread_finished` is set only once the current thread has stored it |
| `LifecycleProgress.JoinDoesNotWait` | source/projects/kernel/external.cpp:369-372 | then the thread that is joined has nothing left to do |
| `LifecycleProgress.JoinCanWait` | source/projects/kernel/external.cpp:357-372 | a reachable case: a thread detached by an earlier stop reports late, and the next stop joins a thread that has only been launched |
| `JsonPatch.IndexRoundTrip` | source/projects/kernel/thirdparty/json/include/nlohmann/detail/json_pointer.hpp:214-247 | the token `diff` writes for an index is read back as that index |
| `JsonPatch.Document.PatchInPlace` | source/projects/kernel/thirdparty/json/include/nlohmann/json.hpp:4943-5076 | the loop applies the operations in order up to the first that throws, keeping the effect of those before it |
| `JsonDiff.ApplyUnder` | source/projects/kernel/thirdparty/json/include/nlohmann/json.hpp:5116-5120 | one operation moved under a token acts on that child as it acts alone |
| `JsonDiff.ApplyAllUnder` | source/projects/kernel/thirdparty/json/include/nlohmann/json.hpp:5116-5120 | a patch moved under a token patches that child and nothing else |
| `JsonDiff.ApplyAt` | source/projects/kernel/thirdparty/json/include/nlohmann/json.hpp:5089-5090 | a patch prefixed by a path patches what is at the path and nothing else |
| `JsonDiff.RemovalsWork` | source/projects/kernel/thirdparty/json/include/nlohmann/json.hpp:5126-5139 | removals in descending order cut an array to the common length |
| `JsonDiff.Diff` | source/projects/kernel/thirdparty/json/include/nlohmann/json.hpp:5089-5219 | the patch for a path is the prefixed form of one that turns source into target, is empty exactly when they are equal, and is local: replacements stand where both sides exist, differ and are not both arrays or both objects, removals where the target has nothing, additions where the source has nothing |
| `JsonDiff.DiffArray` | source/projects/kernel/thirdparty/json/include/nlohmann/json.hpp:5112-5153 | the array case |
| `JsonDiff.DiffObject` | source/projects/kernel/thirdparty/json/include/nlohmann/json.hpp:5155-5196 | the object case, whatever order the keys are visited in |
| `JsonDiff.DiffDocuments` | source/projects/kernel/thirdparty/json/include/nlohmann/json.hpp:5089-5219 | for all source and target the patch applies without error and yields the target; it is empty exactly when they are equal, and each of its operations stands where the two differ, as above |
| `JsonDiff.DiffInside` | source/projects/kernel/thirdparty/json/include/nlohmann/json.hpp:5089-5219 | inside any document with the source at the path, the patch replaces it by the target and touches nothing else |
| `JsonDiff.DiffThenPatch` | source/projects/kernel/thirdparty/json/include/nlohmann/json.hpp:4808-5076 | making a patch and applying it in place is assignment |
| `JsonLaws.AtPut` | source/projects/kernel/thirdparty/json/include/nlohmann/detail/json_pointer.hpp:422-477 | reading below what was written at a pointer reads the new value |
| `JsonLaws.PutPut` | source/projects/kernel/thirdparty/json/include/nlohmann/detail/json_pointer.hpp:422-477 | what was written is read back, the second write wins, and writing what is there changes nothing |
| `JsonLaws.AddThenAt` | source/projects/kernel/thirdparty/json/include/nlohmann/json.hpp:4845-4910 | what was added is at its location, or last when appended with "-" |
| `JsonLaws.AddAssertsOnPrimitiveParent` | source/projects/kernel/thirdparty/json/include/nlohmann/json.hpp:4897-4908 | `add` trips the assertion exactly when the parent exists and is primitive |
| `JsonLaws.PrimitiveParentExample` | source/projects/kernel/thirdparty/json/include/nlohmann/json.hpp:4897-4908 | a document and operation that do so |
| `JsonLaws.RemoveSucceeds` | source/projects/kernel/thirdparty/json/include/nlohmann/json.hpp:4913-4939 | `remove` succeeds exactly when the location exists or the parent is no container, where it does nothing |
| `JsonLaws.RemoveFromPrimitiveExample` | source/projects/kernel/thirdparty/json/include/nlohmann/json.hpp:4913-4939 | a document and operation of the second kind |
| `JsonLaws.AddThenRemove` | source/projects/kernel/thirdparty/json/include/nlohmann/json.hpp:4913-4939 | removing what was just added restores the document |
| `JsonLaws.MoveThenAt` | source/projects/kernel/thirdparty/json/include/nlohmann/json.hpp:5011-5026 | a successful move leaves at the target what was at the source |
| `JsonLaws.TestIsPure` | source/projects/kernel/thirdparty/json/include/nlohmann/json.hpp:5043-5064 | `test` changes nothing and succeeds exactly when the value is there |
| `JsonLaws.IndexTokens` | source/projects/kernel/thirdparty/json/include/nlohmann/detail/json_pointer.hpp:214-247 | a token is an array index if and only if it is the numeral of a number; every other token gets exception 106, 109 or 404 by its form |
| `JsonLaws.ReadErrors` | source/projects/kernel/thirdparty/json/include/nlohmann/detail/json_pointer.hpp:422-477 | what reading a child gives for every value and token, with the exceptions 401 to 404 |
| `JsonLaws.AddErrors` | source/projects/kernel/thirdparty/json/include/nlohmann/json.hpp:4845-4910 | when `add` succeeds, and with which exception it fails |
| `JsonLaws.RemoveErrors` | source/projects/kernel/thirdparty/json/include/nlohmann/json.hpp:4913-4939 | likewise for `remove`, 405 for the root |
| `JsonLaws.TestErrors` | source/projects/kernel/thirdparty/json/include/nlohmann/json.hpp:5043-5064 | likewise for `test`: 501, except on a token that is no index in form |
| `JsonLaws.ReplaceIsRemoveThenAdd` | source/projects/kernel/thirdparty/json/include/nlohmann/json.hpp:5002-5009 | section 4.3 of RFC 6902: `replace` is `remove` and then `add`; at the root, where there is no `remove`, it assigns; otherwise it fails as reading does and changes nothing |
| `JsonLaws.MoveIsRemoveThenAdd` | source/projects/kernel/thirdparty/json/include/nlohmann/json.hpp:5011-5026 | section 4.4: `move` is `remove` and then `add` of what was there; it fails as reading the source, and with 405 for the root |
| `JsonLaws.CopyIsAdd` | source/projects/kernel/thirdparty/json/include/nlohmann/json.hpp:5028-5042 | section 4.5: `copy` is `add` of what is at the source; it fails as reading the source, and then changes nothing |
| `JsonLaws.CopyThenAt` | source/projects/kernel/thirdparty/json/include/nlohmann/json.hpp:5028-5042 | what was copied is at the target, unless it was appended with "-" |
| `JsonLaws.CopyKeepsSource` | source/projects/kernel/thirdparty/json/include/nlohmann/json.hpp:5028-5042 | a `copy` to a new member leaves its source as it was |
| `JsonLaws.ReplaceElsewhere` | source/projects/kernel/thirdparty/json/include/nlohmann/json.hpp:5002-5009 | `replace` leaves every place alone that is neither above nor below its own |
| `JsonLaws.AddElsewhere` | source/projects/kernel/thirdparty/json/include/nlohmann/json.hpp:4845-4910 | so does `add` of an object member |
| `JsonLaws.StopsAtTheFirstError` | source/projects/kernel/thirdparty/json/include/nlohmann/json.hpp:4943-5076 | a patch stops at the first operation that fails and keeps what was done so far |
| `JsonMerge.MergePatch` | source/projects/kernel/thirdparty/json/include/nlohmann/json.hpp:5231-5255 | the loop computes the MergePatch function of section 2 of RFC 7396, whatever order the keys come in |
| `JsonMerge.MergeMember` | source/projects/kernel/thirdparty/json/include/nlohmann/json.hpp:5239-5249 | which members the result has and what each is |
| `JsonMerge.MergeIsIdempotent` | source/projects/kernel/thirdparty/json/include/nlohmann/json.hpp:5231-5255 | applying a merge patch twice equals applying it once |
| `JsonMerge.MergeIntoNothing` | source/projects/kernel/thirdparty/json/include/nlohmann/json.hpp:5231-5255 | a patch without nulls, merged into nothing, is itself |
| `JsonMerge.MergeOfNonObjects` | source/projects/kernel/thirdparty/json/include/nlohmann/json.hpp:5231-5255 | a patch that is no object replaces the target; a target that is no object, of whatever kind, counts as the empty one |
| `JsonDestroy.PushChildren` | source/projects/kernel/thirdparty/json/include/nlohmann/json.hpp:598-612 | pushes every child of a value exactly once |
| `JsonDestroy.Destroy` | source/projects/kernel/thirdparty/json/include/nlohmann/json.hpp:570-617 | terminates; pops every proper descendant exactly once, as many as there are, and each is released without children: as the empty array or object where it was one, and as it was otherwise |
| `Wildcard.Wildcmp` | source/projects/kernel/thirdparty/doctest/doctest.h:4113-4147 | terminates and returns true exactly when the declarative glob relation holds, with or without case |
| `Wildcard.Stretch` | source/projects/kernel/thirdparty/doctest/doctest.h:4117-4124 | a mask stretch without stars matches exactly character by character |
| `Wildcard.NewStarSubsumes` | source/projects/kernel/thirdparty/doctest/doctest.h:4127-4132 | a new star takes over every alternative the earlier one had, so backtracking to the last star is enough |
| `Wildcard.MismatchAdvances` | source/projects/kernel/thirdparty/doctest/doctest.h:4137-4140 | a mismatch rules out the present start and no other |
| `Wildcard.EndOfString` | source/projects/kernel/thirdparty/doctest/doctest.h:4143-4146 | at the end of the string only the present start is left |
| `WildcardLaws.PlainMask` | source/projects/kernel/thirdparty/doctest/doctest.h:4117-4124 | a mask without wildcards matches exactly the string equal to it; without regard to case, exactly the strings of its length whose characters are equal or one ASCII letter in two cases |
| `WildcardLaws.Wildcards` | source/projects/kernel/thirdparty/doctest/doctest.h:4113-4147 | `?` matches exactly the strings of one character, `*` matches all, the empty mask only the empty string |
| `WildcardLaws.MaskAppend` | source/projects/kernel/thirdparty/doctest/doctest.h:4113-4147 | a mask in two parts matches exactly the strings in two parts that each match |
| `WildcardLaws.CaseOnlyRestricts` | source/projects/kernel/thirdparty/doctest/doctest.h:4113-4147 | what matches with regard to case matches without |
| `Subcases.LeavesAreLeafPaths` | source/projects/kernel/thirdparty/doctest/doctest.h:6988-7031 | the enumerated paths are exactly the paths to subcases without subcases |
| `Subcases.LeavesAreDistinct` | source/projects/kernel/thirdparty/doctest/doctest.h:6988-7031 | no path is enumerated twice |
| `Subcases.DirectiveOf` | source/projects/kernel/thirdparty/doctest/doctest.h:4229-4234 | what `nextSubcaseStack` holds on the way to a leaf, level by level |
| `Subcases.SiblingIsFresh` | source/projects/kernel/thirdparty/doctest/doctest.h:4226-4228 | the subcase after the one just left is never in `fullyTraversedSubcases` |
| `Subcases.MidwayToEnd` | source/projects/kernel/thirdparty/doctest/doctest.h:4226-4234 | after the last subcase of a body, `nextSubcaseStack` leads to the next leaf |
| `SubcaseContext.Context.Enter` | source/projects/kernel/thirdparty/doctest/doctest.h:4207-4238 | the constructor's decisions and its whole new state |
| `SubcaseContext.Context.Leave` | source/projects/kernel/thirdparty/doctest/doctest.h:4244-4255 | the destructor's whole new state |
| `Subcases.DistinctIsClear` | source/projects/kernel/thirdparty/doctest/doctest.h:6988-7031 | siblings differ all the way down exactly when every leaf path tells each of its subcases apart from its siblings |
| `Subcases.RunsLeaf` | source/projects/kernel/thirdparty/doctest/doctest.h:4207-4255 | a run aimed at leaf k, told apart so far, enters exactly the subcases of leaf k, in order, stays within the stack and aims at leaf k + 1 |
| `Subcases.Overfull` | source/projects/kernel/thirdparty/doctest/doctest.h:4219-4225 | a run aimed at the first leaf with a repeated signature on its way reads the stack past its end or enters more than the leaf path |
| `Subcases.LeavesExactlyWhenDistinct` | source/projects/kernel/thirdparty/doctest/doctest.h:6980-7031 | a test runs once for each leaf, in preorder and within the stack, if and only if siblings have different signatures all the way down |
| `SubcaseContext.Context.RunBody` | source/projects/kernel/thirdparty/doctest/doctest.h:4207-4255 | the loop over the subcases of a body computes the run, or stops where the stack is overrun |
| `SubcaseContext.Context.RunAtMost` | source/projects/kernel/thirdparty/doctest/doctest.h:6988-7031 | for every tree, the re-run loop cut off after a number of runs computes those runs |
| `SubcaseEnds.NeverEnds` | source/projects/kernel/thirdparty/doctest/doctest.h:6980-7031 | tests whose first and third subcase have one signature and one leaf each run for ever, two subcases in turn, within the stack |
| `SubcaseEnds.StaysWithin` | source/projects/kernel/thirdparty/doctest/doctest.h:4207-4255 | a run records and traverses only paths of its tree, and forgets none |
| `SubcaseEnds.RepeatsForEver` | source/projects/kernel/thirdparty/doctest/doctest.h:6988-7031 | a test that comes back to a next stack and a set of traversed paths it had before never ends |
| `SubcaseEnds.StopsExactly` | source/projects/kernel/thirdparty/doctest/doctest.h:6988-7031 | the re-run loop stops, by its condition or by overrunning the stack, if and only if it does so within n(n + 1) + 1 runs, n being the number of paths of the tree |
| `SubcaseEnds.DistinctStops` | source/projects/kernel/thirdparty/doctest/doctest.h:6988-7031 | it stops, with the leaves as its runs, when siblings have different signatures |
| `SubcaseEnds.RepeatedLeafEnds` | source/projects/kernel/thirdparty/doctest/doctest.h:4226-4228 | a test whose second subcase repeats the signature of a leaf before it ends after two runs, and enters the repeated leaf twice in the first |
| `SubcaseEnds.OnlyLeavesAreAdded` | source/projects/kernel/thirdparty/doctest/doctest.h:4247-4253 | once a leaf is reached its path is in `fullyTraversedSubcases` and stays on the stack: the other insertion of the destructor never adds anything |
| `SubcaseContext.Context.RunTest` | source/projects/kernel/thirdparty/doctest/doctest.h:6980-7031 | on every tree on which the loop stops, it computes the runs; they are the leaf paths in preorder when siblings have different signatures |
| `DocString.String.Size` | source/projects/kernel/thirdparty/doctest/doctest.h:3740-3745 | the size is the length of the contents |
| `DocString.String.CStr` | source/projects/kernel/thirdparty/doctest/doctest.h:642-648 | `c_str()` is where the contents and their NUL are, in both forms |
| `DocString.String.Allocate` | source/projects/kernel/thirdparty/doctest/doctest.h:3598-3611 | room for exactly n characters and their NUL, in place exactly up to 23, and otherwise in a block of its own of that capacity |
| `DocString.String.Fill` | source/projects/kernel/thirdparty/doctest/doctest.h:3641-3643 | the string holds the given characters, on the stack exactly up to 23 of them |
| `DocString.String.constructor` | source/projects/kernel/thirdparty/doctest/doctest.h:3628-3631 | an empty string on the stack |
| `DocString.String.FromChars` | source/projects/kernel/thirdparty/doctest/doctest.h:3641-3643 | a string of the given characters in storage of its own |
| `DocString.String.CopyFrom` | source/projects/kernel/thirdparty/doctest/doctest.h:3620-3626 | the contents of the other, which is unchanged, in storage of its own |
| `DocString.String.Copy` | source/projects/kernel/thirdparty/doctest/doctest.h:3649 | the copy constructor does that |
| `DocString.String.Assign` | source/projects/kernel/thirdparty/doctest/doctest.h:3651-3660 | copy assignment does that, releasing its old block first, and does nothing for self-assignment |
| `DocString.String.Move` | source/projects/kernel/thirdparty/doctest/doctest.h:3712-3716 | takes the contents and the block, and leaves the other empty and valid |
| `DocString.String.MoveAssign` | source/projects/kernel/thirdparty/doctest/doctest.h:3718-3727 | likewise, releasing its old block, and nothing for self-assignment |
| `DocString.String.Destroy` | source/projects/kernel/thirdparty/doctest/doctest.h:3633-3636 | releases the string's block if it has one, which was allocated and not yet released |
| `DocString.String.Append` | source/projects/kernel/thirdparty/doctest/doctest.h:3662-3710 | every `memcpy` is defined if and only if the string is not appended to itself; then the contents become the concatenation, the other is unchanged and the block it outgrew is released; it stays on the stack exactly up to 23 characters, and the new capacity is the length and 1, or the old one doubled if that is not enough |
| `DocString.NewCapacity` | source/projects/kernel/thirdparty/doctest/doctest.h:3692-3695 | a capacity that is no longer enough is doubled, or made just enough if that is more |
| `DocString.Memcpy` | source/projects/kernel/thirdparty/doctest/doctest.h:3662-3710 | copies exactly the range, and is undefined exactly when the ranges overlap |
| `DocString.Run` | source/projects/kernel/thirdparty/doctest/doctest.h:3598-3751 | any sequence of these operations on any number of strings is defined if and only if none appends a string to itself, and then leaves them holding what plain sequences would, sharing no storage, and between them exactly the blocks that are allocated |
| `DocString.DestroyAll` | source/projects/kernel/thirdparty/doctest/doctest.h:3633-3636 | the destructors release each of these blocks once and leave none |
| `DocString.Scope` | source/projects/kernel/thirdparty/doctest/doctest.h:3598-3751 | so a whole scope neither leaks nor releases twice |
| `CalcParse.ParseAllIsGrammar` | javascript/calc.js:99-103 | the descent finds a derivation of the whole token list exactly when the grammar has it |
| `CalcParse.SoundExpr` | javascript/calc.js:159-170 | what is read off the front is derived by the grammar, and the rest is untouched |
| `CalcParse.CompleteExpr` | javascript/calc.js:159-170 | every derivation is found, whatever follows that cannot continue it |
| `CalcParse.CompleteTerm` | javascript/calc.js:172-193 | likewise for terms |
| `CalcParse.CompletePower` | javascript/calc.js:195-201 | likewise for powers, right associative |
| `CalcParse.CompleteUnary` | javascript/calc.js:203-211 | likewise for signs |
| `CalcParse.CompletePrimary` | javascript/calc.js:213-265 | likewise for primaries |
| `CalcParse.CompleteArgs` | javascript/calc.js:233-240 | likewise for argument lists |
| `CalcParse.Unambiguous` | javascript/calc.js:99-103 | no token list has two derivations |
| `Calc.Parser.ParseExpr` | javascript/calc.js:159-170 | agrees with parsing first and evaluating afterwards: with a derivation its value or its fault and the same rest, without one the first fault in reading order; success consumes a token |
| `Calc.Parser.ParseTerm` | javascript/calc.js:172-193 | the same for terms, zero divisors included |
| `Calc.Parser.ParsePower` | javascript/calc.js:195-201 | the same for powers |
| `Calc.Parser.ParseUnary` | javascript/calc.js:203-211 | the same for signs |
| `Calc.Parser.ParsePrimary` | javascript/calc.js:213-265 | the same for primaries, unknown names and wrong arities included |
| `Calc.Parser.ParseArgs` | javascript/calc.js:233-240 | the same for argument lists |
| `Calc.ProductsSteps` | javascript/calc.js:172-193 | one step of the product loop is one step of the two-phase calculator |
| `Calc.PowerSteps` | javascript/calc.js:195-201 | one level of the power is one step of the two-phase calculator |
| `CalcText.ScanNumber` | javascript/calc.js:46-64 | the number loop stops where the longest number ends |
| `CalcText.Tokenize` | javascript/calc.js:34-94 | the loop gives the tokens of the text, or a SyntaxError |
| `CalcText.LexFault` | javascript/calc.js:66-90 | the tokenizer throws nothing but SyntaxError |
| `CalcText.Calculate` | javascript/calc.js:268-292 | answers the finite value of the derivation of the text's tokens, its fault, MathError if not finite, and without a derivation the first fault in reading order or SyntaxError for what trails |
| `CalcText.AnswersExactly` | javascript/calc.js:268-292 | the answer is v exactly when the tokens derive an expression whose separate evaluation is v, and v is finite |
| `CalcPrint.ExprMeans` | javascript/calc.js:159-265 | the derivation of a printed expression has the expression's meaning |
| `CalcPrint.ExprYield` | javascript/calc.js:99-103 | the printed tokens are what that derivation derives |
| `CalcFewest.ExprFewest` | javascript/calc.js:99-103 | no derivation of the same expression has fewer parentheses than the printed one |
| `CalcRoundTrip.PiecesRead` | javascript/calc.js:34-94 | tokens printed without spaces are read back as they were |
| `CalcRoundTrip.PrintReads` | javascript/calc.js:34-94 | the text of an expression tokenizes to the yield of its derivation |
| `CalcRoundTrip.RoundTrip` | javascript/calc.js:34-292 | whatever `calculate` answers to a printed expression is its meaning, value or fault |
| `CalcRoundTrip.InheritedIsTypeError` | javascript/calc.js:225-246 | a call is a NameError exactly when its name is neither a function nor inherited by the table, or an argument is one; an inherited name gives a TypeError |
| `CalcRoundTrip.ConstructorExample` | javascript/calc.js:225-246 | `constructor(1)` is answered by a TypeError |
| `CalcLaws.Operators` | javascript/calc.js:159-201 | from text to answer: each of + - * / % ^ between two numerals applies its own operation in that order, with ZeroDivisionError for a zero divisor and MathError if not finite |
| `CalcLaws.Signs` | javascript/calc.js:203-211 | - negates and + does not |
| `CalcLaws.ProductsFirst` | javascript/calc.js:159-193 | a sum with a product multiplies first |
| `CalcLaws.PowersFirst` | javascript/calc.js:172-201 | a product with a power raises first |
| `CalcLaws.GroupsFirst` | javascript/calc.js:258-262 | parentheses go first |
| `CalcLaws.SumsFromTheLeft` | javascript/calc.js:159-170 | differences are taken from the left |
| `CalcLaws.ProductsFromTheLeft` | javascript/calc.js:172-193 | so are quotients |
| `CalcLaws.PowersFromTheRight` | javascript/calc.js:195-201 | powers are taken from the right |
| `CalcLaws.SignsFirst` | javascript/calc.js:99-103 | a sign binds tighter than a power |
| `CalcLaws.Names` | javascript/calc.js:249-255 | `pi` and `e` are their constants; a function's bare name is a SyntaxError, any other a NameError |
| `CalcLaws.UnaryCalls` | javascript/calc.js:225-246 | each function of one argument by its name; a TypeError for those of two and for inherited names, else a NameError |
| `CalcLaws.BinaryCalls` | javascript/calc.js:225-246 | each function of two arguments by its name and in that order; a TypeError for those of one |
| `CalcLaws.EmptyCalls` | javascript/calc.js:225-246 | a call of a function without arguments is a TypeError |
| `CalcLaws.Numerals` | javascript/calc.js:46-72 | digits, with a point, an exponent or a sign in it, are one token with the value of that text, whatever follows that does not go on with it |
| `CalcLaws.NamesFold` | javascript/calc.js:74-81 | a name is the token of its letters in lower case |
| `CalcLaws.OtherCharacters` | javascript/calc.js:34-94 | blanks are skipped, operators are symbols of their own, anything else is a SyntaxError |
| `CalcFaults.BadStart` | javascript/calc.js:213-264 | an empty text, and one that begins with an operator or a closing parenthesis, is a SyntaxError |
| `CalcFaults.MissingOperand` | javascript/calc.js:213-216 | so is an operator without an operand behind it |
| `CalcFaults.Trailing` | javascript/calc.js:280-285 | so is what trails an expression |
| `CalcFaults.Unclosed` | javascript/calc.js:258-262 | so is an open parenthesis |
| `Utf8.TableIs` | source/projects/kernel/thirdparty/xeus/src/xlogger_impl.cpp:63-89 | the table's next state for every state and byte |
| `Utf8.MaskedBits` | source/projects/kernel/thirdparty/xeus/src/xlogger_impl.cpp:85-87 | `0xff >> class` keeps the low 8 - class bits of a byte |
| `Utf8.FoldedFits` | source/projects/kernel/thirdparty/xeus/src/xlogger_impl.cpp:85-87 | a code point stays within 32 bits; a continuation byte appends its six bits |
| `Utf8.DecodeUtf8` | source/projects/kernel/thirdparty/xeus/src/xlogger_impl.cpp:60-91 | one byte: the next state by the table and the accumulated code point |
| `Utf8.EncodeThenScalar` | source/projects/kernel/thirdparty/xeus/src/xlogger_impl.cpp:85-87 | every scalar value has a sequence of section 4 of RFC 3629 that encodes it |
| `Utf8.ScalarThenEncode` | source/projects/kernel/thirdparty/xeus/src/xlogger_impl.cpp:85-87 | every such sequence is the encoding of one scalar value, so the two are inverse |
| `Utf8.SequenceRuns` | source/projects/kernel/thirdparty/xeus/src/xlogger_impl.cpp:83-90 | a sequence leads back to the accepting state first at its end, with its own code point |
| `Utf8.ReadsAreAccepted` | source/projects/kernel/thirdparty/xeus/src/xlogger_impl.cpp:93-104 | what section 4 of RFC 3629 derives is accepted, with the encoded code points at the returns |
| `Utf8.AcceptedReads` | source/projects/kernel/thirdparty/xeus/src/xlogger_impl.cpp:93-104 | what is accepted is derived, and the code points at the returns are the encoded ones |
| `Utf8.ReadingIsUnique` | source/projects/kernel/thirdparty/xeus/src/xlogger_impl.cpp:93-104 | a byte string encodes at most one sequence of code points |
| `Utf8.IsUtf8Valid` | source/projects/kernel/thirdparty/xeus/src/xlogger_impl.cpp:93-104 | true exactly for concatenations of section 4 sequences, with their code points at the returns to accept |

## Left out

- ZMQ sockets, signing, heartbeat, comms, debugger and history manager: plumbing around the protocol.
- `stop_on_error`: requests are taken with it false, so the queue is never aborted.
- Contents of fixed replies (complete, inspect, kernel info) and of control replies: constants.
- Exceptions other than the JSON library's and the calculator's, allocation failure, counter overflow and
  weak memory ordering: atomics and queue operations are sequentially consistent steps.
- Storing the timeout while a kernel runs is allowed at any time, which is more than the source does.
- `Interpreter.MaxInterpreter` runs Max's threads from a finite, arbitrary schedule, so that its loops
  terminate; that Max could push forever is covered by the runs of the protocol only.
- ProtocolTheorems.QueuedCellsAreAnsweredInTime: d is a property of the schedule and not of the poll timeout;
  it bounds the time, handlers included, from one deadline test that leaves a cell waiting to the next, and
  from the arrival of a cell in an empty queue to the first.
- A restart after a leaked stop, where two server threads share the struct, is part of `Lifecycle.dfy`; a
  run of the protocol is one start, up to and past the stop that could not join its thread.
- The local reset of the active context and the steps of `complete_front` and the callback that touch no
  shared state are merged with a neighbouring operation.
- JSON numbers are of one kind; binary values and discarded values are missing; `size_type` overflow of an
  index (error 410) is missing; pointers are sequences of unescaped tokens, so parsing and escaping are not
  part of this model; neither is decoding a patch document into operations (errors 104 and 105).
- JSON trees are values: `Document` is updated in place at its root, nested updates rebuild the path, and
  moved-from nodes, iterators and references are not modelled. `JsonMerge.MergePatch` returns its result.
- Wildcard.Wildcmp: `tolower` is that of the C locale.
- SubcaseContext.Context.RunTest: no filters, no exceptions, no `abort_after`, and injective hashes. It is
  called on the trees on which the source's loop stops.
- DocString.Run: sizes are unbounded, so 32-bit wrap-around of size and capacity is not modelled; `substr`,
  `find` and comparison are missing; what a string holds after an append to itself is left open.
- Calc.Parser.ParseExpr: faults carry their kind and not their message.
- Calculator arithmetic is a parameter, so nothing is said about floating point or about what `parseFloat`
  makes of a numeral; `CalcRoundTrip.RoundTrip` and the laws in
  `CalcLaws.dfy` take it not to be NaN for a run of digits.
- Lifecycle: start, stop and free are steps of a transition system and not methods, because threads run
  between their steps; left out are connection files, notices and the waiting loops' clocks, exceptions
  thrown by the server loop or by `stop`, and the objects that handlers other than the idle callback use.
  A start that fails does so before its thread is launched.
