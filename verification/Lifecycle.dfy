/**
 The life of the kernel thread: `start`, `stop` and `free` run on Max's main thread in several steps,
 the threads they launch run beside them, and any step of one may fall between two steps of another.
 Restarting after a leaked thread is included.
 */
module Lifecycle {
  import opened Wrappers

  /** How far a kernel thread has come through `kernel_thread_func` and the server loop inside it. */
  datatype Stage =
    | Launched                          // before it reads the object's `impl`
    | Bound                             // holds `impl`, before it tests `impl->kernel`
    | Found                             // the test found a kernel, which it reads again to start it
    | Looping(kernel: nat)              // in the kernel's loop, before it tests whether to stop
    | Serving(kernel: nat)              // polling, or handling a message
    | Checked(kernel: nat)              // in an idle tick, after it found `interpreter_view` set
    | Inside(kernel: nat, view: nat)    // in `on_idle` of the interpreter it read from there
    | Ending                            // before it stores `thread_finished`
    | Gone

  datatype Fate = Attached | Joined | Detached

  /** A thread, the kernel it was launched for, and what became of it. */
  datatype Thread = Thread(stage: Stage, launchedFor: nat, fate: Fate)

  datatype Caller = Start | Stop | Free

  /** Where Max's main thread is. */
  datatype Main =
    | Idle
    | Installing                     // the view is set, the kernel is not made yet
    | Starting                       // the kernel is made, its thread not launched yet
    | Halting(caller: Caller)        // before `kernel->stop()`
    | Polling(caller: Caller)        // waits for `thread_finished` or the deadline
    | Joining(caller: Caller)
    | Detaching(caller: Caller)
    | Hiding(caller: Caller)         // clears the view
    | Resetting(caller: Caller)      // destroys kernel and context
    | HidingLeaked(caller: Caller)   // sets `leaked` and clears the view
    | Releasing(caller: Caller)      // leaks kernel and context
    | Unhooking                      // clears the notifier
    | FreeingQelem
    | FreeingImpl
    | Over

  /** Kernels are numbered in the order of their creation and own their context and interpreter. */
  datatype World = World(
    box: bool,                 // the Max object is allocated
    impl: bool,                // the shared struct is allocated
    qelem: bool,               // the queue element is allocated
    notifier: bool,            // the notifier closure over the queue element is set
    leaked: bool,
    finished: bool,            // thread_finished
    kernel: Option<nat>,       // impl->kernel
    view: Option<nat>,         // impl->interpreter_view, as the kernel of that interpreter
    slot: Option<nat>,         // impl->kernel_thread
    created: nat,              // kernels created so far
    stopped: set<nat>,         // kernels whose server was asked to stop
    destroyed: set<nat>,
    threads: seq<Thread>,
    main: Main)

  function Fresh(): World {
    World(true, true, true, true, false, false, None, None, None, 0, {}, {}, [], Idle)
  }

  datatype Action =
    | CallStart | Install | Launch | StartFails
    | CallStop | CallFree
    | Halt | SeeFinished | GiveUp
    | Join | Detach | HideView | Reset | Release
    | ClearNotifier | FreeQelem | FreeImpl
    | ReadImpl(t: nat) | TestKernel(t: nat) | ReadKernel(t: nat)
    | TestStop(t: nat) | Notify(t: nat) | ClientStop(t: nat) | EndTurn(t: nat)
    | TestView(t: nat) | ReadView(t: nat) | EndTick(t: nat)
    | Publish(t: nat)

  function StageOf(w: World, t: nat): Stage { if t < |w.threads| then w.threads[t].stage else Gone }

  predicate Enabled(w: World, a: Action) {
    match a
    case CallStart => w.main.Idle? && w.kernel.None?
    case Install => w.main.Installing?
    case Launch => w.main.Starting?
    case StartFails => w.main.Installing? || w.main.Starting?
    case CallStop => w.main.Idle? && w.kernel.Some?
    case CallFree => w.main.Idle?
    case Halt => w.main.Halting?
    case SeeFinished => w.main.Polling? && w.finished
    case GiveUp => w.main.Polling?
    case Join => w.main.Joining? && w.slot.Some? && w.slot.value < |w.threads| && StageOf(w, w.slot.value) == Gone
    case Detach => w.main.Detaching? && w.slot.Some? && w.slot.value < |w.threads|
    case HideView => w.main.Hiding? || w.main.HidingLeaked?
    case Reset => w.main.Resetting?
    case Release => w.main.Releasing?
    case ClearNotifier => w.main.Unhooking?
    case FreeQelem => w.main.FreeingQelem?
    case FreeImpl => w.main.FreeingImpl?
    case ReadImpl(t) => StageOf(w, t).Launched?
    case TestKernel(t) => StageOf(w, t).Bound?
    case ReadKernel(t) => StageOf(w, t).Found?
    case TestStop(t) => StageOf(w, t).Looping?
    case Notify(t) => StageOf(w, t).Serving? || StageOf(w, t).Inside?
    case ClientStop(t) => StageOf(w, t).Serving?
    case EndTurn(t) => StageOf(w, t).Serving?
    case TestView(t) => StageOf(w, t).Serving?
    case ReadView(t) => StageOf(w, t).Checked?
    case EndTick(t) => StageOf(w, t).Inside?
    case Publish(t) => StageOf(w, t).Ending?
  }

  /** The stage a thread's step takes it to. After a step that faults it is arbitrary. */
  function StageAfter(w: World, a: Action): Stage
    requires Enabled(w, a) && IsThreadStep(a)
  {
    var s := StageOf(w, a.t);
    match a
    case ReadImpl(_) => if w.box then Bound else Gone
    case TestKernel(_) => if w.kernel.Some? then Found else Ending
    case ReadKernel(_) => if w.kernel.Some? then Looping(w.kernel.value) else Gone
    case TestStop(_) => if s.kernel in w.stopped then Ending else Serving(s.kernel)
    case EndTurn(_) => Looping(s.kernel)
    case TestView(_) => if w.view.Some? then Checked(s.kernel) else Looping(s.kernel)
    case ReadView(_) => if w.view.Some? then Inside(s.kernel, w.view.value) else Gone
    case EndTick(_) => Looping(s.kernel)
    case Publish(_) => Gone
    case _ => s
  }

  predicate IsThreadStep(a: Action) {
    || a.ReadImpl? || a.TestKernel? || a.ReadKernel? || a.TestStop? || a.Notify? || a.ClientStop? || a.EndTurn?
    || a.TestView? || a.ReadView? || a.EndTick? || a.Publish?
  }

  function ThreadNext(w: World, a: Action): World
    requires Enabled(w, a) && IsThreadStep(a)
  {
    w.(threads := w.threads[a.t := w.threads[a.t].(stage := StageAfter(w, a))],
    finished := w.finished || a.Publish?,
    stopped := w.stopped + if a.ClientStop? then {StageOf(w, a.t).kernel} else {})
  }

  function Back(caller: Caller): Main { if caller == Free then Unhooking else Idle }

  function Only(k: Option<nat>): set<nat> { if k.Some? then {k.value} else {} }

  function BeginStart(w: World): World {
    w.(view := Some(w.created), created := w.created + 1, finished := false, main := Installing)
  }

  function InstallKernel(w: World): World { w.(kernel := w.view, main := Starting) }

  function LaunchThread(w: World): World {
    var k := if w.kernel.Some? then w.kernel.value else 0;
    w.(threads := w.threads + [Thread(Launched, k, Attached)], slot := Some(|w.threads|), main := Idle)
  }

  /** An interpreter no kernel owns yet is destroyed when the exception leaves its block. */
  function FailStart(w: World): World {
    w.(destroyed := w.destroyed + (if w.main.Installing? then Only(w.view) else {}), main := Hiding(Start))
  }

  function HaltServer(w: World, c: Caller): World { w.(stopped := w.stopped + Only(w.kernel), main := Polling(c)) }

  /** Let go of the thread in the slot. */
  function Part(w: World, fate: Fate, main: Main): World
    requires w.slot.Some? && w.slot.value < |w.threads|
  {
    w.(slot := None, threads := w.threads[w.slot.value := w.threads[w.slot.value].(fate := fate)], main := main)
  }

  function Hide(w: World, c: Caller): World { w.(view := None, main := Resetting(c)) }

  function HideLeaked(w: World, c: Caller): World { w.(leaked := true, view := None, main := Releasing(c)) }

  function ResetKernel(w: World, c: Caller): World {
    w.(destroyed := w.destroyed + Only(w.kernel), kernel := None, finished := w.finished && c == Start, main := Back(c))
  }

  function ReleaseKernel(w: World, c: Caller): World { w.(kernel := None, main := Back(c)) }

  function MainStep(w: World, a: Action): World
    requires Enabled(w, a) && !IsThreadStep(a)
  {
    match a
    case CallStart => BeginStart(w)
    case Install => InstallKernel(w)
    case Launch => LaunchThread(w)
    case StartFails => FailStart(w)
    case CallStop => w.(main := Halting(Stop))
    case CallFree => w.(main := if w.kernel.Some? then Halting(Free) else Unhooking)
    case Halt => HaltServer(w, w.main.caller)
    case SeeFinished => w.(main := Joining(w.main.caller))
    case GiveUp => w.(main := Detaching(w.main.caller))
    case Join => Part(w, Joined, Hiding(w.main.caller))
    case Detach => Part(w, Detached, HidingLeaked(w.main.caller))
    case HideView => if w.main.Hiding? then Hide(w, w.main.caller) else HideLeaked(w, w.main.caller)
    case Reset => ResetKernel(w, w.main.caller)
    case Release => ReleaseKernel(w, w.main.caller)
    case ClearNotifier => w.(notifier := false, main := FreeingQelem)
    case FreeQelem => w.(qelem := false, main := FreeingImpl)
    case FreeImpl => w.(impl := w.leaked, box := false, main := Over)
  }

  function Next(w: World, a: Action): World
    requires Enabled(w, a)
  {
    if IsThreadStep(a) then ThreadNext(w, a) else MainStep(w, a)
  }

  // ------------------------------------------------------------- what steps touch

  predicate TouchesImpl(a: Action) {
    a.TestKernel? || a.ReadKernel? || a.TestView? || a.ReadView? || a.Notify? || a.Publish?
  }

  /** A notification that reaches `qelem_set`. */
  predicate SetsQelem(w: World, a: Action) { a.Notify? && w.notifier }

  predicate FreesImpl(w: World, a: Action) { a.FreeImpl? && !w.leaked }

  ghost predicate NeverDetached(w: World) { forall t :: 0 <= t < |w.threads| ==> !w.threads[t].fate.Detached? }

  // ------------------------------------------------------------------------- runs

  ghost predicate IsRun(worlds: seq<World>, acts: seq<Action>) {
    && |worlds| == |acts| + 1 && worlds[0] == Fresh()
    && (forall i :: 0 <= i < |acts| ==> Enabled(worlds[i], acts[i]) && worlds[i + 1] == Next(worlds[i], acts[i]))
  }

  // -------------------------------------------------------------------- invariant

  ghost predicate ThreadsOk(threads: seq<Thread>, slot: Option<nat>, created: nat) {
    && (forall t :: 0 <= t < |threads| ==>
        && (threads[t].fate.Attached? <==> slot == Some(t))
        && (threads[t].fate.Joined? ==> threads[t].stage.Gone?)
        && threads[t].launchedFor < created)
    && (slot.Some? ==> slot.value < |threads|)
  }

  /** Each kernel has at most one thread, and none once it is destroyed and not joined. */
  ghost predicate KernelsOk(threads: seq<Thread>, slot: Option<nat>, kernel: Option<nat>, destroyed: set<nat>,
    created: nat) {
    && (forall t, u :: 0 <= t < u < |threads| ==> threads[t].launchedFor != threads[u].launchedFor)
    && (forall t :: 0 <= t < |threads| && threads[t].launchedFor in destroyed ==> threads[t].fate.Joined?)
    && (forall k :: k in destroyed ==> k < created)
    && (kernel.Some? ==> kernel.value < created && kernel.value !in destroyed)
    && (slot.Some? && slot.value < |threads| ==> kernel == Some(threads[slot.value].launchedFor))
  }

  ghost predicate SomeDetached(threads: seq<Thread>) { exists t :: 0 <= t < |threads| && threads[t].fate.Detached? }

  /** Where the main thread is says what it holds. */
  ghost predicate MainOk(w: World) {
    match w.main
    case Idle => (w.kernel.Some? <==> w.slot.Some?) && w.view == w.kernel
    case Installing => w.kernel.None? && w.slot.None? && w.view.Some?
    case Starting => w.kernel.Some? && w.slot.None? && w.view == w.kernel
    case Hiding(_) => w.slot.None?
    case Resetting(_) => w.slot.None? && w.view.None?
    case HidingLeaked(c) => w.kernel.Some? && w.slot.None? && w.view == w.kernel && !c.Start?
    case Releasing(c) => w.kernel.Some? && w.slot.None? && w.view.None? && !c.Start?
    case Unhooking => w.kernel.None? && w.slot.None? && w.view.None?
    case FreeingQelem => w.kernel.None? && w.slot.None? && w.view.None?
    case FreeingImpl => w.kernel.None? && w.slot.None? && w.view.None?
    case Over => w.kernel.None? && w.slot.None? && w.view.None?
    case _ => w.kernel.Some? && w.slot.Some? && w.view == w.kernel && !w.main.caller.Start?
  }

  /** `leaked` tells whether a thread was ever detached. */
  ghost predicate LeakOk(w: World) { w.leaked || w.main.HidingLeaked? <==> SomeDetached(w.threads) }

  /** A kernel about to be destroyed has no thread that is not joined. */
  ghost predicate ResetOk(w: World) {
    w.main.Hiding? || w.main.Resetting? ==>
      forall t :: 0 <= t < |w.threads| && Some(w.threads[t].launchedFor) == w.kernel ==> w.threads[t].fate.Joined?
  }

  ghost predicate HooksOk(w: World) {
    && (w.notifier ==> w.qelem)
    && (w.main.FreeingQelem? || w.main.FreeingImpl? || w.main.Over? ==> !w.notifier)
    && (!w.qelem <==> w.main.FreeingImpl? || w.main.Over?)
    && (w.box <==> !w.main.Over?)
    && (w.impl <==> !(w.main.Over? && !w.leaked))
  }

  /** A start makes a new kernel, which no thread was launched for yet. */
  ghost predicate FreshKernel(w: World) {
    w.main.Installing? || w.main.Starting? ==>
      && w.created > 0 && w.view == Some(w.created - 1) && w.created - 1 !in w.destroyed
      && forall t :: 0 <= t < |w.threads| ==> w.threads[t].launchedFor < w.created - 1
  }

  ghost predicate Abandoned(threads: seq<Thread>, k: nat) {
    exists t :: 0 <= t < |threads| && threads[t].launchedFor == k && threads[t].fate.Detached?
  }

  /** A kernel that is neither current, nor being made, nor destroyed belongs to a detached thread. */
  ghost predicate Accounted(w: World) {
    && (forall k :: 0 <= k < w.created && k !in w.destroyed && w.kernel != Some(k)
          && !(w.main.Installing? && k == w.created - 1)
          ==> Abandoned(w.threads, k))
    && ((w.main.HidingLeaked? || w.main.Releasing?) && w.kernel.Some? ==> Abandoned(w.threads, w.kernel.value))
  }

  ghost predicate Inv(w: World) {
    && ThreadsOk(w.threads, w.slot, w.created)
    && KernelsOk(w.threads, w.slot, w.kernel, w.destroyed, w.created)
    && MainOk(w) && LeakOk(w) && ResetOk(w) && HooksOk(w) && FreshKernel(w) && Accounted(w)
  }

  /** A thread's own steps move its stage forward and leave who it is and what becomes of it alone. */
  ghost predicate OnlyStages(before: seq<Thread>, after: seq<Thread>) {
    && |before| == |after|
    && (forall t :: 0 <= t < |before| ==>
      after[t].launchedFor == before[t].launchedFor && after[t].fate == before[t].fate)
    && (forall t :: 0 <= t < |before| && before[t].stage.Gone? ==> after[t].stage.Gone?)
  }

  lemma ThreadStep(w: World, a: Action)
    requires Enabled(w, a) && IsThreadStep(a)
    ensures var v := Next(w, a);
      && v == w.(threads := v.threads, finished := v.finished, stopped := v.stopped)
      && OnlyStages(w.threads, v.threads)
  {
    hide OnlyStages, StageAfter, Enabled;
    ActorIsLive(w, a);
    StageMoves(w.threads, a.t, StageAfter(w, a));
  }

  lemma ActorIsLive(w: World, a: Action)
    requires Enabled(w, a) && IsThreadStep(a)
    ensures a.t < |w.threads| && !w.threads[a.t].stage.Gone?
  {}

  lemma StageMoves(threads: seq<Thread>, t: nat, stage: Stage)
    requires t < |threads| && !threads[t].stage.Gone?
    ensures OnlyStages(threads, threads[t := threads[t].(stage := stage)])
  {}

  lemma OnlyStagesThreads(before: seq<Thread>, after: seq<Thread>, slot: Option<nat>, created: nat)
    requires OnlyStages(before, after) && ThreadsOk(before, slot, created)
    ensures ThreadsOk(after, slot, created)
  {}

  lemma OnlyStagesKernels(before: seq<Thread>, after: seq<Thread>, slot: Option<nat>, kernel: Option<nat>,
    destroyed: set<nat>, created: nat)
    requires OnlyStages(before, after) && KernelsOk(before, slot, kernel, destroyed, created)
    ensures KernelsOk(after, slot, kernel, destroyed, created)
  {}

  lemma OnlyStagesDetached(before: seq<Thread>, after: seq<Thread>)
    requires OnlyStages(before, after)
    ensures SomeDetached(before) <==> SomeDetached(after)
    ensures forall k :: Abandoned(before, k) ==> Abandoned(after, k)
  {
    StagesKeepDetached(before, after);
    hide OnlyStages;
    SameDetached(before, after);
    AbandonedStays(before, after);
  }

  /** A thread's own step keeps the invariant. */
  lemma InvThread(w: World, a: Action)
    requires Inv(w) && Enabled(w, a) && IsThreadStep(a)
    ensures Inv(Next(w, a))
  {
    hide Next, Enabled, OnlyStages, ThreadsOk, KernelsOk, SomeDetached, Abandoned;
    var v := Next(w, a);
    ThreadStep(w, a);
    OnlyStagesThreads(w.threads, v.threads, w.slot, w.created);
    OnlyStagesKernels(w.threads, v.threads, w.slot, w.kernel, w.destroyed, w.created);
    OnlyStagesDetached(w.threads, v.threads);
    StagesKeepDetached(w.threads, v.threads);
  }

  // the steps of the main thread

  lemma InvBeginStart(w: World)
    requires Inv(w) && w.main.Idle? && w.kernel.None?
    ensures Inv(BeginStart(w))
  {
    hide Abandoned, SomeDetached;
  }

  lemma InvInstall(w: World)
    requires Inv(w) && w.main.Installing?
    ensures Inv(InstallKernel(w))
  {
    hide Abandoned, SomeDetached;
  }

  lemma InvLaunch(w: World)
    requires Inv(w) && w.main.Starting?
    ensures Inv(LaunchThread(w))
  {
    var v := LaunchThread(w);
    LaunchDetached(w.threads, v.threads[|w.threads|]);
    hide Abandoned, SomeDetached;
  }

  lemma LaunchDetached(threads: seq<Thread>, thread: Thread)
    requires !thread.fate.Detached?
    ensures SomeDetached(threads + [thread]) <==> SomeDetached(threads)
    ensures forall k :: Abandoned(threads, k) ==> Abandoned(threads + [thread], k)
  {
    var after := threads + [thread];
    SameDetached(threads, after);
    AbandonedStays(threads, after);
  }

  lemma InvFailStart(w: World)
    requires Inv(w) && (w.main.Installing? || w.main.Starting?)
    ensures Inv(FailStart(w))
  {
    hide Abandoned, SomeDetached;
  }

  lemma InvHalt(w: World, c: Caller)
    requires Inv(w) && w.main == Halting(c)
    ensures Inv(HaltServer(w, c))
  {
    hide ThreadsOk, KernelsOk, Abandoned, SomeDetached;
  }

  /** The main thread moves on and changes nothing. */
  lemma InvGo(w: World, main: Main)
    requires Inv(w)
    requires
      || (w.main.Idle? && w.kernel.Some? && main.Halting? && !main.caller.Start?)
      || (w.main.Idle? && w.kernel.None? && main.Unhooking?)
      || (w.main.Polling? && (main == Joining(w.main.caller) || main == Detaching(w.main.caller)))
    ensures Inv(w.(main := main))
  {
    hide ThreadsOk, KernelsOk, Abandoned, SomeDetached;
  }

  lemma InvJoin(w: World, c: Caller)
    requires Inv(w) && w.main == Joining(c) && w.slot.value < |w.threads| && w.threads[w.slot.value].stage.Gone?
    ensures Inv(Part(w, Joined, Hiding(c)))
  {
    var v := Part(w, Joined, Hiding(c));
    SameDetached(w.threads, v.threads);
    AbandonedStays(w.threads, v.threads);
    hide Abandoned, SomeDetached;
  }

  lemma InvDetach(w: World, c: Caller)
    requires Inv(w) && w.main == Detaching(c) && w.slot.value < |w.threads|
    ensures Inv(Part(w, Detached, HidingLeaked(c)))
  {
    var v := Part(w, Detached, HidingLeaked(c));
    NowAbandoned(v.threads, w.slot.value);
    AbandonedStays(w.threads, v.threads);
    hide Abandoned, SomeDetached;
  }

  lemma InvHide(w: World, c: Caller)
    requires Inv(w)
    ensures w.main == Hiding(c) ==> Inv(Hide(w, c))
    ensures w.main == HidingLeaked(c) ==> Inv(HideLeaked(w, c))
  {
    hide ThreadsOk, KernelsOk, Abandoned, SomeDetached;
  }

  lemma InvReset(w: World, c: Caller)
    requires Inv(w) && w.main == Resetting(c)
    ensures Inv(ResetKernel(w, c))
  {
    hide Abandoned, SomeDetached;
  }

  lemma InvRelease(w: World, c: Caller)
    requires Inv(w) && w.main == Releasing(c)
    ensures Inv(ReleaseKernel(w, c))
  {
    hide Abandoned, SomeDetached;
  }

  lemma InvFree(w: World)
    requires Inv(w)
    ensures w.main.Unhooking? ==> Inv(w.(notifier := false, main := FreeingQelem))
    ensures w.main.FreeingQelem? ==> Inv(w.(qelem := false, main := FreeingImpl))
    ensures w.main.FreeingImpl? ==> Inv(w.(impl := w.leaked, box := false, main := Over))
  {
    hide ThreadsOk, KernelsOk, Abandoned, SomeDetached;
  }

  lemma SameDetached(before: seq<Thread>, after: seq<Thread>)
    requires |before| <= |after|
    requires forall t :: 0 <= t < |before| && before[t].fate.Detached? ==> after[t].fate.Detached?
    requires forall t :: 0 <= t < |after| && after[t].fate.Detached? ==> t < |before| && before[t].fate.Detached?
    ensures SomeDetached(before) <==> SomeDetached(after)
  {}

  lemma AbandonedStays(before: seq<Thread>, after: seq<Thread>)
    requires |before| <= |after|
    requires forall t :: 0 <= t < |before| ==> after[t].launchedFor == before[t].launchedFor
    requires forall t :: 0 <= t < |before| && before[t].fate.Detached? ==> after[t].fate.Detached?
    ensures forall k :: Abandoned(before, k) ==> Abandoned(after, k)
  {
    forall k | Abandoned(before, k) ensures Abandoned(after, k) {
      var t :| 0 <= t < |before| && before[t].launchedFor == k && before[t].fate.Detached?;
      assert after[t].launchedFor == k;
    }
  }

  lemma NowAbandoned(threads: seq<Thread>, t: nat)
    requires t < |threads| && threads[t].fate.Detached?
    ensures Abandoned(threads, threads[t].launchedFor) && SomeDetached(threads)
  {}

  lemma StagesKeepDetached(before: seq<Thread>, after: seq<Thread>)
    requires OnlyStages(before, after)
    ensures |before| == |after|
    ensures forall t :: 0 <= t < |before| ==>
      after[t].launchedFor == before[t].launchedFor && after[t].fate == before[t].fate
  {}

  /** Every step of the main thread keeps the invariant. */
  lemma InvMain(w: World, a: Action)
    requires Inv(w) && Enabled(w, a) && !IsThreadStep(a)
    ensures Inv(MainStep(w, a))
  {
    hide Inv, BeginStart, InstallKernel, LaunchThread, FailStart, HaltServer, Part, Hide, HideLeaked,
         ResetKernel, ReleaseKernel;
    match a
    case CallStart => InvBeginStart(w);
    case Install => InvInstall(w);
    case Launch => InvLaunch(w);
    case StartFails => InvFailStart(w);
    case CallStop => InvGo(w, Halting(Stop));
    case CallFree => InvGo(w, if w.kernel.Some? then Halting(Free) else Unhooking);
    case Halt => InvHalt(w, w.main.caller);
    case SeeFinished => InvGo(w, Joining(w.main.caller));
    case GiveUp => InvGo(w, Detaching(w.main.caller));
    case Join => InvJoin(w, w.main.caller);
    case Detach => InvDetach(w, w.main.caller);
    case HideView => InvHide(w, w.main.caller);
    case Reset => InvReset(w, w.main.caller);
    case Release => InvRelease(w, w.main.caller);
    case ClearNotifier => InvFree(w);
    case FreeQelem => InvFree(w);
    case FreeImpl => InvFree(w);
  }

  lemma InvNext(w: World, a: Action)
    requires Inv(w) && Enabled(w, a)
    ensures Inv(Next(w, a))
  {
    hide Inv, Enabled, MainStep, ThreadNext;
    if IsThreadStep(a) { InvThread(w, a); } else { InvMain(w, a); }
  }

  lemma InvFresh()
    ensures Inv(Fresh())
  {}

  /** Every world of every run satisfies the invariant. */
  lemma {:induction false} RunIsSafe(worlds: seq<World>, acts: seq<Action>, i: nat)
    requires IsRun(worlds, acts) && i < |worlds|
    ensures Inv(worlds[i])
  {
    hide Inv, Next, Enabled;
    if i == 0 {
      InvFresh();
    } else {
      RunIsSafe(worlds, acts, i - 1);
      assert worlds[i - 1 + 1] == Next(worlds[i - 1], acts[i - 1]);
      InvNext(worlds[i - 1], acts[i - 1]);
    }
  }

  // --------------------------------------------------------------------- theorems

  /** A kernel, and the context it owns, is destroyed only when no thread was launched for it or the one
      that was has been joined. */
  lemma DestroyedAfterJoin(worlds: seq<World>, acts: seq<Action>, i: nat, k: nat, t: nat)
    requires IsRun(worlds, acts) && i < |acts| && t < |worlds[i].threads| && worlds[i].threads[t].launchedFor == k
    requires k in worlds[i + 1].destroyed && k !in worlds[i].destroyed
    ensures worlds[i].threads[t].fate.Joined? && worlds[i].threads[t].stage.Gone?
  {
    RunIsSafe(worlds, acts, i);
    assert worlds[i + 1] == Next(worlds[i], acts[i]);
    hide IsRun;
    DestroyStep(worlds[i], acts[i], k, t);
  }

  lemma DestroyStep(w: World, a: Action, k: nat, t: nat)
    requires Inv(w) && Enabled(w, a) && t < |w.threads| && w.threads[t].launchedFor == k
    requires k in Next(w, a).destroyed && k !in w.destroyed
    ensures w.threads[t].fate.Joined? && w.threads[t].stage.Gone?
  {
    hide KernelsOk, HooksOk, LeakOk, Accounted, OnlyStages;
    if IsThreadStep(a) { ThreadStep(w, a); }
  }

  /** The shared struct is freed exactly when `free` ends a run in which no thread was ever detached, and
      then every thread has been joined. */
  lemma FreedUnlessDetached(worlds: seq<World>, acts: seq<Action>, i: nat)
    requires IsRun(worlds, acts) && i < |acts| && acts[i].FreeImpl?
    ensures FreesImpl(worlds[i], acts[i]) <==> NeverDetached(worlds[i])
    ensures FreesImpl(worlds[i], acts[i]) ==>
      forall t :: 0 <= t < |worlds[i].threads| ==> worlds[i].threads[t].fate.Joined?
  {
    RunIsSafe(worlds, acts, i);
    hide KernelsOk, HooksOk, ResetOk, FreshKernel, Accounted, Next;
  }

  /** No notification reaches a freed queue element, and no thread touches a freed struct. */
  lemma NotifyIsSafe(worlds: seq<World>, acts: seq<Action>, i: nat)
    requires IsRun(worlds, acts) && i < |acts|
    ensures SetsQelem(worlds[i], acts[i]) ==> worlds[i].qelem
    ensures TouchesImpl(acts[i]) ==> worlds[i].impl
  {
    RunIsSafe(worlds, acts, i);
    var w := worlds[i];
    if !w.impl { AllGone(w); }
    hide Inv, Next;
  }

  lemma AllGone(w: World)
    requires Inv(w) && !w.impl
    ensures forall t :: 0 <= t < |w.threads| ==> w.threads[t].stage.Gone?
  {}

  /** Once `free` is over, what was created is destroyed, except the kernels of detached threads. */
  lemma NothingElseLeaks(worlds: seq<World>, acts: seq<Action>, i: nat)
    requires IsRun(worlds, acts) && i < |worlds| && worlds[i].main.Over?
    ensures !worlds[i].box && !worlds[i].qelem && !worlds[i].notifier
    ensures worlds[i].impl <==> !NeverDetached(worlds[i])
    ensures forall k :: 0 <= k < worlds[i].created && k !in worlds[i].destroyed ==> Abandoned(worlds[i].threads, k)
  {
    RunIsSafe(worlds, acts, i);
    hide KernelsOk, ResetOk, FreshKernel, Next, Abandoned;
  }
}
