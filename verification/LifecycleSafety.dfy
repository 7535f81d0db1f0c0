/**
 When the kernel threads' accesses to memory are safe. A detached thread may still read the object, the
 struct's kernel or the interpreter view, each twice where the code tests before it uses, and all of
 them may have been cleared, freed or repointed meanwhile.
 */
module LifecycleSafety {
  import opened Wrappers
  import opened Lifecycle

  // ------------------------------------------------------------------------ faults

  /** The kernels a thread in this stage has in its hands. */
  function Uses(s: Stage): set<nat> {
    match s
    case Looping(k) => {k}
    case Serving(k) => {k}
    case Checked(k) => {k}
    case Inside(k, v) => {k, v}
    case _ => {}
  }

  /** A step of a thread that uses what is destroyed or freed, or goes through a null pointer. */
  predicate Faults(w: World, a: Action)
    requires Enabled(w, a)
  {
    IsThreadStep(a) &&
    (|| (a.ReadImpl? && !w.box)
     || (a.ReadKernel? && w.kernel.None?)
     || (a.ReadView? && w.view.None?)
     || Uses(StageOf(w, a.t)) * w.destroyed != {}
     || (TouchesImpl(a) && !w.impl)
     || (SetsQelem(w, a) && !w.qelem))
  }

  /** Some thread's next step is a fault. */
  ghost predicate Faulty(w: World) { exists a :: Enabled(w, a) && Faults(w, a) }

  /** A detached thread in this stage can do no more harm: it has ended, or it will test whether to stop
      before it reads anything, and holds only kernels that were leaked with their threads. */
  ghost predicate Harmless(threads: seq<Thread>, s: Stage) {
    match s
    case Looping(k) => Abandoned(threads, k)
    case Inside(k, v) => Abandoned(threads, k) && Abandoned(threads, v)
    case Ending => true
    case Gone => true
    case _ => false
  }

  ghost predicate IsStranded(threads: seq<Thread>, t: nat) {
    t < |threads| && threads[t].fate.Detached? && !Harmless(threads, threads[t].stage)
  }

  /** A detached thread still has something to read. */
  ghost predicate Stranded(w: World) { exists t: nat :: IsStranded(w.threads, t) }

  // --------------------------------------------------------------------- invariant

  ghost predicate ThreadOwns(w: World, th: Thread) {
    && (th.fate.Attached? ==> Uses(th.stage) <= {th.launchedFor})
    && (forall k :: k in Uses(th.stage) ==> k < w.created)
    && (th.fate.Detached? ==> th.launchedFor in w.stopped)
  }

  /** Threads not detached use their own kernel only; detached ones were asked to stop. */
  ghost predicate Own(w: World) {
    && (forall t :: 0 <= t < |w.threads| ==> ThreadOwns(w, w.threads[t]))
    && (w.view.Some? ==> w.view.value < w.created)
    && (w.slot.Some? && StageOf(w, w.slot.value).Gone? && w.slot.value < |w.threads| ==> w.finished)
    && (w.main.Polling? || w.main.Joining? || w.main.Detaching? ==> w.kernel.Some? && w.kernel.value in w.stopped)
  }

  /** What an attached thread finds. */
  lemma AttachedFinds(w: World, t: nat)
    requires Inv(w) && t < |w.threads| && w.threads[t].fate.Attached?
    ensures var k := w.threads[t].launchedFor;
      w.kernel == Some(k) && w.view == Some(k) && k !in w.destroyed && w.box && w.impl && k < w.created
  {
    hide LeakOk, ResetOk, FreshKernel, Accounted;
  }

  lemma KernelsInRange(w: World)
    requires Inv(w)
    ensures w.kernel.Some? ==> w.kernel.value < w.created && w.kernel.value !in w.destroyed
  {
    hide ThreadsOk, LeakOk, ResetOk, FreshKernel, Accounted, HooksOk, MainOk;
  }

  lemma StageOwns(w: World, a: Action)
    requires Inv(w) && Own(w) && Enabled(w, a) && IsThreadStep(a) && a.t < |w.threads|
    ensures ThreadOwns(w, w.threads[a.t].(stage := StageAfter(w, a)))
  {
    hide Inv, StageAfter, Enabled, Uses;
    var th := w.threads[a.t];
    assert ThreadOwns(w, th);
    KernelsInRange(w);
    StageUses(w, a);
    if th.fate.Attached? { AttachedFinds(w, a.t); }
  }

  lemma StageUses(w: World, a: Action)
    requires Enabled(w, a) && IsThreadStep(a)
    ensures Uses(StageAfter(w, a)) <= Uses(StageOf(w, a.t)) + Only(w.kernel) + Only(w.view)
  {}

  lemma OwnThread(w: World, a: Action)
    requires Inv(w) && Own(w) && Enabled(w, a) && IsThreadStep(a)
    ensures Own(ThreadNext(w, a))
  {
    ActorIsLive(w, a);
    StageOwns(w, a);
    hide Inv, StageAfter, Enabled, Uses;
    var v := ThreadNext(w, a);
    forall t | 0 <= t < |v.threads| ensures ThreadOwns(v, v.threads[t]) {
      if t != a.t { assert ThreadOwns(w, w.threads[t]); }
    }
  }

  lemma OwnMain(w: World, a: Action)
    requires Inv(w) && Own(w) && Enabled(w, a) && !IsThreadStep(a)
    ensures Own(MainStep(w, a))
  {
    hide KernelsOk, HooksOk, LeakOk, ResetOk, FreshKernel, Accounted, ThreadOwns;
    if a.Launch? { OwnLaunch(w); }
    else if a.Join? { OwnPart(w, Joined, Hiding(w.main.caller)); }
    else if a.Detach? { OwnPart(w, Detached, HidingLeaked(w.main.caller)); }
    else { OwnSame(w, MainStep(w, a)); }
  }

  lemma OwnSame(w: World, v: World)
    requires Own(w) && v.threads == w.threads && w.created <= v.created && w.stopped <= v.stopped
    requires v.view.Some? ==> v.view.value < v.created
    requires v.slot.None? || (v.slot == w.slot && v.finished == w.finished)
    requires v.main.Polling? || v.main.Joining? || v.main.Detaching? ==> v.kernel.Some? && v.kernel.value in v.stopped
    ensures Own(v)
  {
    forall t | 0 <= t < |v.threads| ensures ThreadOwns(v, v.threads[t]) { assert ThreadOwns(w, w.threads[t]); }
  }

  lemma OwnLaunch(w: World)
    requires Own(w) && w.main.Starting?
    ensures Own(LaunchThread(w))
  {
    var v := LaunchThread(w);
    forall t | 0 <= t < |v.threads| ensures ThreadOwns(v, v.threads[t]) {
      if t < |w.threads| { assert ThreadOwns(w, w.threads[t]); }
    }
  }

  lemma OwnPart(w: World, fate: Fate, main: Main)
    requires Inv(w) && Own(w) && (w.main.Joining? || w.main.Detaching?) && w.slot.value < |w.threads|
    requires !fate.Attached? && (main.Hiding? || main.HidingLeaked?)
    ensures Own(Part(w, fate, main))
  {
    AttachedFinds(w, w.slot.value);
    hide Inv;
    var v := Part(w, fate, main);
    forall t | 0 <= t < |v.threads| ensures ThreadOwns(v, v.threads[t]) { assert ThreadOwns(w, w.threads[t]); }
  }

  lemma OwnNext(w: World, a: Action)
    requires Inv(w) && Own(w) && Enabled(w, a)
    ensures Own(Next(w, a))
  {
    hide Inv, Own, Enabled, MainStep, ThreadNext;
    if IsThreadStep(a) { OwnThread(w, a); } else { OwnMain(w, a); }
  }

  // ------------------------------------------------------------ no stranded thread

  lemma AbandonedIsKept(w: World, k: nat)
    requires Inv(w) && Own(w) && Abandoned(w.threads, k)
    ensures k !in w.destroyed && k in w.stopped && w.impl
  {
    hide MainOk, ResetOk, FreshKernel, Accounted;
    var t :| 0 <= t < |w.threads| && w.threads[t].launchedFor == k && w.threads[t].fate.Detached?;
    assert ThreadOwns(w, w.threads[t]);
    NowAbandoned(w.threads, t);
    hide Abandoned, Uses;
  }

  lemma DetachedKeepsImpl(w: World, t: nat)
    requires Inv(w) && t < |w.threads| && w.threads[t].fate.Detached?
    ensures w.impl && (w.notifier ==> w.qelem)
  {
    hide ThreadsOk, KernelsOk, MainOk, ResetOk, FreshKernel, Accounted;
    NowAbandoned(w.threads, t);
  }

  /** Without a stranded thread no step is a fault. */
  lemma NoFault(w: World, a: Action)
    requires Inv(w) && Own(w) && !Stranded(w) && Enabled(w, a)
    ensures !Faults(w, a)
  {
    if IsThreadStep(a) {
      ActorIsLive(w, a);
      var th := w.threads[a.t];
      assert ThreadOwns(w, th);
      JoinedIsGone(w, a.t);
      if th.fate.Attached? {
        AttachedNoFault(w, a);
      } else {
        assert !IsStranded(w.threads, a.t);
        DetachedNoFault(w, a);
      }
    }
  }

  lemma JoinedIsGone(w: World, t: nat)
    requires Inv(w) && t < |w.threads|
    ensures w.threads[t].fate.Joined? ==> w.threads[t].stage.Gone?
  {
    hide KernelsOk, HooksOk, MainOk, LeakOk, ResetOk, FreshKernel, Accounted;
  }

  lemma HooksHold(w: World)
    requires Inv(w)
    ensures w.notifier ==> w.qelem
  {
    hide ThreadsOk, KernelsOk, MainOk, LeakOk, ResetOk, FreshKernel, Accounted;
  }

  lemma AttachedNoFault(w: World, a: Action)
    requires Inv(w) && Enabled(w, a) && IsThreadStep(a) && a.t < |w.threads|
    requires w.threads[a.t].fate.Attached? && ThreadOwns(w, w.threads[a.t])
    ensures !Faults(w, a)
  {
    AttachedFinds(w, a.t);
    HooksHold(w);
    hide Inv;
  }

  lemma DetachedNoFault(w: World, a: Action)
    requires Inv(w) && Own(w) && Enabled(w, a) && IsThreadStep(a) && a.t < |w.threads|
    requires w.threads[a.t].fate.Detached? && Harmless(w.threads, w.threads[a.t].stage)
    ensures !Faults(w, a)
  {
    hide Inv, Own, Abandoned;
    DetachedKeepsImpl(w, a.t);
    var s := w.threads[a.t].stage;
    if s.Looping? {
      AbandonedIsKept(w, s.kernel);
    } else if s.Inside? {
      AbandonedIsKept(w, s.kernel);
      AbandonedIsKept(w, s.view);
    }
  }

  /** A harmless thread stays harmless through its own step. */
  lemma StaysHarmless(w: World, a: Action)
    requires Inv(w) && Own(w) && Enabled(w, a) && IsThreadStep(a) && a.t < |w.threads|
    requires Harmless(w.threads, w.threads[a.t].stage)
    ensures Harmless(w.threads, StageAfter(w, a))
  {
    hide Inv, Own, Abandoned;
    if w.threads[a.t].stage.Looping? { AbandonedIsKept(w, w.threads[a.t].stage.kernel); }
  }

  lemma HarmlessGrows(before: seq<Thread>, after: seq<Thread>, s: Stage)
    requires Harmless(before, s) && forall k :: Abandoned(before, k) ==> Abandoned(after, k)
    ensures Harmless(after, s)
  {
    hide Abandoned;
  }

  lemma UnstrandedThread(w: World, a: Action)
    requires Inv(w) && Own(w) && !Stranded(w) && Enabled(w, a) && IsThreadStep(a)
    ensures !Stranded(ThreadNext(w, a))
  {
    ActorIsLive(w, a);
    var v := ThreadNext(w, a);
    assert !IsStranded(w.threads, a.t);
    if w.threads[a.t].fate.Detached? { StaysHarmless(w, a); }
    hide Inv, Own, Enabled, StageAfter;
    StageMoves(w.threads, a.t, StageAfter(w, a));
    OnlyStagesDetached(w.threads, v.threads);
    hide Abandoned, Harmless, OnlyStages;
    forall t: nat ensures !IsStranded(v.threads, t) {
      assert !IsStranded(w.threads, t);
      if t < |w.threads| {
        if Harmless(w.threads, v.threads[t].stage) { HarmlessGrows(w.threads, v.threads, v.threads[t].stage); }
      }
    }
  }

  /** What `Detach` should find: a thread that will not read again. */
  predicate IsSettled(s: Stage) { s.Looping? || s.Inside? || s.Ending? || s.Gone? }

  /** If this step detaches a thread, it is settled. */
  predicate SettledStep(w: World, a: Action) {
    a.Detach? && w.slot.Some? && w.slot.value < |w.threads| ==> IsSettled(w.threads[w.slot.value].stage)
  }

  lemma UnstrandedMain(w: World, a: Action)
    requires Inv(w) && Own(w) && !Stranded(w) && Enabled(w, a) && !IsThreadStep(a) && SettledStep(w, a)
    ensures !Stranded(MainStep(w, a))
  {
    hide Own, Harmless, IsStranded;
    if a.Launch? { UnstrandedLaunch(w); }
    else if a.Join? { UnstrandedPart(w, Joined, Hiding(w.main.caller)); }
    else if a.Detach? { UnstrandedPart(w, Detached, HidingLeaked(w.main.caller)); }
    else { hide Inv; assert MainStep(w, a).threads == w.threads; }
  }

  lemma UnstrandedLaunch(w: World)
    requires !Stranded(w) && w.main.Starting?
    ensures !Stranded(LaunchThread(w))
  {
    var v := LaunchThread(w);
    LaunchDetached(w.threads, v.threads[|w.threads|]);
    hide Abandoned, Harmless;
    forall t: nat ensures !IsStranded(v.threads, t) {
      assert !IsStranded(w.threads, t);
      if t < |w.threads| && Harmless(w.threads, w.threads[t].stage) {
        HarmlessGrows(w.threads, v.threads, w.threads[t].stage);
      }
    }
  }

  lemma UnstrandedPart(w: World, fate: Fate, main: Main)
    requires Inv(w) && Own(w) && !Stranded(w) && w.slot.Some? && w.slot.value < |w.threads| && !fate.Attached?
    requires fate.Detached? ==> IsSettled(w.threads[w.slot.value].stage)
    ensures !Stranded(Part(w, fate, main))
  {
    var v, s := Part(w, fate, main), w.slot.value;
    assert w.threads[s].fate.Attached? by { SlotIsAttached(w); }
    assert ThreadOwns(w, w.threads[s]);
    hide Inv, Own;
    AbandonedStays(w.threads, v.threads);
    if fate.Detached? { NowAbandoned(v.threads, s); assert Harmless(v.threads, v.threads[s].stage); }
    hide Abandoned, Harmless;
    forall t: nat ensures !IsStranded(v.threads, t) {
      assert !IsStranded(w.threads, t);
      if t < |w.threads| && t != s && Harmless(w.threads, w.threads[t].stage) {
        HarmlessGrows(w.threads, v.threads, w.threads[t].stage);
      }
    }
  }

  lemma SlotIsAttached(w: World)
    requires Inv(w) && w.slot.Some? && w.slot.value < |w.threads|
    ensures w.threads[w.slot.value].fate.Attached?
  {
    hide KernelsOk, HooksOk, MainOk, LeakOk, ResetOk, FreshKernel, Accounted;
  }

  lemma UnstrandedNext(w: World, a: Action)
    requires Inv(w) && Own(w) && !Stranded(w) && Enabled(w, a) && SettledStep(w, a)
    ensures !Stranded(Next(w, a))
  {
    hide Inv, Own, Stranded, Enabled, MainStep, ThreadNext, SettledStep;
    if IsThreadStep(a) { UnstrandedThread(w, a); } else { UnstrandedMain(w, a); }
  }

  // ------------------------------------------------------------------- over all runs

  lemma {:induction false} RunOwns(worlds: seq<World>, acts: seq<Action>, i: nat)
    requires IsRun(worlds, acts) && i < |worlds|
    ensures Inv(worlds[i]) && Own(worlds[i])
  {
    hide Inv, Own, Next, Enabled;
    RunIsSafe(worlds, acts, i);
    if i == 0 {
      FreshOwns();
    } else {
      RunOwns(worlds, acts, i - 1);
      assert worlds[i - 1 + 1] == Next(worlds[i - 1], acts[i - 1]);
      OwnNext(worlds[i - 1], acts[i - 1]);
    }
  }

  lemma FreshOwns()
    ensures Own(Fresh()) && !Stranded(Fresh())
  {}

  lemma NotFaulty(w: World)
    requires Inv(w) && Own(w) && !Stranded(w)
    ensures !Faulty(w)
  {
    hide Inv, Own, Stranded, Enabled, Faults;
    forall a | Enabled(w, a) ensures !Faults(w, a) { NoFault(w, a); }
  }

  /** While no thread has ever been detached, no step of a thread is a fault. */
  lemma LeakFreeRunsAreSafe(worlds: seq<World>, acts: seq<Action>, i: nat)
    requires IsRun(worlds, acts) && i < |worlds| && NeverDetached(worlds[i])
    ensures !Faulty(worlds[i])
  {
    hide Inv, Own, Next, Enabled, Faulty;
    RunOwns(worlds, acts, i);
    NotFaulty(worlds[i]);
  }

  /** If every thread that is detached is settled, nothing is ever stranded and no step is a fault,
      restarts after a leak included. */
  lemma {:induction false} SettledRunsAreSafe(worlds: seq<World>, acts: seq<Action>, i: nat)
    requires IsRun(worlds, acts) && i < |worlds|
    requires forall j :: 0 <= j < |acts| ==> SettledStep(worlds[j], acts[j])
    ensures !Stranded(worlds[i]) && !Faulty(worlds[i])
  {
    hide Inv, Own, Next, Enabled, Faulty, Stranded, SettledStep;
    RunOwns(worlds, acts, i);
    if i == 0 {
      FreshOwns();
    } else {
      SettledRunsAreSafe(worlds, acts, i - 1);
      RunOwns(worlds, acts, i - 1);
      assert worlds[i - 1 + 1] == Next(worlds[i - 1], acts[i - 1]);
      UnstrandedNext(worlds[i - 1], acts[i - 1]);
    }
    NotFaulty(worlds[i]);
  }

  // ---------------------------------------------------------------- what can follow

  /** Steps from one world on, none of which detaches a thread. */
  ghost predicate IsPath(worlds: seq<World>, acts: seq<Action>) {
    && |worlds| == |acts| + 1
    && forall i :: 0 <= i < |acts| ==>
         !acts[i].Detach? && Enabled(worlds[i], acts[i]) && worlds[i + 1] == Next(worlds[i], acts[i])
  }

  ghost predicate Leads(w: World, v: World) {
    exists worlds, acts :: IsPath(worlds, acts) && worlds[0] == w && worlds[|acts|] == v
  }

  /** A fault can follow without any further thread being detached. */
  ghost predicate CanFault(w: World) { exists v :: Leads(w, v) && Faulty(v) }

  lemma LeadsHere(w: World)
    ensures Leads(w, w)
  {
    var worlds: seq<World>, acts: seq<Action> := [w], [];
    assert IsPath(worlds, acts) && worlds[0] == w && worlds[|acts|] == w;
  }

  lemma LeadsOn(w: World, v: World, a: Action)
    requires Leads(w, v) && Enabled(v, a) && !a.Detach?
    ensures Leads(w, Next(v, a))
  {
    hide Enabled, Next;
    var worlds, acts :| IsPath(worlds, acts) && worlds[0] == w && worlds[|acts|] == v;
    var worlds', acts' := worlds + [Next(v, a)], acts + [a];
    forall i | 0 <= i < |acts'|
      ensures !acts'[i].Detach? && Enabled(worlds'[i], acts'[i]) && worlds'[i + 1] == Next(worlds'[i], acts'[i])
    {
      if i < |acts| { assert worlds'[i] == worlds[i] && worlds'[i + 1] == worlds[i + 1]; }
    }
    assert IsPath(worlds', acts') && worlds'[0] == w && worlds'[|acts'|] == Next(v, a);
  }

  /** On the way from `w`: where it has come to satisfies the invariants. */
  ghost predicate Onward(w: World, v: World) { Leads(w, v) && Inv(v) && Own(v) }

  lemma Go(w: World, v: World, a: Action) returns (v': World)
    requires Onward(w, v) && Enabled(v, a) && !a.Detach?
    ensures v' == Next(v, a) && Onward(w, v')
  {
    hide Leads, Inv, Own, Enabled, Next;
    v' := Next(v, a);
    LeadsOn(w, v, a);
    InvNext(v, a);
    OwnNext(v, a);
  }

  lemma FaultAt(w: World, v: World, a: Action)
    requires Onward(w, v) && Enabled(v, a) && Faults(v, a)
    ensures CanFault(w)
  {
    hide Leads, Inv, Own, Enabled, Faults;
    assert Faulty(v);
  }

  lemma {:induction false} PathIsClean(worlds: seq<World>, acts: seq<Action>, i: nat)
    requires IsPath(worlds, acts) && Inv(worlds[0]) && Own(worlds[0]) && !Stranded(worlds[0]) && i < |worlds|
    ensures Inv(worlds[i]) && Own(worlds[i]) && !Stranded(worlds[i])
  {
    hide Inv, Own, Next, Enabled, Stranded;
    if i > 0 {
      PathIsClean(worlds, acts, i - 1);
      assert !acts[i - 1].Detach? && worlds[i - 1 + 1] == Next(worlds[i - 1], acts[i - 1]);
      InvNext(worlds[i - 1], acts[i - 1]);
      OwnNext(worlds[i - 1], acts[i - 1]);
      UnstrandedNext(worlds[i - 1], acts[i - 1]);
    }
  }

  /** Without a stranded thread nothing can go wrong until another thread is detached. */
  lemma UnstrandedCannotFault(w: World)
    requires Inv(w) && Own(w) && !Stranded(w)
    ensures !CanFault(w)
  {
    hide Inv, Own, Next, Enabled, Stranded, Faulty;
    forall v | Leads(w, v) ensures !Faulty(v) {
      var worlds, acts :| IsPath(worlds, acts) && worlds[0] == w && worlds[|acts|] == v;
      PathIsClean(worlds, acts, |acts|);
      NotFaulty(v);
    }
  }

  // ------------------------------------------------------- a stranded thread can fault

  /** A kernel in a stranded thread's hands that was not leaked is gone, unless it is still current. */
  lemma HeldKernel(w: World, k: nat)
    requires Inv(w) && !w.main.Installing? && k < w.created && !Abandoned(w.threads, k) && w.kernel != Some(k)
    ensures k in w.destroyed
  {
    hide ThreadsOk, KernelsOk, HooksOk, MainOk, LeakOk, ResetOk, FreshKernel, Abandoned;
  }

  /** A stranded thread inside a loop or a tick that no current kernel explains faults at once. */
  lemma HeldFault(w0: World, w: World, t: nat)
    requires Onward(w0, w) && IsStranded(w.threads, t) && (w.threads[t].stage.Looping? || w.threads[t].stage.Inside?)
    requires !w.main.Installing? && (w.kernel.Some? ==> Abandoned(w.threads, w.kernel.value))
    ensures CanFault(w0)
  {
    hide Leads, Inv, CanFault, Abandoned;
    var s := w.threads[t].stage;
    assert ThreadOwns(w, w.threads[t]);
    assert forall k :: k in Uses(s) ==> k < w.created;
    var k :| k in Uses(s) && !Abandoned(w.threads, k);
    HeldKernel(w, k);
    var a := if s.Looping? then TestStop(t) else EndTick(t);
    assert k in Uses(StageOf(w, t)) * w.destroyed;
    hide Own;
    FaultAt(w0, w, a);
  }

  /** With the object idle and stopped. */
  lemma StrandedAtRest(w0: World, w: World, t: nat)
    requires Onward(w0, w) && w.main.Idle? && w.kernel.None? && w.view.None? && IsStranded(w.threads, t)
    ensures CanFault(w0)
  {
    hide Onward, CanFault, Abandoned, Leads, Inv, Own;
    match w.threads[t].stage
    case Launched => LateReader(w0, w, t);
    case Bound => LateFinder(w0, w, t);
    case Found => FaultAt(w0, w, ReadKernel(t));
    case Serving(_) => LateTicker(w0, w, t);
    case Checked(_) => FaultAt(w0, w, ReadView(t));
    case Looping(_) => HeldFault(w0, w, t);
    case Inside(_, _) => HeldFault(w0, w, t);
  }

  /** The object is freed before the thread reads it. */
  lemma LateReader(w0: World, w: World, t: nat)
    requires Onward(w0, w) && w.main.Idle? && w.kernel.None? && StageOf(w, t).Launched?
    ensures CanFault(w0)
  {
    hide Onward, CanFault;
    var v := Go(w0, w, CallFree);
    v := Go(w0, v, ClearNotifier);
    v := Go(w0, v, FreeQelem);
    v := Go(w0, v, FreeImpl);
    FaultAt(w0, v, ReadImpl(t));
  }

  /** The thread finds the kernel of a new start, which fails before the thread reads it again. */
  lemma LateFinder(w0: World, w: World, t: nat)
    requires Onward(w0, w) && w.main.Idle? && w.kernel.None? && StageOf(w, t).Bound?
    ensures CanFault(w0)
  {
    hide Onward, CanFault;
    var v := Go(w0, w, CallStart);
    v := Go(w0, v, Install);
    v := Go(w0, v, TestKernel(t));
    FailedStart(w0, v, t);
  }

  lemma FailedStart(w0: World, w: World, t: nat)
    requires Onward(w0, w) && w.main.Starting? && StageOf(w, t).Found?
    ensures CanFault(w0)
  {
    hide Onward, CanFault;
    var v := Go(w0, w, StartFails);
    v := Go(w0, v, HideView);
    v := Go(w0, v, Reset);
    FaultAt(w0, v, ReadKernel(t));
  }

  /** The thread's idle tick finds the interpreter of a new start, which is hidden before it is read again. */
  lemma LateTicker(w0: World, w: World, t: nat)
    requires Onward(w0, w) && w.main.Idle? && w.kernel.None? && StageOf(w, t).Serving?
    ensures CanFault(w0)
  {
    hide Onward, CanFault;
    var v := Go(w0, w, CallStart);
    v := Go(w0, v, TestView(t));
    HiddenStart(w0, v, t);
  }

  lemma HiddenStart(w0: World, w: World, t: nat)
    requires Onward(w0, w) && w.main.Installing? && StageOf(w, t).Checked?
    ensures CanFault(w0)
  {
    hide Onward, CanFault;
    var v := Go(w0, w, StartFails);
    v := Go(w0, v, HideView);
    FaultAt(w0, v, ReadView(t));
  }

  /** Right after a detach, before the view is cleared: no restart is needed. */
  lemma StrandedAfterDetach(w0: World, w: World, t: nat)
    requires Onward(w0, w) && w.main.HidingLeaked? && w.box && IsStranded(w.threads, t)
    requires w.kernel.Some? && w.view == w.kernel && Abandoned(w.threads, w.kernel.value)
    ensures CanFault(w0)
  {
    hide Onward, CanFault, Abandoned, Leads, Inv, Own;
    match w.threads[t].stage
    case Launched =>
      var v := Go(w0, w, ReadImpl(t));
      NullKernel(w0, v, t);
    case Bound => NullKernel(w0, w, t);
    case Found =>
      var v := Go(w0, w, HideView);
      v := Go(w0, v, Release);
      FaultAt(w0, v, ReadKernel(t));
    case Serving(_) =>
      var v := Go(w0, w, TestView(t));
      NullView(w0, v, t);
    case Checked(_) => NullView(w0, w, t);
    case Looping(_) => HeldFault(w0, w, t);
    case Inside(_, _) => HeldFault(w0, w, t);
  }

  lemma NullKernel(w0: World, w: World, t: nat)
    requires Onward(w0, w) && w.main.HidingLeaked? && w.kernel.Some? && StageOf(w, t).Bound?
    ensures CanFault(w0)
  {
    hide Onward, CanFault;
    var v := Go(w0, w, TestKernel(t));
    v := Go(w0, v, HideView);
    v := Go(w0, v, Release);
    FaultAt(w0, v, ReadKernel(t));
  }

  lemma NullView(w0: World, w: World, t: nat)
    requires Onward(w0, w) && w.main.HidingLeaked? && StageOf(w, t).Checked?
    ensures CanFault(w0)
  {
    hide Onward, CanFault;
    var v := Go(w0, w, HideView);
    FaultAt(w0, v, ReadView(t));
  }

  // a running object is stopped first

  function Rank(s: Stage): nat {
    match s
    case Launched => 6
    case Bound => 5
    case Found => 4
    case Checked(_) => 4
    case Serving(_) => 3
    case Inside(_, _) => 3
    case Looping(_) => 2
    case Ending => 1
    case Gone => 0
  }

  /** The step that takes an attached thread of a stopped kernel closer to its end. */
  function Homeward(t: nat, s: Stage): Action
    requires !s.Gone?
  {
    match s
    case Launched => ReadImpl(t)
    case Bound => TestKernel(t)
    case Found => ReadKernel(t)
    case Looping(_) => TestStop(t)
    case Serving(_) => EndTurn(t)
    case Checked(_) => ReadView(t)
    case Inside(_, _) => EndTick(t)
    case Ending => Publish(t)
  }

  /** Where that step leads. */
  lemma HomewardStep(w: World, t: nat)
    requires Inv(w) && Own(w) && w.main.Polling? && w.slot == Some(t) && t < |w.threads| && !w.threads[t].stage.Gone?
    ensures var a := Homeward(t, w.threads[t].stage);
      && Enabled(w, a) && IsThreadStep(a) && !a.Detach? && Rank(StageAfter(w, a)) < Rank(w.threads[t].stage)
      && (Next(w, a).finished <==> w.finished || a.Publish?)
  {
    SlotIsAttached(w);
    AttachedFinds(w, t);
    assert ThreadOwns(w, w.threads[t]);
    hide Inv;
  }

  lemma {:induction false} DriveHome(w0: World, w: World, t: nat) returns (v: World)
    requires Onward(w0, w) && w.main.Polling? && w.slot == Some(t) && t < |w.threads|
    ensures Onward(w0, v) && v.finished
    ensures v == w.(threads := v.threads, finished := v.finished, stopped := v.stopped)
    ensures |v.threads| == |w.threads| && v.threads[t].stage.Gone?
    ensures forall u :: 0 <= u < |w.threads| && u != t ==> v.threads[u] == w.threads[u]
    ensures v.threads[t].fate == w.threads[t].fate && v.threads[t].launchedFor == w.threads[t].launchedFor
    decreases Rank(StageOf(w, t))
  {
    v := w;
    if !w.threads[t].stage.Gone? {
      HomewardStep(w, t);
      var a := Homeward(t, w.threads[t].stage);
      hide Leads, Inv, Own, Enabled, StageAfter;
      v := Go(w0, w, a);
      assert StageOf(v, t) == StageAfter(w, a);
      v := DriveHome(w0, v, t);
    }
    hide Leads, Inv;
  }

  /** Stop the running kernel; the other threads stay where they are. */
  lemma StopFirst(w0: World, w: World, t: nat) returns (v: World)
    requires Onward(w0, w) && w.main.Idle? && w.kernel.Some? && IsStranded(w.threads, t)
    ensures Onward(w0, v) && v.main.Idle? && v.kernel.None? && v.view.None? && IsStranded(v.threads, t)
  {
    var s := RunningThread(w);
    hide Onward, IsStranded, Next, Enabled;
    v := AskToStop(w0, w);
    v := DriveHome(w0, v, s);
    v := FinishStop(w0, v, s);
    StillStranded(w.threads, v.threads, s, t);
  }

  lemma AskToStop(w0: World, w: World) returns (v: World)
    requires Onward(w0, w) && w.main.Idle? && w.kernel.Some?
    ensures Onward(w0, v) && v == w.(stopped := v.stopped, main := Polling(Stop))
  {
    hide Onward;
    v := Go(w0, w, CallStop);
    v := Go(w0, v, Halt);
  }

  lemma FinishStop(w0: World, w: World, s: nat) returns (v: World)
    requires Onward(w0, w) && w.main == Polling(Stop) && w.finished
    requires w.slot == Some(s) && StageOf(w, s).Gone? && s < |w.threads|
    ensures Onward(w0, v) && v.main.Idle? && v.kernel.None? && v.view.None?
    ensures v.threads == w.threads[s := w.threads[s].(fate := Joined)]
  {
    hide Onward;
    v := Go(w0, w, SeeFinished);
    v := Go(w0, v, Join);
    v := TakeDown(w0, v);
  }

  lemma TakeDown(w0: World, w: World) returns (v: World)
    requires Onward(w0, w) && w.main == Hiding(Stop)
    ensures Onward(w0, v) && v.main.Idle? && v.kernel.None? && v.view.None? && v.threads == w.threads
  {
    hide Onward;
    v := Go(w0, w, HideView);
    v := Go(w0, v, Reset);
  }

  lemma RunningThread(w: World) returns (s: nat)
    requires Inv(w) && w.main.Idle? && w.kernel.Some?
    ensures w.slot == Some(s) && s < |w.threads| && w.threads[s].fate.Attached?
  {
    hide KernelsOk, LeakOk, ResetOk, FreshKernel, Accounted, HooksOk;
    s := w.slot.value;
  }

  lemma StillStranded(before: seq<Thread>, after: seq<Thread>, s: nat, t: nat)
    requires s < |before| == |after| && before[s].fate.Attached? && after[s].fate.Joined?
    requires forall u :: 0 <= u < |before| && u != s ==> after[u] == before[u]
    requires IsStranded(before, t)
    ensures IsStranded(after, t)
  {
    forall k | Abandoned(after, k) ensures Abandoned(before, k) {
      var u :| 0 <= u < |after| && after[u].launchedFor == k && after[u].fate.Detached?;
      assert before[u].launchedFor == k && before[u].fate.Detached?;
    }
    hide Abandoned;
  }

  /** The exact condition. Between the calls to the object, and right after a thread was detached, a fault
      can follow without a further detach if and only if a detached thread is stranded. */
  lemma FaultsExactlyWhenStranded(worlds: seq<World>, acts: seq<Action>, i: nat)
    requires IsRun(worlds, acts) && i < |worlds| && (worlds[i].main.Idle? || worlds[i].main.HidingLeaked?)
    ensures CanFault(worlds[i]) <==> Stranded(worlds[i])
  {
    hide Leads, Next, Enabled;
    var w := worlds[i];
    RunOwns(worlds, acts, i);
    LeadsHere(w);
    if Stranded(w) {
      var t: nat :| IsStranded(w.threads, t);
      StrandedFaults(w, t);
    } else {
      hide Inv, Own, IsRun, CanFault, Stranded;
      UnstrandedCannotFault(w);
    }
  }

  lemma StrandedFaults(w: World, t: nat)
    requires Onward(w, w) && IsStranded(w.threads, t) && (w.main.Idle? || w.main.HidingLeaked?)
    ensures CanFault(w)
  {
    Resting(w);
    hide Inv, Own, Leads, CanFault, IsStranded, Abandoned;
    if w.main.HidingLeaked? {
      StrandedAfterDetach(w, w, t);
    } else if w.kernel.None? {
      StrandedAtRest(w, w, t);
    } else {
      var v := StopFirst(w, w, t);
      StrandedAtRest(w, v, t);
    }
  }

  lemma Resting(w: World)
    requires Inv(w)
    ensures w.main.Idle? ==> w.view == w.kernel
    ensures w.main.HidingLeaked? ==>
      w.box && w.kernel.Some? && w.view == w.kernel && Abandoned(w.threads, w.kernel.value)
  {
    hide ThreadsOk, KernelsOk, LeakOk, ResetOk, FreshKernel, Abandoned;
  }

  /** A detach is where it is decided: with nothing stranded before, a fault can follow exactly when the
      thread had still something to read. */
  lemma DetachIsSafeExactlyWhenSettled(worlds: seq<World>, acts: seq<Action>, i: nat)
    requires IsRun(worlds, acts) && i < |acts| && acts[i].Detach? && !Stranded(worlds[i])
    ensures worlds[i].slot.Some? && worlds[i].slot.value < |worlds[i].threads|
    ensures CanFault(worlds[i + 1]) <==> !IsSettled(worlds[i].threads[worlds[i].slot.value].stage)
  {
    hide CanFault, Stranded, Inv, Own;
    var w, v := worlds[i], worlds[i + 1];
    assert v == Next(w, acts[i]);
    RunOwns(worlds, acts, i);
    FaultsExactlyWhenStranded(worlds, acts, i + 1);
    hide IsRun;
    if IsSettled(w.threads[w.slot.value].stage) { UnstrandedNext(w, acts[i]); } else { UnsettledStrands(w); }
  }

  lemma UnsettledStrands(w: World)
    requires Enabled(w, Detach) && !IsSettled(w.threads[w.slot.value].stage)
    ensures Stranded(Next(w, Detach))
  {
    assert IsStranded(Next(w, Detach).threads, w.slot.value);
  }

  // ------------------------------------------------------------- and it does happen

  ghost predicate Reachable(w: World) {
    exists worlds, acts :: IsRun(worlds, acts) && worlds[|acts|] == w
  }

  lemma ReachFresh()
    ensures Reachable(Fresh())
  {
    var worlds: seq<World>, acts: seq<Action> := [Fresh()], [];
    assert IsRun(worlds, acts) && worlds[|acts|] == Fresh();
  }

  lemma Reach(w: World, a: Action) returns (v: World)
    requires Reachable(w) && Enabled(w, a)
    ensures v == Next(w, a) && Reachable(v)
  {
    hide Enabled, Next;
    v := Next(w, a);
    var worlds, acts :| IsRun(worlds, acts) && worlds[|acts|] == w;
    var worlds', acts' := worlds + [v], acts + [a];
    forall i | 0 <= i < |acts'|
      ensures Enabled(worlds'[i], acts'[i]) && worlds'[i + 1] == Next(worlds'[i], acts'[i])
    {
      if i < |acts| { assert worlds'[i] == worlds[i] && worlds'[i + 1] == worlds[i + 1]; }
    }
    assert IsRun(worlds', acts') && worlds'[|acts'|] == v;
  }

  /** A kernel whose thread has just been launched. */
  function Started(): World {
    Fresh().(kernel := Some(0), view := Some(0), created := 1, slot := Some(0),
    threads := [Thread(Launched, 0, Attached)])
  }

  lemma StartedIsReachable()
    ensures Reachable(Started())
  {
    hide Reachable;
    ReachFresh();
    var w := Reach(Fresh(), CallStart);
    w := Reach(w, Install);
    w := Reach(w, Launch);
    assert w == Started();
  }

  /** Its thread polls for messages. */
  function Polls(): World { Started().(threads := [Thread(Serving(0), 0, Attached)]) }

  lemma PollsIsReachable()
    ensures Reachable(Polls())
  {
    hide Reachable;
    StartedIsReachable();
    var w := Reach(Started(), ReadImpl(0));
    w := Reach(w, TestKernel(0));
    w := Reach(w, ReadKernel(0));
    w := Reach(w, TestStop(0));
    assert w == Polls();
  }

  /** `stop` runs out of patience with a thread that is in its loop. */
  function LeakedInLoop(): World {
    Polls().(slot := None, stopped := {0}, threads := [Thread(Serving(0), 0, Detached)], main := HidingLeaked(Stop))
  }

  lemma LeakedInLoopIsReachable()
    ensures Reachable(LeakedInLoop())
  {
    hide Reachable;
    PollsIsReachable();
    var w := Reach(Polls(), CallStop);
    w := Reach(w, Halt);
    w := Reach(w, GiveUp);
    w := Reach(w, Detach);
    assert w == LeakedInLoop();
  }

  /** So a thread that was in its loop when it was detached can fault, even without a restart. */
  lemma ThreadInItsLoopCanFault()
    ensures Reachable(LeakedInLoop()) && StageOf(LeakedInLoop(), 0) == Serving(0) && CanFault(LeakedInLoop())
  {
    hide CanFault;
    LeakedInLoopIsReachable();
    assert IsStranded(LeakedInLoop().threads, 0);
    var worlds, acts :| IsRun(worlds, acts) && worlds[|acts|] == LeakedInLoop();
    hide IsRun;
    FaultsExactlyWhenStranded(worlds, acts, |acts|);
  }
}
