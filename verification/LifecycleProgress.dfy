/**
 That the main thread gets on: every call ends after a bounded number of its own steps, `free` in the end,
 a server that was asked to stop ends its loop, and a join waits for nothing that is not there already,
 unless a leaked thread reports late.
 */
module LifecycleProgress {
  import opened Wrappers
  import opened Lifecycle
  import opened LifecycleSafety

  // ----------------------------------------------------------------- every call ends

  /** How many steps the main thread has left in the call it is in, at most. */
  function Rank(m: Main): nat {
    match m
    case Idle => 0
    case Over => 0
    case FreeingImpl => 1
    case FreeingQelem => 2
    case Unhooking => 3
    case Resetting(_) => 4
    case Releasing(_) => 4
    case Hiding(_) => 5
    case HidingLeaked(_) => 5
    case Joining(_) => 6
    case Detaching(_) => 6
    case Polling(_) => 7
    case Halting(_) => 8
    case Starting => 9
    case Installing => 10
  }

  /** In `free`, at some step of it. */
  predicate InFree(m: Main) {
    match m
    case Halting(c) => c == Free
    case Polling(c) => c == Free
    case Joining(c) => c == Free
    case Detaching(c) => c == Free
    case Hiding(c) => c == Free
    case HidingLeaked(c) => c == Free
    case Resetting(c) => c == Free
    case Releasing(c) => c == Free
    case Unhooking => true
    case FreeingQelem => true
    case FreeingImpl => true
    case Over => true
    case Idle => false
    case Installing => false
    case Starting => false
  }

  lemma MainAdvances(w: World, a: Action)
    requires Enabled(w, a) && !IsThreadStep(a) && !w.main.Idle?
    ensures Rank(Next(w, a).main) < Rank(w.main)
    ensures InFree(w.main) <==> InFree(Next(w, a).main)
  {
    hide Next, Enabled, Rank, InFree;
    if w.main.Installing? || w.main.Starting? {
      StartAdvances(w, a);
    } else if w.main.Halting? || w.main.Polling? || w.main.Joining? || w.main.Detaching? {
      StopAdvances(w, a);
    } else if w.main.Hiding? || w.main.HidingLeaked? || w.main.Resetting? || w.main.Releasing? {
      EndAdvances(w, a);
    } else {
      FreeAdvances(w, a);
    }
  }

  lemma StartAdvances(w: World, a: Action)
    requires Enabled(w, a) && !IsThreadStep(a) && (w.main.Installing? || w.main.Starting?)
    ensures Rank(Next(w, a).main) < Rank(w.main) && !InFree(w.main) && !InFree(Next(w, a).main)
  {}

  lemma StopAdvances(w: World, a: Action)
    requires Enabled(w, a) && !IsThreadStep(a)
    requires w.main.Halting? || w.main.Polling? || w.main.Joining? || w.main.Detaching?
    ensures Rank(Next(w, a).main) < Rank(w.main) && (InFree(w.main) <==> InFree(Next(w, a).main))
  {}

  lemma EndAdvances(w: World, a: Action)
    requires Enabled(w, a) && !IsThreadStep(a)
    requires w.main.Hiding? || w.main.HidingLeaked? || w.main.Resetting? || w.main.Releasing?
    ensures Rank(Next(w, a).main) < Rank(w.main) && (InFree(w.main) <==> InFree(Next(w, a).main))
  {}

  lemma FreeAdvances(w: World, a: Action)
    requires Enabled(w, a) && !IsThreadStep(a)
    requires w.main.Unhooking? || w.main.FreeingQelem? || w.main.FreeingImpl? || w.main.Over?
    ensures Rank(Next(w, a).main) < Rank(w.main) && InFree(w.main) && InFree(Next(w, a).main)
  {}

  lemma ThreadsLeaveMain(w: World, a: Action)
    requires Enabled(w, a) && IsThreadStep(a)
    ensures Next(w, a).main == w.main
  {}

  /** The main thread can always go on, except that a join waits for the thread to end. */
  lemma MainIsNotStuck(w: World)
    requires Inv(w) && !w.main.Over?
    ensures (exists a :: Enabled(w, a) && !IsThreadStep(a))
      || (w.main.Joining? && w.slot.Some? && w.slot.value < |w.threads| && !w.threads[w.slot.value].stage.Gone?)
  {
    hide KernelsOk, HooksOk, LeakOk, ResetOk, FreshKernel, Accounted;
    match w.main
    case Idle => assert Enabled(w, CallFree);
    case Installing => assert Enabled(w, Install);
    case Starting => assert Enabled(w, Launch);
    case Halting(_) => assert Enabled(w, Halt);
    case Polling(_) => assert Enabled(w, GiveUp);
    case Joining(_) => if StageOf(w, w.slot.value).Gone? { assert Enabled(w, Join); }
    case Detaching(_) => assert Enabled(w, Detach);
    case Hiding(_) => assert Enabled(w, HideView);
    case Resetting(_) => assert Enabled(w, Reset);
    case HidingLeaked(_) => assert Enabled(w, HideView);
    case Releasing(_) => assert Enabled(w, Release);
    case Unhooking => assert Enabled(w, ClearNotifier);
    case FreeingQelem => assert Enabled(w, FreeQelem);
    case FreeingImpl => assert Enabled(w, FreeImpl);
  }

  function MainSteps(acts: seq<Action>): nat {
    if acts == [] then 0
    else MainSteps(acts[..|acts| - 1]) + if IsThreadStep(acts[|acts| - 1]) then 0 else 1
  }

  /** `free` takes the main thread at most nine steps, whatever the threads do, and never leads back. */
  lemma {:induction false} FreeEnds(worlds: seq<World>, acts: seq<Action>, i: nat, j: nat)
    requires IsRun(worlds, acts) && i < j < |worlds| && acts[i].CallFree?
    ensures InFree(worlds[j].main) && MainSteps(acts[i..j]) + Rank(worlds[j].main) <= 9
    decreases j
  {
    hide Next, Enabled, Rank, InFree;
    var k := j - 1;
    assert worlds[k + 1] == Next(worlds[k], acts[k]) && Enabled(worlds[k], acts[k]);
    assert acts[i..j][..k - i] == acts[i..k] && acts[i..j][k - i] == acts[k];
    if i == k {
      FreeBegins(worlds[i]);
      assert acts[i..k] == [];
    } else {
      FreeEnds(worlds, acts, i, k);
      if IsThreadStep(acts[k]) { ThreadsLeaveMain(worlds[k], acts[k]); }
      else {
        NotIdle(worlds[k].main);
        MainAdvances(worlds[k], acts[k]);
      }
    }
  }

  lemma FreeBegins(w: World)
    requires Enabled(w, CallFree)
    ensures InFree(Next(w, CallFree).main) && Rank(Next(w, CallFree).main) <= 8
  {}

  lemma NotIdle(m: Main)
    ensures InFree(m) ==> !m.Idle?
  {}

  // ------------------------------------------------------------------ stopping servers

  /** A thread that tests whether to stop after a client or the main thread asked its server to ends its loop,
      and one whose server nobody asked goes on. */
  lemma LoopEndsExactlyWhenAsked(worlds: seq<World>, acts: seq<Action>, j: nat, t: nat, k: nat)
    requires IsRun(worlds, acts) && j < |acts| && acts[j] == TestStop(t) && StageOf(worlds[j], t) == Looping(k)
    ensures StageOf(worlds[j + 1], t).Ending? <==> exists i :: 0 <= i < j && Asks(worlds[i], acts[i], k)
    ensures !StageOf(worlds[j + 1], t).Ending? ==> StageOf(worlds[j + 1], t) == Serving(k)
  {
    hide Next, Enabled, Asks;
    StoppedWhenAsked(worlds, acts, j, k);
    assert worlds[j + 1] == Next(worlds[j], acts[j]) && Enabled(worlds[j], acts[j]);
    hide IsRun;
    StopTest(worlds[j], t, k);
  }

  lemma StopTest(w: World, t: nat, k: nat)
    requires Enabled(w, TestStop(t)) && StageOf(w, t) == Looping(k)
    ensures StageOf(Next(w, TestStop(t)), t) == if k in w.stopped then Ending else Serving(k)
  {}

  /** The action asks the server of kernel k to stop: `kernel->stop()`, or a client's request it handles. */
  predicate Asks(w: World, a: Action, k: nat) {
    (a.Halt? && w.kernel == Some(k)) || (a.ClientStop? && StageOf(w, a.t) == Serving(k))
  }

  lemma {:induction false} StoppedWhenAsked(worlds: seq<World>, acts: seq<Action>, j: nat, k: nat)
    requires IsRun(worlds, acts) && j < |worlds|
    ensures k in worlds[j].stopped <==> exists i :: 0 <= i < j && Asks(worlds[i], acts[i], k)
    decreases j
  {
    hide Next, Enabled, Asks;
    if j > 0 {
      StoppedWhenAsked(worlds, acts, j - 1, k);
      assert worlds[j - 1 + 1] == Next(worlds[j - 1], acts[j - 1]) && Enabled(worlds[j - 1], acts[j - 1]);
      AskStep(worlds[j - 1], acts[j - 1], k);
    }
  }

  lemma AskStep(w: World, a: Action, k: nat)
    requires Enabled(w, a)
    ensures k in Next(w, a).stopped <==> k in w.stopped || Asks(w, a, k)
  {
    if IsThreadStep(a) { ThreadAsks(w, a); } else { MainAsks(w, a); }
    hide Next, Enabled;
  }

  lemma MainAsks(w: World, a: Action)
    requires Enabled(w, a) && !IsThreadStep(a)
    ensures Next(w, a).stopped == w.stopped + if a.Halt? then Only(w.kernel) else {}
  {
    hide Only, ThreadNext, StageAfter, BeginStart, InstallKernel, LaunchThread, FailStart, HaltServer, Part, Hide,
         HideLeaked, ResetKernel, ReleaseKernel;
    forall c ensures HaltServer(w, c).stopped == w.stopped + Only(w.kernel) { HaltAsks(w, c); }
    forall c ensures HideLeaked(w, c).stopped == Hide(w, c).stopped == w.stopped { HidingAsksNobody(w, c); }
    forall c ensures ResetKernel(w, c).stopped == ReleaseKernel(w, c).stopped == w.stopped { EndingAsksNobody(w, c); }
    StartingAsksNobody(w);
    if w.slot.Some? && w.slot.value < |w.threads| {
      forall f, m ensures Part(w, f, m).stopped == w.stopped { PartingAsksNobody(w, f, m); }
    }
    assert w.stopped + {} == w.stopped;
  }

  lemma HaltAsks(w: World, c: Caller)
    ensures HaltServer(w, c).stopped == w.stopped + Only(w.kernel)
  {}

  lemma HidingAsksNobody(w: World, c: Caller)
    ensures HideLeaked(w, c).stopped == Hide(w, c).stopped == w.stopped
  {}

  lemma EndingAsksNobody(w: World, c: Caller)
    ensures ResetKernel(w, c).stopped == ReleaseKernel(w, c).stopped == w.stopped
  {}

  lemma StartingAsksNobody(w: World)
    ensures BeginStart(w).stopped == InstallKernel(w).stopped == LaunchThread(w).stopped == FailStart(w).stopped
         == w.stopped
  {}

  lemma PartingAsksNobody(w: World, f: Fate, m: Main)
    requires w.slot.Some? && w.slot.value < |w.threads|
    ensures Part(w, f, m).stopped == w.stopped
  {}

  lemma ActorServes(w: World, a: Action)
    requires Enabled(w, a)
    ensures a.ClientStop? ==> StageOf(w, a.t).Serving?
  {}

  lemma ThreadAsks(w: World, a: Action)
    requires Enabled(w, a) && IsThreadStep(a)
    ensures if a.ClientStop? then StageOf(w, a.t).Serving? && Next(w, a).stopped == w.stopped + {StageOf(w, a.t).kernel}
            else Next(w, a).stopped == w.stopped
  {
    hide StageAfter, MainStep;
    ActorServes(w, a);
    hide Enabled;
    assert w.stopped + {} == w.stopped;
  }

  // --------------------------------------------------------------------------- joins

  /** A detached thread reports that it has finished, which the start after it takes for its own thread. */
  predicate ReportsLate(w: World, a: Action) { a.Publish? && a.t < |w.threads| && w.threads[a.t].fate.Detached? }

  /** `thread_finished` is true of the thread in the slot. */
  predicate FinishedOk(w: World) {
    && (w.finished ==> !w.main.Installing? && !w.main.Starting?
                       && (w.slot.Some? && w.slot.value < |w.threads| ==> w.threads[w.slot.value].stage.Gone?))
    && (w.main.Joining? ==> w.finished)
  }

  lemma FinishedThread(w: World, a: Action)
    requires Inv(w) && FinishedOk(w) && Enabled(w, a) && IsThreadStep(a) && !ReportsLate(w, a)
    ensures FinishedOk(Next(w, a))
  {
    ActorIsLive(w, a);
    hide KernelsOk, HooksOk, LeakOk, ResetOk, FreshKernel, Accounted, MainOk, Enabled;
  }

  lemma FinishedMain(w: World, a: Action)
    requires Inv(w) && FinishedOk(w) && Enabled(w, a) && !IsThreadStep(a)
    ensures FinishedOk(Next(w, a))
  {
    if a.CallStart? || a.Install? || a.Launch? || a.StartFails? {
      FinishedMaker(w, a);
    } else {
      FinishedOther(w, a);
    }
    hide Next, Enabled, Inv, FinishedOk;
  }

  lemma FinishedMaker(w: World, a: Action)
    requires Inv(w) && FinishedOk(w) && Enabled(w, a)
    requires a.CallStart? || a.Install? || a.Launch? || a.StartFails?
    ensures FinishedOk(Next(w, a))
  {
    hide KernelsOk, HooksOk, LeakOk, ResetOk, FreshKernel, Accounted, Only, ThreadsOk, ThreadNext, StageAfter;
    if a.CallStart? { StartClears(w); }
  }

  lemma FinishedOther(w: World, a: Action)
    requires Inv(w) && FinishedOk(w) && Enabled(w, a) && !IsThreadStep(a)
    requires !(a.CallStart? || a.Install? || a.Launch? || a.StartFails?)
    ensures FinishedOk(Next(w, a))
  {
    hide KernelsOk, HooksOk, LeakOk, ResetOk, FreshKernel, Accounted, ThreadNext, StageAfter, Only;
  }

  lemma StartClears(w: World)
    requires Enabled(w, CallStart)
    ensures FinishedOk(Next(w, CallStart))
  {}

  /** From the beginning of a start on, or of the run, as long as no detached thread reports late. */
  lemma {:induction false} FinishedIsTrue(worlds: seq<World>, acts: seq<Action>, s: nat, i: nat)
    requires IsRun(worlds, acts) && s <= i < |worlds|
    requires s == 0 || acts[s - 1].CallStart?
    requires forall j :: s <= j < i ==> !ReportsLate(worlds[j], acts[j])
    ensures FinishedOk(worlds[i])
    decreases i
  {
    hide Inv, Next, Enabled, FinishedOk, ReportsLate;
    if i == s {
      if s == 0 {
        FreshFinished();
      } else {
        assert worlds[s - 1 + 1] == Next(worlds[s - 1], acts[s - 1]) && Enabled(worlds[s - 1], acts[s - 1]);
        StartClears(worlds[s - 1]);
      }
    } else {
      FinishedIsTrue(worlds, acts, s, i - 1);
      RunIsSafe(worlds, acts, i - 1);
      assert worlds[i - 1 + 1] == Next(worlds[i - 1], acts[i - 1]) && Enabled(worlds[i - 1], acts[i - 1]);
      if IsThreadStep(acts[i - 1]) { FinishedThread(worlds[i - 1], acts[i - 1]); }
      else { FinishedMain(worlds[i - 1], acts[i - 1]); }
    }
  }

  lemma FreshFinished()
    ensures FinishedOk(Fresh())
  {}

  /** Then the main thread joins only a thread that has ended, so that Max does not wait. */
  lemma JoinDoesNotWait(worlds: seq<World>, acts: seq<Action>, s: nat, i: nat)
    requires IsRun(worlds, acts) && s <= i < |worlds| && (s == 0 || acts[s - 1].CallStart?)
    requires forall j :: s <= j < i ==> !ReportsLate(worlds[j], acts[j])
    requires worlds[i].main.Joining?
    ensures Enabled(worlds[i], Join)
  {
    FinishedIsTrue(worlds, acts, s, i);
    RunIsSafe(worlds, acts, i);
    hide IsRun, KernelsOk, HooksOk, LeakOk, ResetOk, FreshKernel, Accounted;
  }

  /** A thread leaked by a stop reports after a restart: the next stop joins the new thread, which has not
      even begun. */
  lemma JoinCanWait() returns (w: World)
    ensures Reachable(w) && w.main.Joining? && !Enabled(w, Join) && w.slot.Some? && StageOf(w, w.slot.value).Launched?
  {
    hide Reachable;
    LeakedInLoopIsReachable();
    w := Reach(LeakedInLoop(), HideView);
    w := Reach(w, Release);
    w := Restarted(w);
    w := ReportedLate(w);
    w := Reach(w, CallStop);
    w := Reach(w, Halt);
    w := Reach(w, SeeFinished);
  }

  lemma ReportedLate(w: World) returns (v: World)
    requires Reachable(w) && |w.threads| == 2 && w.threads[0].stage == Serving(0) && 0 in w.stopped
    ensures Reachable(v) && v == w.(threads := v.threads, finished := true)
    ensures |v.threads| == 2 && v.threads[1] == w.threads[1]
  {
    hide Reachable;
    v := Reach(w, EndTurn(0));
    v := Reach(v, TestStop(0));
    v := Reach(v, Publish(0));
    assert v.stopped == w.stopped;
  }

  lemma Restarted(w: World) returns (v: World)
    requires Reachable(w) && w.main.Idle? && w.kernel.None?
    ensures Reachable(v) && v.main.Idle? && v.kernel.Some? && v.slot == Some(|w.threads|) && v.stopped == w.stopped
    ensures |v.threads| == |w.threads| + 1 && v.threads[..|w.threads|] == w.threads
    ensures v.threads[|w.threads|].stage.Launched?
  {
    hide Reachable;
    v := Reach(w, CallStart);
    v := Reach(v, Install);
    v := Reach(v, Launch);
  }
}
