/**
 What the stores of a run come to: each flag, the timeout and the clock, told from the actions alone.
 */
module ProtocolStores {
  import opened Protocol
  import opened ProtocolShutdown

  /** The timeout after some actions: the last one Max stored, or the one the kernel was started with. */
  function LastTimeout(start: int, actions: seq<Action>): int {
    if actions == [] then start
    else
      var a := actions[|actions| - 1];
      if a.MaxDoes? && a.action.StoreTimeout? then a.action.seconds
      else LastTimeout(start, actions[..|actions| - 1])
  }

  /** The time that has passed. */
  function Elapsed(actions: seq<Action>): nat {
    if actions == [] then 0
    else
      var a := actions[|actions| - 1];
      Elapsed(actions[..|actions| - 1]) + if a.Advance? then a.seconds else 0
  }

  lemma LastSnoc(start: int, actions: seq<Action>, a: Action)
    ensures LastTimeout(start, actions + [a]) ==
      if a.MaxDoes? && a.action.StoreTimeout? then a.action.seconds else LastTimeout(start, actions)
    ensures Elapsed(actions + [a]) == Elapsed(actions) + if a.Advance? then a.seconds else 0
  {
    assert (actions + [a])[..|actions|] == actions;
  }

  // ---------------------------------------------------------------- the flags

  predicate Stopping(pc: Pc) { pc.ExchangeFlag? || pc.PushShutdown? || pc.ReplyShutdown? }

  /** Which stores each flag tells of, after the actions `done`. */
  predicate Flags(w: World, done: seq<Action>) {
    && (w.impl.alive <==> MaxDoes(Die) !in done)
    && (w.history.stopStored <==> MaxDoes(RequestStop) in done)
    && (w.impl.shutdownRequested <==>
          MaxDoes(RequestStop) in done || (ClientShutdown in done && !w.pc.ExchangeFlag?))
    && (w.loop.stopAsked <==> MaxDoes(StopServer) in done || (ClientShutdown in done && w.pc == Idle))
  }

  /** A client's shutdown request is the last that is handled. */
  predicate Downed(w: World, done: seq<Action>) {
    && (Stopping(w.pc) ==> ClientShutdown in done)
    && (ClientShutdown in done ==> GoingDown(w))
  }

  lemma ServerStores(w: World)
    requires ServerReady(w)
    ensures var w' := ServerStep(w);
      && w'.impl.alive == w.impl.alive && w'.history.stopStored == w.history.stopStored
      && w'.impl.timeout == w.impl.timeout && w'.clock == w.clock
      && (w'.impl.shutdownRequested <==> w.impl.shutdownRequested || w.pc.ExchangeFlag?)
      && (w'.loop.stopAsked <==> w.loop.stopAsked || w.pc.ReplyShutdown?)
      && (w'.pc == Idle && Stopping(w.pc) ==> w.pc.ReplyShutdown?)
      && (Stopping(w'.pc) ==> Stopping(w.pc) && !w'.pc.ExchangeFlag?)
  {
    hide TimeoutReply, Output, AsLine, CodeMessage, GetContext, Activate;
  }

  lemma FlagsServer(w: World, done: seq<Action>)
    requires Flags(w, done) && Downed(w, done) && ServerReady(w)
    ensures Flags(ServerStep(w), done + [Server]) && Downed(ServerStep(w), done + [Server])
  {
    ServerStores(w);
    if GoingDown(w) { DownNext(w, Server); }
    hide ServerStep;
  }

  lemma FlagsMax(w: World, done: seq<Action>, a: MaxAction)
    requires Flags(w, done) && Downed(w, done) && MaxEnabled(w, a)
    ensures Flags(MaxStep(w, a), done + [MaxDoes(a)]) && Downed(MaxStep(w, a), done + [MaxDoes(a)])
  {
    if GoingDown(w) { DownNext(w, MaxDoes(a)); }
  }

  lemma FlagsNext(w: World, done: seq<Action>, a: Action)
    requires Flags(w, done) && Downed(w, done) && Enabled(w, a)
    ensures Flags(Next(w, a), done + [a]) && Downed(Next(w, a), done + [a])
  {
    if a.Server? {
      FlagsServer(w, done);
      hide ServerStep;
    } else if a.MaxDoes? {
      FlagsMax(w, done, a.action);
      hide MaxStep;
    } else if GoingDown(w) {
      DownNext(w, a);
    }
  }

  lemma FlagsBegin(w: World)
    requires Init(w)
    ensures Flags(w, []) && Downed(w, [])
  {}

  lemma TimesNext(w: World, a: Action)
    requires Enabled(w, a)
    ensures Next(w, a).impl.timeout == if a.MaxDoes? && a.action.StoreTimeout? then a.action.seconds else w.impl.timeout
    ensures Next(w, a).clock == w.clock + if a.Advance? then a.seconds else 0
  {
    if a.Server? {
      ServerStores(w);
      hide ServerStep;
    }
  }

  /** Over every run: the kernel is alive until Max drops it; the stop and the shutdown flags are set exactly
      by those who ask for it; and the timeout is the last one stored. */
  lemma {:induction false} StoresTakeEffect(worlds: seq<World>, actions: seq<Action>, k: nat)
    requires IsRun(worlds, actions) && k < |worlds|
    ensures Flags(worlds[k], actions[..k]) && Downed(worlds[k], actions[..k])
    ensures worlds[k].impl.timeout == LastTimeout(worlds[0].impl.timeout, actions[..k])
    ensures worlds[k].clock == worlds[0].clock + Elapsed(actions[..k])
  {
    hide Next, Enabled, Flags, Downed;
    if k == 0 {
      FlagsBegin(worlds[0]);
    } else {
      StoresTakeEffect(worlds, actions, k - 1);
      RunStep(worlds, actions, k - 1);
      FlagsNext(worlds[k - 1], actions[..k - 1], actions[k - 1]);
      TimesNext(worlds[k - 1], actions[k - 1]);
      LastSnoc(worlds[0].impl.timeout, actions[..k - 1], actions[k - 1]);
      assert actions[..k] == actions[..k - 1] + [actions[k - 1]];
    }
  }

  // ------------------------------------------------------------- a cell's timeout

  /** The worlds in which a cell's timeout was loaded, at index `j`. */
  ghost predicate LoadedAt(worlds: seq<World>, actions: seq<Action>, j: nat, c: nat) {
    && j < |actions| < |worlds| && actions[j] == Server
    && worlds[j].pc == LoadTimeout && |worlds[j].timing.timeouts| == c
  }

  lemma ServerTimeouts(w: World)
    requires ServerReady(w)
    ensures ServerStep(w).timing.timeouts ==
      w.timing.timeouts + if w.pc.LoadTimeout? then [w.impl.timeout] else []
  {
    hide TimeoutReply, Output, AsLine, CodeMessage, GetContext, Activate;
  }

  lemma TimeoutsNext(w: World, a: Action)
    requires Enabled(w, a)
    ensures Next(w, a).timing.timeouts ==
      w.timing.timeouts + if a.Server? && w.pc.LoadTimeout? then [w.impl.timeout] else []
  {
    if a.Server? {
      ServerTimeouts(w);
      hide ServerStep;
    }
  }

  /** Over every run, a cell's timeout is the last that was stored before the cell was queued: no later
      store changes how long it may take. */
  lemma {:induction false} TimeoutIsTakenWhenQueued(worlds: seq<World>, actions: seq<Action>, k: nat, c: nat)
    returns (j: nat)
    requires IsRun(worlds, actions) && k < |worlds| && c < |worlds[k].timing.timeouts|
    ensures j < k && LoadedAt(worlds, actions, j, c)
    ensures worlds[k].timing.timeouts[c] == LastTimeout(worlds[0].impl.timeout, actions[..j])
  {
    hide Next, Enabled, LastTimeout;
    RunStep(worlds, actions, k - 1);
    var w := worlds[k - 1];
    TimeoutsNext(w, actions[k - 1]);
    if c < |w.timing.timeouts| {
      j := TimeoutIsTakenWhenQueued(worlds, actions, k - 1, c);
    } else {
      j := k - 1;
      StoresTakeEffect(worlds, actions, j);
    }
  }

  // -------------------------------------------------------------------- forgetting

  lemma ForgottenNext(w: World, a: Action)
    requires Enabled(w, a) && w.impl.currentExecution == 0 && !(a.Server? && w.pc.StoreCurrent?)
    ensures Next(w, a).impl.currentExecution == 0
  {
    if a.Server? {
      hide TimeoutReply, Output, AsLine, CodeMessage, GetContext, Activate;
    }
  }

  lemma ForgetForgets(w: World)
    requires Enabled(w, MaxDoes(Forget))
    ensures Next(w, MaxDoes(Forget)).impl.currentExecution == 0
  {}

  lemma LoadIsFree(w: World, a: Action)
    requires Enabled(w, a) && w.impl.currentExecution == 0
    requires a.MaxDoes? && (a.action.LoadResult? || a.action.LoadPrint?)
    ensures var loaded := Next(w, a).inFlight;
      loaded != [] && loaded[|loaded| - 1].message.counter == 0 && !loaded[|loaded| - 1].stamped
  {}

  /** Once a stop has forgotten the current cell, what Max returns or prints is for no cell until the server
      starts another. */
  lemma {:induction false} ForgottenUntilStarted(worlds: seq<World>, actions: seq<Action>, i: nat, k: nat)
    requires IsRun(worlds, actions) && i < k < |worlds| && actions[i] == MaxDoes(Forget)
    requires forall j :: i < j < k ==> !(actions[j] == Server && worlds[j].pc == StoreCurrent)
    ensures worlds[k].impl.currentExecution == 0
    ensures k < |actions| && actions[k].MaxDoes? && (actions[k].action.LoadResult? || actions[k].action.LoadPrint?) ==>
      var loaded := worlds[k + 1].inFlight;
      loaded != [] && loaded[|loaded| - 1].message.counter == 0 && !loaded[|loaded| - 1].stamped
    decreases k
  {
    hide Next, Enabled;
    RunStep(worlds, actions, k - 1);
    if k == i + 1 {
      ForgetForgets(worlds[i]);
    } else {
      ForgottenUntilStarted(worlds, actions, i, k - 1);
      ForgottenNext(worlds[k - 1], actions[k - 1]);
    }
    if k < |actions| && actions[k].MaxDoes? && (actions[k].action.LoadResult? || actions[k].action.LoadPrint?) {
      RunStep(worlds, actions, k);
      LoadIsFree(worlds[k], actions[k]);
    }
  }
}
