/** What the core watchdog promises (app/js/core-watchdog.js): from which state it goes where, and that a
    ping nobody answers is noticed in time and ends in a restart. */
module WatchdogRuns {
  import opened Numbers
  import opened Options
  import opened Watchdog

  // ------------------------------------------------ from state to state, exactly

  /** The older of the two ages. */
  function OldestAge(i: Input): int
    requires i.Tick?
  {
    Max(Or0(i.pingPending), Or0(i.oldest))
  }

  /** When a healthy or restarting core becomes stalled: at a tick after the grace that finds the ping or
      a call old enough - dated back to when the older of them began - or when a restart that was not one
      of a dead core fails. */
  lemma StalledExactlyWhen(s: State, i: Input, w: Config)
    requires s.status !in {Stalled, RestartingFailed}
    ensures var o := Step(s, i, w);
            && (o.state.status == Stalled <==>
                  || (s.status == Healthy && i.Tick? && i.now >= s.graceUntil
                      && (Or0(i.pingPending) >= w.pingStall || Or0(i.oldest) >= w.rpcStall))
                  || (s.status == Restarting && i.Restarted? && !i.ok && s.restartKind != DeadCore))
            && (o.state.status == Stalled <==> Show(Stalled) in o.actions)
            && (o.state.status == Stalled ==> o.state.since == if i.Tick? then i.now - OldestAge(i) else i.now)
  {
    if Step(s, i, w).state.status == Stalled {
      assert Step(s, i, w).actions[1] == Show(Stalled);
    }
  }

  /** What ends it all well: a ping answered while no call is stuck, or a restart that works - and only the
      latter grants a new grace. */
  lemma HealthyExactlyWhen(s: State, i: Input, w: Config)
    requires s.status !in {Healthy, RestartingFailed}
    ensures var o := Step(s, i, w);
            && (o.state.status == Healthy <==>
                  || (s.status == Stalled && i.Pong? && Or0(i.oldest) < w.rpcStall)
                  || (s.status == Restarting && i.Restarted? && i.ok))
            && (o.state.status == Healthy <==> Hide in o.actions)
            && (o.state.status == Healthy ==>
                  && o.state.since == i.now && o.state.restarts == s.restarts
                  && o.state.graceUntil == if i.Restarted? then i.now + w.resumeGrace else s.graceUntil)
  {
    if Step(s, i, w).state.status == Healthy {
      assert Step(s, i, w).actions[1] == Hide;
    }
  }

  /** A death, reported or by a failed restart of a dead core. */
  predicate Dies(s: State, i: Input) {
    || (i.CoreDied? && s.status in {Healthy, Stalled})
    || (s.status == Restarting && i.Restarted? && !i.ok && s.restartKind == DeadCore)
  }

  /** What a death leaves: a dead core with the delay that belongs to the automatic restarts in the
      window, or for good a failed one when there were as many as allowed. */
  lemma DeadOrFailedExactlyWhen(s: State, i: Input, w: Config)
    requires s.status !in {Dead, Failed, RestartingFailed}
    ensures var o := Step(s, i, w);
            var recent := |InWindow(s.restarts, i.now, w)|;
            && (o.state.status == Dead <==> Dies(s, i) && recent < w.maxRestarts)
            && (o.state.status == Failed <==> Dies(s, i) && recent >= w.maxRestarts)
            && (o.state.status == Dead ==> o.state.nextRestartAt == i.now + Backoff(recent, w))
            && (o.state.status in {Dead, Failed} ==> o.state.since == i.now && Show(o.state.status) in o.actions)
  {
    var o := Step(s, i, w);
    if o.state.status in {Dead, Failed} {
      assert o.actions[|o.actions| - 1] == Show(o.state.status);
    }
  }

  /** A restart begins automatically, as said elsewhere, or whenever the user asks and none is under way;
      from dead or failed nothing else leads away. */
  lemma RestartingExactlyWhen(s: State, i: Input, w: Config)
    requires s.status !in {Restarting, RestartingFailed}
    ensures var o := Step(s, i, w);
            && (o.state.status == Restarting <==> i.Manual? || exists k :: Restart(k, true) in o.actions)
            && (i.Manual? ==> Restart(ManualRestart, false) in o.actions && o.state.restarts == s.restarts)
            && (s.status in {Dead, Failed} ==> o.state.status in {s.status, Restarting})
            && (s.status == Failed && !i.Manual? ==> o.state.status == Failed)
  {
    var o := Step(s, i, w);
    if o.state.status == Restarting {
      assert o.actions[1].Restart?;
      assert o.actions[1] in o.actions;
    }
  }

  /** The delays, by the number of restarts before: one second, five, then thirty. */
  lemma DelayTable(count: nat)
    ensures Backoff(count, WATCHDOG) == if count == 0 then 1000 else if count == 1 then 5000 else 30000
  {
  }

  /** Being busy puts an automatic restart off, and is said once. */
  lemma BusyPutsOff(s: State, i: Input, w: Config)
    requires i.Tick? && (i.transfer || i.call)
    requires (s.status == Stalled && i.now - s.since >= w.hungRestart) || (s.status == Dead && i.now >= s.nextRestartAt)
    ensures var o := Step(s, i, w);
            && o.state == s.(suppressedLogged := true)
            && o.actions == if s.suppressedLogged then [] else [Log]
  {
  }

  // ------------------------------------------------ runs of the timer

  /** What happens while nothing answers: the timer, or the client gives the ping up. */
  datatype Moment = At(e: Timer) | TimedOut

  function Next(d: Driver, m: Moment, w: Config): Driver {
    match m
    case At(e) => Ticked(d, e, w)
    case TimedOut => d.(pingStarted := 0)
  }

  function TimerRun(d: Driver, ms: seq<Moment>, w: Config): Driver
    decreases |ms|
  {
    if ms == [] then d else TimerRun(Next(d, ms[0], w), ms[1..], w)
  }

  /** The app is visible, and the clock neither runs back nor leaves a gap that re-dates. */
  predicate SteadyTick(d: Driver, e: Timer, w: Config) {
    e.visible && 0 < e.t && d.lastTick <= e.t && (d.lastTick != 0 ==> e.t < d.lastTick + w.timerJump)
  }

  predicate Steady(d: Driver, ms: seq<Moment>, w: Config)
    decreases |ms|
  {
    ms != [] ==> (ms[0].At? ==> SteadyTick(d, ms[0].e, w)) && Steady(Next(d, ms[0], w), ms[1..], w)
  }

  lemma SteadyIs(d: Driver, e: Timer, w: Config)
    requires SteadyTick(d, e, w)
    ensures var d1 := Ticked(d, e, w);
            && d1.state == Step(d.state, TickAt(e.t, d.pingStarted, e.oldest(d.resumedAt), e.transfer, e.call), w).state
            && d1.pingStarted == Pinged(d1.state.status, d.pingStarted, e.t)
            && d1.resumedAt == d.resumedAt && d1.lastTick == e.t
  {
    hide Step, TickAt;
  }

  /** The tick finds the ping old enough, and the grace over. */
  predicate Due(d: Driver, m: Moment, w: Config) {
    m.At? && d.pingStarted != 0 && m.e.t >= d.pingStarted + w.pingStall && m.e.t >= d.state.graceUntil
  }

  /** The tick finds neither a ping nor a call too old. */
  predicate Quiet(d: Driver, m: Moment, w: Config) {
    m.At? && !Due(d, m, w) && Or0(m.e.oldest(d.resumedAt)) < w.rpcStall
  }

  /** Not before: while no call is stuck and no tick finds the ping old enough, the core counts as healthy. */
  lemma {:induction false} NotNoticedEarly(d: Driver, ms: seq<Moment>, w: Config)
    requires Steady(d, ms, w) && d.state.status == Healthy && d.pingStarted != 0 && w.pingStall > 0
    requires forall k :: 0 <= k < |ms| ==> Quiet(d, ms[k], w)
    ensures var d1 := TimerRun(d, ms, w);
            d1.state == d.state && d1.pingStarted == d.pingStarted && d1.resumedAt == d.resumedAt
    decreases |ms|
  {
    if ms != [] {
      assert Quiet(d, ms[0], w);
      SteadyIs(d, ms[0].e, w);
      var d1 := Next(d, ms[0], w);
      assert d1.state == d.state;
      hide Ticked, Step;
      forall k | 0 <= k < |ms[1..]| ensures Quiet(d1, ms[1..][k], w) {
        assert Quiet(d, ms[k + 1], w);
      }
      NotNoticedEarly(d1, ms[1..], w);
    }
  }

  /** Noticed at once: the first tick that finds the ping old enough, the grace being over, shows the
      core as stalled since the ping went out, or since an older call began. */
  lemma {:induction false} StallNoticed(d: Driver, ms: seq<Moment>, w: Config)
    requires Steady(d, ms, w) && d.state.status == Healthy && ms != [] && w.pingStall > 0
    requires forall k :: 0 <= k < |ms| - 1 ==> Quiet(d, ms[k], w)
    requires Due(d, ms[|ms| - 1], w)
    ensures var d1, last := TimerRun(d, ms, w), ms[|ms| - 1].e;
            && d1.state.status == Stalled && d1.state.restarts == d.state.restarts
            && d1.state.since == Min(d.pingStarted, last.t - Or0(last.oldest(d.resumedAt)))
    decreases |ms|
  {
    if |ms| == 1 {
      SteadyIs(d, ms[0].e, w);
      var d1 := Next(d, ms[0], w);
      assert TimerRun(d1, ms[1..], w) == d1;
    } else {
      assert Quiet(d, ms[0], w);
      SteadyIs(d, ms[0].e, w);
      var d1 := Next(d, ms[0], w);
      assert d1.state == d.state;
      hide Ticked, Step;
      forall k | 0 <= k < |ms[1..]| - 1 ensures Quiet(d1, ms[1..][k], w) {
        assert Quiet(d, ms[k + 1], w);
      }
      StallNoticed(d1, ms[1..], w);
    }
  }

  // ------------------------------------------------ a ping nobody answers ends in a restart

  /** Once out of the window, out of it for good. */
  lemma {:induction false} PrunedTwice(a: seq<int>, now: int, later: int, w: Config)
    requires now <= later
    ensures InWindow(InWindow(a, now, w), later, w) == InWindow(a, later, w)
  {
    if a != [] {
      PrunedTwice(a[1..], now, later, w);
      var rest := InWindow(a[1..], now, w);
      if now - a[0] < w.window {
        assert ([a[0]] + rest)[1..] == rest;
      } else {
        assert [] + rest == rest;
      }
    }
  }

  /** A core that has not answered the ping of instant `p`; `orig` are the restarts when it went out. */
  ghost predicate Unanswered(d: Driver, p: int, orig: seq<int>, w: Config) {
    && (d.state.status in {Healthy, Stalled} || (d.state.status == Restarting && d.state.restartKind == HungCore))
    && (d.state.status == Healthy ==> d.pingStarted == p && p != 0)
    && (d.state.status == Stalled ==> d.state.since <= p)
    && (d.state.status != Restarting ==>
          forall t :: d.lastTick <= t ==> InWindow(d.state.restarts, t, w) == InWindow(orig, t, w))
  }

  lemma UnansweredTick(d: Driver, e: Timer, p: int, orig: seq<int>, w: Config)
    requires Unanswered(d, p, orig, w) && SteadyTick(d, e, w)
    ensures var d1 := Ticked(d, e, w);
            && Unanswered(d1, p, orig, w) && d1.state.graceUntil == d.state.graceUntil && d1.lastTick == e.t
            && (d.state.status == Restarting ==> d1.state.status == Restarting)
            && (d.state.status != Healthy || Due(d, At(e), w) ==> d1.state.status != Healthy)
            && (d.state.status == Stalled && e.t >= p + w.hungRestart && !e.transfer && !e.call
                && |InWindow(orig, e.t, w)| < w.maxRestarts
                ==> d1.state.status == Restarting)
  {
    SteadyIs(d, e, w);
    var d1 := Ticked(d, e, w);
    hide Ticked;
    if d1.state.status != Restarting {
      forall t | e.t <= t ensures InWindow(d1.state.restarts, t, w) == InWindow(orig, t, w) {
        PrunedTwice(d.state.restarts, e.t, t, w);
        assert InWindow(d.state.restarts, t, w) == InWindow(orig, t, w);
        hide InWindow;
      }
    }
    assert d.state.status != Restarting ==> InWindow(d.state.restarts, e.t, w) == InWindow(orig, e.t, w);
    hide InWindow;
  }

  /** Up to the i-th moment the client has not given the ping up: its timeout is longer than the limit for
      a stall. */
  predicate StillWaiting(ms: seq<Moment>, i: nat) {
    forall k :: 0 <= k < |ms| && k < i ==> ms[k].At?
  }

  /** However the calls look, and however busy the core was before: a ping sent at `p` that nothing answers
      is a restart of a hung core under way by the first tick at or past `p + hungRestart` that comes
      after one which found it due, that finds nobody busy and fewer automatic restarts in the window
      than are allowed. */
  lemma {:induction false} HungRestarted(d: Driver, ms: seq<Moment>, i: nat, j: nat, p: int, orig: seq<int>, w: Config)
    requires Steady(d, ms, w) && Unanswered(d, p, orig, w) && j < |ms| && ms[j].At?
    requires d.state.status != Healthy || (i < j && Due(d, ms[i], w) && StillWaiting(ms, i))
    requires ms[j].e.t >= p + w.hungRestart && !ms[j].e.transfer && !ms[j].e.call
    requires |InWindow(orig, ms[j].e.t, w)| < w.maxRestarts
    ensures var d1 := TimerRun(d, ms, w);
            d1.state.status == Restarting && d1.state.restartKind == HungCore
    decreases |ms|
  {
    var d1 := Next(d, ms[0], w);
    if j > 0 {
      assert ms[1..][j - 1] == ms[j];
      assert 0 < i < |ms| ==> ms[1..][i - 1] == ms[i];
      assert StillWaiting(ms, i) && i > 0 ==> StillWaiting(ms[1..], i - 1);
    }
    if ms[0].At? {
      UnansweredTick(d, ms[0].e, p, orig, w);
    } else {
      assert d.state.status != Healthy;
    }
    assert Unanswered(d1, p, orig, w);
    hide Ticked, InWindow, Step;
    if d1.state.status == Restarting {
      StaysRestarting(d1, ms[1..], p, orig, w);
    } else {
      HungRestarted(d1, ms[1..], if i > 0 then i - 1 else 0, j - 1, p, orig, w);
    }
  }

  lemma {:induction false} StaysRestarting(d: Driver, ms: seq<Moment>, p: int, orig: seq<int>, w: Config)
    requires Steady(d, ms, w) && Unanswered(d, p, orig, w) && d.state.status == Restarting
    ensures var d1 := TimerRun(d, ms, w);
            d1.state.status == Restarting && d1.state.restartKind == HungCore
    decreases |ms|
  {
    if ms != [] {
      if ms[0].At? {
        UnansweredTick(d, ms[0].e, p, orig, w);
      }
      var d1 := Next(d, ms[0], w);
      hide Ticked;
      StaysRestarting(d1, ms[1..], p, orig, w);
    }
  }

  /** The same from a healthy core whose ping is out, in the terms of the program. */
  lemma UnansweredPingRestarts(d: Driver, ms: seq<Moment>, i: nat, j: nat, w: Config)
    requires Steady(d, ms, w) && d.state.status == Healthy && d.pingStarted != 0
    requires i < j < |ms| && ms[j].At? && Due(d, ms[i], w) && StillWaiting(ms, i)
    requires ms[j].e.t >= d.pingStarted + w.hungRestart && !ms[j].e.transfer && !ms[j].e.call
    requires |InWindow(d.state.restarts, ms[j].e.t, w)| < w.maxRestarts
    ensures var d1 := TimerRun(d, ms, w);
            d1.state.status == Restarting && d1.state.restartKind == HungCore
  {
    hide TimerRun, InWindow, Due, Steady;
    HungRestarted(d, ms, i, j, d.pingStarted, d.state.restarts, w);
  }
}
