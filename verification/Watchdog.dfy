/** The core watchdog (app/js/core-watchdog.js): a clocked policy that notices a core which stopped
    answering and restarts it, at most so often.  `Step` is the policy as a function, `CoreWatchdog`
    the object that drives it; the lemmas speak about whole runs. */
module Watchdog {
  import opened Numbers
  import opened Options

  /** The thresholds of the WATCHDOG table that the policy reads; all durations are milliseconds. */
  datatype Thresholds = Thresholds(
    pingStall: int, rpcStall: int, hungRestart: int, resumeGrace: int,
    backoff: seq<int>, maxRestarts: nat, window: int, timerJump: int)

  const WATCHDOG := Thresholds(8000, 10000, 60000, 8000, [1000, 5000, 30000], 3, 600000, 15000)

  type Config = c: Thresholds | c.backoff != [] witness WATCHDOG

  datatype Status = Healthy | Stalled | Dead | Restarting | Failed | RestartingFailed

  datatype Kind = NoKind | DeadCore | HungCore | ManualRestart

  datatype State = State(
    status: Status, since: int, graceUntil: int, restarts: seq<int>,
    nextRestartAt: int, suppressedLogged: bool, restartKind: Kind)

  /** Ages are `None` where the program passes null or leaves the field out. */
  datatype Input =
    | Tick(now: int, pingPending: Option<int>, oldest: Option<int>, transfer: bool, call: bool)
    | Pong(now: int, oldest: Option<int>)
    | CoreDied(now: int)
    | Resume(now: int)
    | Restarted(now: int, ok: bool)
    | Manual(now: int)

  datatype Action = Log | Show(status: Status) | Hide | Restart(kind: Kind, auto: bool)

  datatype Outcome = Outcome(state: State, actions: seq<Action>)

  function InitialState(now: int): State {
    State(Healthy, now, 0, [], 0, false, NoKind)
  }

  function Or0(age: Option<int>): int {
    if age.Some? then age.value else 0
  }

  /** The automatic restarts that still count against the cap. */
  function InWindow(restarts: seq<int>, now: int, w: Config): seq<int> {
    if restarts == [] then []
    else (if now - restarts[0] < w.window then [restarts[0]] else []) + InWindow(restarts[1..], now, w)
  }

  function Backoff(count: nat, w: Config): int
  {
    w.backoff[if count < |w.backoff| - 1 then count else |w.backoff| - 1]
  }

  function DiedStep(s: State, now: int, w: Config): Outcome
  {
    if s.status in {Dead, Failed, Restarting} then Outcome(s, [])
    else
      var kept := InWindow(s.restarts, now, w);
      if |kept| >= w.maxRestarts then
        Outcome(s.(restarts := kept, status := Failed, since := now), [Log, Log, Show(Failed)])
      else
        Outcome(
          s.(restarts := kept, status := Dead, since := now,
             nextRestartAt := now + Backoff(|kept|, w), suppressedLogged := false),
          [Log, Log, Show(Dead)])
  }

  function TickStep(s: State, i: Input, w: Config): Outcome
    requires i.Tick?
  {
    match s.status
    case Healthy =>
      if i.now < s.graceUntil || (Or0(i.pingPending) < w.pingStall && Or0(i.oldest) < w.rpcStall)
      then Outcome(s, [])
      else
        Outcome(
          s.(status := Stalled, since := i.now - Max(Or0(i.pingPending), Or0(i.oldest)), suppressedLogged := false),
          [Log, Show(Stalled)])
    case Stalled =>
      if i.now - s.since < w.hungRestart then Outcome(s, [])
      else if i.transfer || i.call then
        Outcome(s.(suppressedLogged := true), if s.suppressedLogged then [] else [Log])
      else
        var kept := InWindow(s.restarts, i.now, w);
        if |kept| >= w.maxRestarts then
          Outcome(s.(restarts := kept, suppressedLogged := true), if s.suppressedLogged then [] else [Log])
        else
          Outcome(
            s.(restarts := kept + [i.now], status := Restarting, restartKind := HungCore),
            [Log, Restart(HungCore, true)])
    case Dead =>
      if i.now < s.nextRestartAt then Outcome(s, [])
      else if i.transfer || i.call then
        Outcome(s.(suppressedLogged := true), if s.suppressedLogged then [] else [Log])
      else
        Outcome(
          s.(restarts := s.restarts + [i.now], status := Restarting, restartKind := DeadCore),
          [Log, Restart(DeadCore, true)])
    case _ => Outcome(s, [])
  }

  /** One input of the policy. */
  function Step(s: State, i: Input, w: Config): Outcome
  {
    match i
    case Resume(now) => Outcome(s.(graceUntil := now + w.resumeGrace), [])
    case Pong(now, oldest) =>
      if s.status == Stalled && Or0(oldest) < w.rpcStall then
        Outcome(s.(status := Healthy, since := now, suppressedLogged := false), [Log, Hide])
      else Outcome(s, [])
    case CoreDied(now) => DiedStep(s, now, w)
    case Manual(now) =>
      if s.status == Restarting then Outcome(s, [])
      else Outcome(s.(status := Restarting, restartKind := ManualRestart), [Log, Restart(ManualRestart, false)])
    case Restarted(now, ok) =>
      if s.status != Restarting then Outcome(s, [])
      else if ok then
        Outcome(
          s.(status := Healthy, since := now, suppressedLogged := false, graceUntil := now + w.resumeGrace),
          [Log, Hide])
      else if s.restartKind == DeadCore then
        // a failed restart of a dead core counts as another death
        var r := DiedStep(s.(status := RestartingFailed), now, w);
        Outcome(r.state, [Log] + r.actions)
      else
        Outcome(s.(status := Stalled, since := now, suppressedLogged := false), [Log, Show(Stalled)])
    case Tick(_, _, _, _, _) => TickStep(s, i, w)
  }

  // ---------------------------------------------------------------- runs

  datatype Stamped = Stamped(at: int, action: Action)

  datatype Trace = Trace(state: State, log: seq<Stamped>)

  function Stamp(at: int, actions: seq<Action>): (r: seq<Stamped>)
    ensures |r| == |actions|
    ensures forall k :: 0 <= k < |r| ==> r[k] == Stamped(at, actions[k])
  {
    seq(|actions|, k requires 0 <= k < |actions| => Stamped(at, actions[k]))
  }

  /** Everything a run did, from state `s` on. */
  function Run(s: State, ins: seq<Input>, w: Config): Trace
  {
    if ins == [] then Trace(s, [])
    else
      var before := Run(s, ins[..|ins| - 1], w);
      var last := ins[|ins| - 1];
      var o := Step(before.state, last, w);
      Trace(o.state, before.log + Stamp(last.now, o.actions))
  }

  predicate Clocked(from: int, ins: seq<Input>) {
    && (forall k :: 0 <= k < |ins| ==> from <= ins[k].now)
    && (forall j, k :: 0 <= j < k < |ins| ==> ins[j].now <= ins[k].now)
  }

  /** The instants of the automatic restarts in a log. */
  function AutoTimes(log: seq<Stamped>): seq<int> {
    if log == [] then []
    else
      var last := log[|log| - 1];
      AutoTimes(log[..|log| - 1]) + if last.action.Restart? && last.action.auto then [last.at] else []
  }

  lemma {:induction false} AutoTimesConcat(a: seq<Stamped>, b: seq<Stamped>)
    ensures AutoTimes(a + b) == AutoTimes(a) + AutoTimes(b)
  {
    if b == [] {
      assert a + b == a;
    } else {
      assert (a + b)[..|a + b| - 1] == a + b[..|b| - 1];
      AutoTimesConcat(a, b[..|b| - 1]);
    }
  }

  predicate Sorted(a: seq<int>) {
    forall j, k :: 0 <= j < k < |a| ==> a[j] <= a[k]
  }

  /** Any `maxRestarts + 1` consecutive restarts span at least the window. */
  predicate Spaced(a: seq<int>, w: Config) {
    forall k :: 0 <= k && k + w.maxRestarts < |a| ==> a[k + w.maxRestarts] - a[k] >= w.window
  }

  // ------------------------------------------------ the rate limit

  /** Pruning a sorted list drops exactly an expired prefix. */
  lemma {:induction false} InWindowIsSuffix(a: seq<int>, now: int, w: Config)
    requires Sorted(a)
    ensures var n := |InWindow(a, now, w)|;
            && n <= |a|
            && InWindow(a, now, w) == a[|a| - n..]
            && (forall j :: 0 <= j < |a| - n ==> now - a[j] >= w.window)
            && (forall j :: |a| - n <= j < |a| ==> now - a[j] < w.window)
  {
    if a != [] {
      InWindowIsSuffix(a[1..], now, w);
      var n := |InWindow(a[1..], now, w)|;
      forall j | 1 <= j < |a| ensures a[j] == a[1..][j - 1] && a[0] <= a[j] {}
    }
  }

  /** `auto` is the ghost history of all automatic restarts up to `now`; `counted` is its part that
      the policy still remembers, everything before it being out of the window. */
  predicate History(counted: seq<int>, auto: seq<int>, now: int, w: Config) {
    && Sorted(auto) && Spaced(auto, w)
    && (forall j :: 0 <= j < |auto| ==> auto[j] <= now)
    && |counted| <= |auto|
    && counted == auto[|auto| - |counted|..]
    && (forall j :: 0 <= j < |auto| - |counted| ==> now - auto[j] >= w.window)
  }

  lemma HistoryPrune(counted: seq<int>, auto: seq<int>, now: int, w: Config)
    requires History(counted, auto, now, w)
    ensures History(InWindow(counted, now, w), auto, now, w)
  {
    assert Sorted(counted) by { SuffixSorted(auto, |counted|); }
    InWindowIsSuffix(counted, now, w);
    hide InWindow, Sorted, Spaced;
    var kept := InWindow(counted, now, w);
    SuffixOfSuffix(auto, |counted|, |kept|);
    forall j | 0 <= j < |auto| - |kept| ensures now - auto[j] >= w.window {
      if j >= |auto| - |counted| {
        assert auto[j] == counted[j - (|auto| - |counted|)];
      }
    }
  }

  lemma SuffixSorted(a: seq<int>, n: nat)
    requires Sorted(a) && n <= |a|
    ensures Sorted(a[|a| - n..])
  {
  }

  lemma SuffixOfSuffix(a: seq<int>, n: nat, k: nat)
    requires k <= n <= |a|
    ensures a[|a| - n..][n - k..] == a[|a| - k..]
  {
  }

  lemma SortedPush(a: seq<int>, x: int)
    requires Sorted(a) && forall j :: 0 <= j < |a| ==> a[j] <= x
    ensures Sorted(a + [x])
  {
  }

  /** Recording one more restart keeps the spacing when the counted ones are below the cap. */
  lemma HistoryPush(counted: seq<int>, auto: seq<int>, now: int, w: Config)
    requires History(counted, auto, now, w) && |counted| < w.maxRestarts
    ensures History(counted + [now], auto + [now], now, w)
  {
    var a := auto + [now];
    assert Sorted(a) by { SortedPush(auto, now); }
    hide Sorted;
    forall k | 0 <= k && k + w.maxRestarts < |a| ensures a[k + w.maxRestarts] - a[k] >= w.window {
      if k + w.maxRestarts == |auto| {
        assert a[k] == auto[k] && k < |auto| - |counted|;
      } else {
        assert a[k] == auto[k] && a[k + w.maxRestarts] == auto[k + w.maxRestarts];
      }
    }
  }

  predicate DeadInv(s: State, w: Config)
  {
    s.status == Dead ==> |s.restarts| < w.maxRestarts && s.nextRestartAt == s.since + Backoff(|s.restarts|, w)
  }

  predicate RateInv(s: State, auto: seq<int>, now: int, w: Config)
  {
    History(s.restarts, auto, now, w) && DeadInv(s, w)
  }

  /** Every list of actions the policy returns is log lines followed by at most one other action. */
  predicate LogsThen(actions: seq<Action>) {
    forall k :: 0 <= k < |actions| - 1 ==> actions[k].Log?
  }

  predicate AutoLast(actions: seq<Action>) {
    actions != [] && actions[|actions| - 1].Restart? && actions[|actions| - 1].auto
  }

  lemma StepShape(s: State, i: Input, w: Config)
    ensures LogsThen(Step(s, i, w).actions)
  {
  }

  lemma {:induction false} AutoTimesOfStep(at: int, actions: seq<Action>)
    requires LogsThen(actions)
    ensures AutoTimes(Stamp(at, actions)) == if AutoLast(actions) then [at] else []
  {
    if actions != [] {
      var n := |actions| - 1;
      assert Stamp(at, actions)[..n] == Stamp(at, actions[..n]);
      AutoTimesOfStep(at, actions[..n]);
    }
  }

  /** What one step does to the remembered restarts. */
  lemma StepRestarts(s: State, i: Input, w: Config)
    requires DeadInv(s, w)
    ensures var o := Step(s, i, w);
            && DeadInv(o.state, w)
            && (!AutoLast(o.actions) ==> o.state.restarts == s.restarts || o.state.restarts == InWindow(s.restarts, i.now, w))
            && (AutoLast(o.actions) ==>
                  || (|s.restarts| < w.maxRestarts && o.state.restarts == s.restarts + [i.now])
                  || (|InWindow(s.restarts, i.now, w)| < w.maxRestarts
                      && o.state.restarts == InWindow(s.restarts, i.now, w) + [i.now]))
  {
  }

  lemma RateStep(s: State, auto: seq<int>, before: int, i: Input, w: Config)
    requires RateInv(s, auto, before, w) && before <= i.now
    ensures var o := Step(s, i, w);
            RateInv(o.state, auto + AutoTimes(Stamp(i.now, o.actions)), i.now, w)
  {
    var o := Step(s, i, w);
    StepShape(s, i, w);
    StepRestarts(s, i, w);
    AutoTimesOfStep(i.now, o.actions);
    assert auto + [] == auto;
    assert History(s.restarts, auto, i.now, w);
    HistoryPrune(s.restarts, auto, i.now, w);
    if AutoLast(o.actions) {
      HistoryPush(o.state.restarts[..|o.state.restarts| - 1], auto, i.now, w);
    }
  }

  lemma RunLast(s: State, ins: seq<Input>, w: Config)
    requires ins != []
    ensures var t := Run(s, ins[..|ins| - 1], w);
            var last := ins[|ins| - 1];
            var o := Step(t.state, last, w);
            Run(s, ins, w) == Trace(o.state, t.log + Stamp(last.now, o.actions))
  {
  }

  lemma ClockedFront(from: int, ins: seq<Input>)
    requires ins != [] && Clocked(from, ins)
    ensures Clocked(from, ins[..|ins| - 1]) && Latest(from, ins[..|ins| - 1]) <= ins[|ins| - 1].now
    ensures Latest(from, ins) == ins[|ins| - 1].now
  {
  }

  lemma AutoTimesPush(prior: seq<int>, a: seq<Stamped>, b: seq<Stamped>)
    ensures prior + AutoTimes(a) + AutoTimes(b) == prior + AutoTimes(a + b)
  {
    AutoTimesConcat(a, b);
    assert prior + (AutoTimes(a) + AutoTimes(b)) == (prior + AutoTimes(a)) + AutoTimes(b);
  }

  lemma {:induction false} RateRun(s: State, prior: seq<int>, from: int, ins: seq<Input>, w: Config)
    requires RateInv(s, prior, from, w) && Clocked(from, ins)
    ensures var t := Run(s, ins, w);
            RateInv(t.state, prior + AutoTimes(t.log), Latest(from, ins), w)
  {
    if ins == [] {
      assert prior + [] == prior;
    } else {
      RunLast(s, ins, w);
      ClockedFront(from, ins);
      hide RateInv, Run, Step, AutoTimes, Clocked, Latest, Stamp;
      var front, last := ins[..|ins| - 1], ins[|ins| - 1];
      var t := Run(s, front, w);
      var more := Stamp(last.now, Step(t.state, last, w).actions);
      RateRun(s, prior, from, front, w);
      RateStep(t.state, prior + AutoTimes(t.log), Latest(from, front), last, w);
      AutoTimesPush(prior, t.log, more);
    }
  }

  function Latest(from: int, ins: seq<Input>): int {
    if ins == [] then from else ins[|ins| - 1].now
  }

  /** The indexes of the instants inside the window that starts at `lo`. */
  function Inside(a: seq<int>, lo: int, w: Config): set<int> {
    set k | 0 <= k < |a| && lo <= a[k] < lo + w.window
  }

  /** Sorted and spaced instants: no window of the configured length holds more than the cap. */
  lemma SpacedMeansFew(a: seq<int>, lo: int, w: Config)
    requires Sorted(a) && Spaced(a, w)
    ensures |Inside(a, lo, w)| <= w.maxRestarts
  {
    if Inside(a, lo, w) != {} {
      var k0 :| k0 in Inside(a, lo, w);
      var first := FirstFrom(a, lo, k0);
      forall k | k in Inside(a, lo, w) ensures first <= k < first + w.maxRestarts {
        SpacedApart(a, first, k, w);
      }
      FewInRange(Inside(a, lo, w), first, w.maxRestarts);
    }
  }

  lemma SpacedApart(a: seq<int>, j: nat, k: nat, w: Config)
    requires Sorted(a) && Spaced(a, w) && j < |a| && k < |a| && a[k] - a[j] < w.window
    ensures k < j + w.maxRestarts
  {
    if j + w.maxRestarts < |a| {
      assert a[j + w.maxRestarts] - a[j] >= w.window;
    }
  }

  lemma {:induction false} FirstFrom(a: seq<int>, lo: int, k0: nat) returns (first: nat)
    requires Sorted(a) && k0 < |a| && lo <= a[k0]
    ensures first <= k0 && lo <= a[first]
    ensures forall k :: 0 <= k < |a| && lo <= a[k] ==> first <= k
    decreases k0
  {
    if k0 == 0 || a[k0 - 1] < lo {
      first := k0;
    } else {
      first := FirstFrom(a, lo, k0 - 1);
    }
  }

  lemma {:induction false} FewInRange(s: set<int>, lo: int, n: nat)
    requires forall k :: k in s ==> lo <= k < lo + n
    ensures |s| <= n
  {
    if n > 0 {
      FewInRange(s - {lo + n - 1}, lo, n - 1);
    } else {
      assert forall k :: k !in s;
      assert s == {};
    }
  }

  /** The rate limit: over a whole run with a non-decreasing clock, starting from any acceptable list
      of earlier restarts, no window of `window` milliseconds holds more than `maxRestarts`
      automatic restarts. */
  lemma RateLimit(prior: seq<int>, from: int, ins: seq<Input>, w: Config, lo: int)
    requires Clocked(from, ins)
    requires Sorted(prior) && Spaced(prior, w) && forall j :: 0 <= j < |prior| ==> prior[j] <= from
    ensures var auto := prior + AutoTimes(Run(InitialState(from).(restarts := prior), ins, w).log);
            |Inside(auto, lo, w)| <= w.maxRestarts
  {
    RateRun(InitialState(from).(restarts := prior), prior, from, ins, w);
    SpacedMeansFew(prior + AutoTimes(Run(InitialState(from).(restarts := prior), ins, w).log), lo, w);
  }

  /** When the policy restarts the core by itself: exactly at a tick that finds no transfer and no
      call, with either a stall old enough and the cap not reached, or a dead core whose delay is over. */
  lemma AutoRestartExactlyWhen(s: State, i: Input, w: Config)
    ensures (exists k :: Restart(k, true) in Step(s, i, w).actions) <==>
            && i.Tick? && !i.transfer && !i.call
            && (|| (s.status == Stalled && i.now - s.since >= w.hungRestart
                    && |InWindow(s.restarts, i.now, w)| < w.maxRestarts)
                || (s.status == Dead && i.now >= s.nextRestartAt))
  {
  }

  /** In every reachable state a dead core is restarted no earlier than the delay that belongs to the
      number of automatic restarts in the window before it died. */
  lemma DeadRestartWaits(prior: seq<int>, from: int, ins: seq<Input>, i: Input, w: Config)
    requires Clocked(from, ins + [i])
    requires Sorted(prior) && Spaced(prior, w) && forall j :: 0 <= j < |prior| ==> prior[j] <= from
    requires Restart(DeadCore, true) in Step(Run(InitialState(from).(restarts := prior), ins, w).state, i, w).actions
    ensures var s := Run(InitialState(from).(restarts := prior), ins, w).state;
            s.status == Dead && i.now - s.since >= Backoff(|s.restarts|, w)
  {
    var start := InitialState(from).(restarts := prior);
    assert Clocked(from, ins) by {
      assert forall k :: 0 <= k < |ins| ==> ins[k] == (ins + [i])[k];
    }
    var s := Run(start, ins, w).state;
    assert DeadInv(s, w) by {
      RateRun(start, prior, from, ins, w);
    }
    DeadRestartStep(s, i, w);
  }

  lemma DeadRestartStep(s: State, i: Input, w: Config)
    requires DeadInv(s, w) && Restart(DeadCore, true) in Step(s, i, w).actions
    ensures s.status == Dead && i.now - s.since >= Backoff(|s.restarts|, w)
  {
  }

  // ------------------------------------------------ control state and banner

  function Issued(log: seq<Stamped>): nat {
    if log == [] then 0
    else Issued(log[..|log| - 1]) + if log[|log| - 1].action.Restart? then 1 else 0
  }

  /** How many outcomes of restart actions the run took in. */
  function Consumed(s: State, ins: seq<Input>, w: Config): nat
  {
    if ins == [] then 0
    else
      var front := ins[..|ins| - 1];
      Consumed(s, front, w)
      + if ins[|ins| - 1].Restarted? && Run(s, front, w).state.status == Restarting then 1 else 0
  }

  /** What the user sees after a log: `None` while the banner is hidden. */
  function Banner(log: seq<Stamped>): Option<Status> {
    if log == [] then None
    else
      match log[|log| - 1].action
      case Show(st) => Some(st)
      case Hide => None
      case _ => Banner(log[..|log| - 1])
  }

  predicate BannerMatches(s: State, shown: Option<Status>) {
    match s.status
    case Healthy => shown == None
    case Stalled => shown == Some(Stalled)
    case Dead => shown == Some(Dead)
    case Failed => shown == Some(Failed)
    case Restarting => true
    case RestartingFailed => false
  }

  lemma {:induction false} IssuedConcat(a: seq<Stamped>, b: seq<Stamped>)
    ensures Issued(a + b) == Issued(a) + Issued(b)
  {
    if b == [] {
      assert a + b == a;
    } else {
      assert (a + b)[..|a + b| - 1] == a + b[..|b| - 1];
      IssuedConcat(a, b[..|b| - 1]);
    }
  }

  /** The last show or hide decides, wherever plain log lines stand. */
  lemma {:induction false} BannerAppend(a: seq<Stamped>, b: seq<Stamped>)
    ensures Banner(a + b) ==
            if exists k :: 0 <= k < |b| && (b[k].action.Show? || b[k].action.Hide?) then Banner(b) else Banner(a)
  {
    if b == [] {
      assert a + b == a;
    } else {
      assert (a + b)[..|a + b| - 1] == a + b[..|b| - 1];
      BannerAppend(a, b[..|b| - 1]);
      var last := |b| - 1;
      if !(b[last].action.Show? || b[last].action.Hide?) {
        if exists k :: 0 <= k < |b| && (b[k].action.Show? || b[k].action.Hide?) {
          var k :| 0 <= k < |b| && (b[k].action.Show? || b[k].action.Hide?);
          assert b[..last][k] == b[k];
        } else {
          assert forall k :: 0 <= k < |b[..last]| ==> b[..last][k] == b[k];
        }
      } else {
        assert b[last].action.Show? || b[last].action.Hide?;
      }
    }
  }

  lemma {:induction false} StepLog(at: int, actions: seq<Action>)
    requires LogsThen(actions)
    ensures Issued(Stamp(at, actions)) == if actions != [] && actions[|actions| - 1].Restart? then 1 else 0
    ensures actions != [] && actions[|actions| - 1].Show? ==>
              Banner(Stamp(at, actions)) == Some(actions[|actions| - 1].status)
    ensures actions != [] && actions[|actions| - 1].Hide? ==> Banner(Stamp(at, actions)) == None
  {
    if actions != [] {
      var n := |actions| - 1;
      assert Stamp(at, actions)[..n] == Stamp(at, actions[..n]);
      StepLog(at, actions[..n]);
    }
  }

  /** The control invariant of every run: a restart is outstanding exactly in state `Restarting`,
      the transient `RestartingFailed` never shows, and the banner says what the status is. */
  lemma {:induction false} ControlRun(s: State, ins: seq<Input>, w: Config)
    requires s.status == Healthy
    ensures var t := Run(s, ins, w);
            && Issued(t.log) - Consumed(s, ins, w) == (if t.state.status == Restarting then 1 else 0)
            && BannerMatches(t.state, Banner(t.log))
  {
    if ins != [] {
      RunLast(s, ins, w);
      ConsumedLast(s, ins, w);
      hide Run, Step, Issued, Banner, Consumed, Stamp, BannerMatches;
      var front, last := ins[..|ins| - 1], ins[|ins| - 1];
      ControlRun(s, front, w);
      var t := Run(s, front, w);
      ControlStep(t.state, last, w);
      IssuedConcat(t.log, Stamp(last.now, Step(t.state, last, w).actions));
      BannerStays(t.state, t.log, last, w);
    }
  }

  lemma ConsumedLast(s: State, ins: seq<Input>, w: Config)
    requires ins != []
    ensures var front, last := ins[..|ins| - 1], ins[|ins| - 1];
            Consumed(s, ins, w)
            == Consumed(s, front, w) + if last.Restarted? && Run(s, front, w).state.status == Restarting then 1 else 0
  {
  }

  lemma BannerStays(s: State, log: seq<Stamped>, i: Input, w: Config)
    requires s.status != RestartingFailed && BannerMatches(s, Banner(log))
    ensures BannerMatches(Step(s, i, w).state, Banner(log + Stamp(i.now, Step(s, i, w).actions)))
  {
    var o := Step(s, i, w);
    var more := Stamp(i.now, o.actions);
    ControlStep(s, i, w);
    StepShape(s, i, w);
    BannerAppend(log, more);
    hide Step, Banner, Issued;
    if Speaks(o.actions) {
      assert more[|more| - 1].action == o.actions[|more| - 1];
    } else {
      assert forall k :: 0 <= k < |more| ==> more[k].action == o.actions[k];
    }
  }

  predicate Speaks(actions: seq<Action>) {
    actions != [] && (actions[|actions| - 1].Show? || actions[|actions| - 1].Hide?)
  }

  lemma ControlStep(s: State, i: Input, w: Config)
    requires s.status != RestartingFailed
    ensures var o := Step(s, i, w);
            && o.state.status != RestartingFailed
            && Issued(Stamp(i.now, o.actions))
               - (if i.Restarted? && s.status == Restarting then 1 else 0)
               == (if o.state.status == Restarting then 1 else 0) - (if s.status == Restarting then 1 else 0)
            && (Speaks(o.actions) ==> BannerMatches(o.state, Banner(Stamp(i.now, o.actions))))
            && (!Speaks(o.actions) ==> o.state.status == s.status || o.state.status == Restarting)
  {
    StepShape(s, i, w);
    StepLog(i.now, Step(s, i, w).actions);
  }

  // ------------------------------------------------ the driver

  /** `step`, with its local copy of the state and its list of actions updated in place. */
  method Decide(state: State, i: Input, w: Config) returns (s: State, out: seq<Action>)
    ensures Outcome(s, out) == Step(state, i, w)
  {
    s, out := state, [];
    match i {
      case Resume(now) => s := s.(graceUntil := now + w.resumeGrace);
      case Pong(now, oldest) =>
        if s.status == Stalled && Or0(oldest) < w.rpcStall {
          out := out + [Log];
          s := s.(status := Healthy, since := now, suppressedLogged := false);
          out := out + [Hide];
        }
      case CoreDied(now) => s, out := DecideDied(s, out, now, w);
      case Manual(now) =>
        if s.status != Restarting {
          out := out + [Log];
          s := s.(status := Restarting, restartKind := ManualRestart);
          out := out + [Restart(ManualRestart, false)];
        }
      case Restarted(now, ok) =>
        if s.status == Restarting {
          out := out + [Log];
          if ok {
            s := s.(status := Healthy, since := now, suppressedLogged := false, graceUntil := now + w.resumeGrace);
            out := out + [Hide];
          } else if s.restartKind == DeadCore {
            s := s.(status := RestartingFailed);
            s, out := DecideDied(s, out, now, w);
          } else {
            s := s.(status := Stalled, since := now, suppressedLogged := false);
            out := out + [Show(Stalled)];
          }
        }
      case Tick(_, _, _, _, _) => s, out := DecideTick(s, i, w);
    }
  }

  method DecideDied(state: State, before: seq<Action>, now: int, w: Config) returns (s: State, out: seq<Action>)
    ensures s == DiedStep(state, now, w).state && out == before + DiedStep(state, now, w).actions
  {
    s, out := state, before;
    if s.status == Dead || s.status == Failed || s.status == Restarting {
      return;
    }
    s := s.(restarts := InWindow(s.restarts, now, w));
    out := out + [Log];
    if |s.restarts| >= w.maxRestarts {
      out := out + [Log];
      s := s.(status := Failed, since := now);
      out := out + [Show(Failed)];
    } else {
      var delay := Backoff(|s.restarts|, w);
      s := s.(status := Dead, since := now, nextRestartAt := now + delay, suppressedLogged := false);
      out := out + [Log];
      out := out + [Show(Dead)];
    }
  }

  method DecideTick(state: State, i: Input, w: Config) returns (s: State, out: seq<Action>)
    requires i.Tick?
    ensures Outcome(s, out) == TickStep(state, i, w)
  {
    s, out := state, [];
    var busy := i.transfer || i.call;
    if s.status == Healthy {
      if i.now < s.graceUntil {
        return;
      }
      if Or0(i.pingPending) >= w.pingStall || Or0(i.oldest) >= w.rpcStall {
        var age := Max(Or0(i.pingPending), Or0(i.oldest));
        s := s.(status := Stalled, since := i.now - age, suppressedLogged := false);
        out := [Log, Show(Stalled)];
      }
    } else if s.status == Stalled && i.now - s.since >= w.hungRestart {
      if busy {
        out := if s.suppressedLogged then [] else [Log];
        s := s.(suppressedLogged := true);
        return;
      }
      s := s.(restarts := InWindow(s.restarts, i.now, w));
      if |s.restarts| >= w.maxRestarts {
        out := if s.suppressedLogged then [] else [Log];
        s := s.(suppressedLogged := true);
        return;
      }
      out := [Log];
      s := s.(restarts := s.restarts + [i.now]);
      s := s.(status := Restarting, restartKind := HungCore);
      out := out + [Restart(HungCore, true)];
    } else if s.status == Dead && i.now >= s.nextRestartAt {
      if busy {
        out := if s.suppressedLogged then [] else [Log];
        s := s.(suppressedLogged := true);
        return;
      }
      out := [Log];
      s := s.(restarts := s.restarts + [i.now]);
      s := s.(status := Restarting, restartKind := DeadCore);
      out := out + [Restart(DeadCore, true)];
    }
  }

  /** What the driver keeps beside the log. */
  datatype Driver = Driver(state: State, pingStarted: int, resumedAt: int, lastTick: int)

  /** One call of the timer. */
  datatype Timer = Timer(t: int, visible: bool, oldest: int -> Option<int>, transfer: bool, call: bool)

  function Ticked(d: Driver, e: Timer, w: Config): Driver {
    if !e.visible then d.(lastTick := 0)
    else
      var jumped := d.lastTick != 0 && e.t - d.lastTick >= w.timerJump;
      var before := if jumped then Graced(d.state, e.t, w) else d.state;
      var ping := if jumped && d.pingStarted != 0 then e.t else d.pingStarted;
      var resumed := if jumped then e.t else d.resumedAt;
      var after := Step(before, TickAt(e.t, ping, e.oldest(resumed), e.transfer, e.call), w).state;
      Driver(after, Pinged(after.status, ping, e.t), resumed, e.t)
  }

  /** The driver: it feeds the policy, carries out its actions and keeps the ping bookkeeping.
      `outstanding` counts the restarts it started whose outcome has not come back yet. */
  class CoreWatchdog {
    const w: Config
    const start: State
    var state: State
    var log: seq<Stamped>
    var outstanding: nat
    var pingStarted: int
    var resumedAt: int
    var lastTick: int
    ghost var ins: seq<Input>

    ghost predicate Valid()
      reads this
    {
      && start.status == Healthy
      && Trace(state, log) == Run(start, ins, w)
      && outstanding == Issued(log) - Consumed(start, ins, w)
    }

    ghost function Snap(): Driver
      reads this
    {
      Driver(state, pingStarted, resumedAt, lastTick)
    }

    constructor (now: int, prior: seq<int>, w: Config)
      ensures Valid() && this.w == w && log == [] && state == InitialState(now).(restarts := prior)
    {
      this.w := w;
      start := InitialState(now).(restarts := prior);
      state := InitialState(now).(restarts := prior);
      log, outstanding, pingStarted, resumedAt, lastTick, ins := [], 0, 0, 0, 0, [];
    }

    /** One input, except the outcome of a restart. */
    method Apply(i: Input)
      requires Valid() && !i.Restarted?
      modifies this`state, this`log, this`outstanding, this`ins
      ensures Valid() && ins == old(ins) + [i]
      ensures state == Step(old(state), i, w).state
      ensures log == old(log) + Stamp(i.now, Step(old(state), i, w).actions)
    {
      hide Step, Run, Consumed, Issued;
      var s, out := Decide(state, i, w);
      Extended(start, ins, i, w, Trace(state, log), outstanding);
      state := s;
      Execute(i.now, out);
      ins := ins + [i];
    }

    /** The outcome of a restart the driver started: never lost on the policy. */
    method RestartSettled(now: int, ok: bool)
      requires Valid() && outstanding > 0
      modifies this`state, this`log, this`outstanding, this`ins
      ensures Valid() && old(state).status == Restarting && old(outstanding) == 1
      ensures state == Step(old(state), Restarted(now, ok), w).state && state.status != Restarting
      ensures log == old(log) + Stamp(now, Step(old(state), Restarted(now, ok), w).actions)
    {
      hide Step, Run, Consumed, Issued;
      var i := Restarted(now, ok);
      OutstandingMeans(start, ins, w, Trace(state, log), outstanding, i);
      var s, out := Decide(state, i, w);
      Extended(start, ins, i, w, Trace(state, log), outstanding);
      state := s;
      outstanding := outstanding - 1;
      Execute(now, out);
      ins := ins + [i];
    }

    method Execute(at: int, out: seq<Action>)
      modifies this`log, this`outstanding
      ensures log == old(log) + Stamp(at, out)
      ensures outstanding == old(outstanding) + Issued(Stamp(at, out))
    {
      var k := 0;
      while k < |out|
        invariant 0 <= k <= |out|
        invariant log == old(log) + Stamp(at, out[..k])
        invariant outstanding == old(outstanding) + Issued(Stamp(at, out[..k]))
      {
        assert Stamp(at, out[..k + 1])[..k] == Stamp(at, out[..k]);
        assert Stamp(at, out[..k + 1]) == Stamp(at, out[..k]) + [Stamped(at, out[k])];
        log := log + [Stamped(at, out[k])];
        if out[k].Restart? {
          outstanding := outstanding + 1;
        }
        k := k + 1;
      }
      assert out[..k] == out;
    }

    method BackInForeground(t: int)
      requires Valid()
      modifies this`state, this`log, this`outstanding, this`ins, this`resumedAt, this`pingStarted
      ensures Valid() && resumedAt == t && pingStarted == (if old(pingStarted) != 0 then t else 0)
      ensures log == old(log) && state == Graced(old(state), t, w)
    {
      hide Step, Stamp, Run, Consumed, Issued;
      ResumeIs(state, t, w);
      resumedAt := t;
      if pingStarted != 0 {
        pingStarted := t;
      }
      Apply(Resume(t));
      assert log == old(log) + [];
    }

    /** A tick that comes after a long gap counts as a return to the foreground. */
    method Redate(t: int)
      requires Valid()
      modifies this`state, this`log, this`outstanding, this`ins, this`resumedAt, this`pingStarted
      ensures Valid() && log == old(log)
      ensures var jumped := old(lastTick) != 0 && t - old(lastTick) >= w.timerJump;
              && state == (if jumped then Graced(old(state), t, w) else old(state))
              && resumedAt == (if jumped then t else old(resumedAt))
              && pingStarted == (if jumped && old(pingStarted) != 0 then t else old(pingStarted))
    {
      hide Valid, Graced;
      if lastTick != 0 && t - lastTick >= w.timerJump {
        BackInForeground(t);
      }
    }

    /** The rest of a tick, once its instant is settled; a ping goes out if none is on its way. */
    method TickNow(t: int, oldest: int -> Option<int>, transfer: bool, call: bool)
      requires Valid()
      modifies this`state, this`log, this`outstanding, this`ins, this`lastTick, this`pingStarted
      ensures Valid() && lastTick == t
      ensures var tick := TickAt(t, old(pingStarted), oldest(resumedAt), transfer, call);
              && state == Step(old(state), tick, w).state
              && log == old(log) + Stamp(t, Step(old(state), tick, w).actions)
      ensures pingStarted == Pinged(state.status, old(pingStarted), t)
    {
      hide Step, Run, Consumed, Issued, Stamp;
      lastTick := t;
      Apply(Tick(t, if pingStarted != 0 then Some(t - pingStarted) else None, oldest(resumedAt), transfer, call));
      if state.status == Healthy || state.status == Stalled {
        if pingStarted == 0 {
          pingStarted := t;
        }
      }
    }

    /** The timer.  `oldest` is the core's table of calls in flight, asked with the instant since
        when ages count.  A tick after a long gap re-dates everything first, so it never raises the
        banner by itself. */
    method OnTimer(t: int, visible: bool, oldest: int -> Option<int>, transfer: bool, call: bool)
      requires Valid()
      modifies this
      ensures Valid()
      ensures Snap() == Ticked(old(Snap()), Timer(t, visible, oldest, transfer, call), w)
      ensures !visible ==> log == old(log) && state == old(state) && lastTick == 0
                           && pingStarted == old(pingStarted) && resumedAt == old(resumedAt)
      ensures visible ==>
        var jumped := old(lastTick) != 0 && t - old(lastTick) >= w.timerJump;
        && lastTick == t && resumedAt == (if jumped then t else old(resumedAt))
        && var before := if jumped then Graced(old(state), t, w) else old(state);
           var ping := if jumped && old(pingStarted) != 0 then t else old(pingStarted);
           var tick := TickAt(t, ping, oldest(resumedAt), transfer, call);
           && state == Step(before, tick, w).state
           && log == old(log) + Stamp(t, Step(before, tick, w).actions)
           && pingStarted == Pinged(state.status, ping, t)
      ensures visible && old(lastTick) != 0 && t - old(lastTick) >= w.timerJump && old(state).status == Healthy
              && 0 < w.resumeGrace
              ==> log == old(log) && state == Graced(old(state), t, w)
    {
      if !visible {
        lastTick := 0;
        return;
      }
      assert Stamp(t, []) == [];
      TickedIs(Snap(), Timer(t, visible, oldest, transfer, call), w);
      hide Step, Stamp, Valid, Graced, TickAt, Pinged, Ticked;
      Redate(t);
      if state == Graced(old(state), t, w) && old(state).status == Healthy && 0 < w.resumeGrace {
        GapNeverRaises(old(state), TickAt(t, pingStarted, oldest(resumedAt), transfer, call), w);
      }
      TickNow(t, oldest, transfer, call);
    }

    /** The client gives the ping up; the next tick sends another. */
    method PingTimedOut()
      requires Valid()
      modifies this`pingStarted
      ensures Valid() && Snap() == old(Snap()).(pingStarted := 0) && log == old(log)
    {
      pingStarted := 0;
    }

    method PingAnswered(t: int, oldest: int -> Option<int>)
      requires Valid()
      modifies this`state, this`log, this`outstanding, this`ins, this`pingStarted
      ensures Valid() && pingStarted == 0
      ensures state == Step(old(state), Pong(t, oldest(resumedAt)), w).state
      ensures log == old(log) + Stamp(t, Step(old(state), Pong(t, oldest(resumedAt)), w).actions)
    {
      pingStarted := 0;
      Apply(Pong(t, oldest(resumedAt)));
    }
  }

  /** What the policy is told at a tick. */
  function TickAt(t: int, ping: int, aged: Option<int>, transfer: bool, call: bool): (i: Input)
    ensures i.Tick? && i.now == t
  {
    Tick(t, if ping != 0 then Some(t - ping) else None, aged, transfer, call)
  }

  /** A ping goes out when none is on its way and the core should be alive. */
  function Pinged(status: Status, ping: int, t: int): int {
    if status in {Healthy, Stalled} && ping == 0 then t else ping
  }

  lemma TickedIs(d: Driver, e: Timer, w: Config)
    requires e.visible
    ensures var jumped := d.lastTick != 0 && e.t - d.lastTick >= w.timerJump;
            var resumed := if jumped then e.t else d.resumedAt;
            var before := if jumped then Graced(d.state, e.t, w) else d.state;
            var ping := if jumped && d.pingStarted != 0 then e.t else d.pingStarted;
            var after := Step(before, TickAt(e.t, ping, e.oldest(resumed), e.transfer, e.call), w).state;
            Ticked(d, e, w) == Driver(after, Pinged(after.status, ping, e.t), resumed, e.t)
  {
    hide Step, Graced, TickAt, Pinged;
  }

  function Graced(s: State, t: int, w: Config): State {
    s.(graceUntil := t + w.resumeGrace)
  }

  lemma ResumeIs(s: State, t: int, w: Config)
    ensures Step(s, Resume(t), w) == Outcome(Graced(s, t, w), []) && Stamp(t, []) == []
  {
  }

  /** A tick right after a gap never raises the banner of a healthy core, whatever its age says. */
  lemma GapNeverRaises(s: State, i: Input, w: Config)
    requires i.Tick? && s.status == Healthy && 0 < w.resumeGrace
    ensures Step(Graced(s, i.now, w), i, w) == Outcome(Graced(s, i.now, w), [])
  {
  }

  /** One more input, as the driver keeps its books. */
  lemma Extended(start: State, ins: seq<Input>, i: Input, w: Config, t: Trace, outstanding: nat)
    requires t == Run(start, ins, w) && outstanding == Issued(t.log) - Consumed(start, ins, w)
    ensures var o := Step(t.state, i, w);
            && Run(start, ins + [i], w) == Trace(o.state, t.log + Stamp(i.now, o.actions))
            && Issued(t.log + Stamp(i.now, o.actions)) - Consumed(start, ins + [i], w)
               == outstanding + Issued(Stamp(i.now, o.actions))
                  - if i.Restarted? && t.state.status == Restarting then 1 else 0
  {
    Extend(start, ins, i, w);
    IssuedConcat(t.log, Stamp(i.now, Step(t.state, i, w).actions));
  }

  /** A restart is outstanding only while the policy waits for it, and its outcome ends the wait. */
  lemma OutstandingMeans(start: State, ins: seq<Input>, w: Config, t: Trace, outstanding: nat, i: Input)
    requires start.status == Healthy && t == Run(start, ins, w)
    requires outstanding == Issued(t.log) - Consumed(start, ins, w) && outstanding > 0 && i.Restarted?
    ensures t.state.status == Restarting && outstanding == 1 && Step(t.state, i, w).state.status != Restarting
  {
    ControlRun(start, ins, w);
    ControlStep(t.state, i, w);
    hide Run, Consumed, Issued;
  }

  lemma Extend(s: State, ins: seq<Input>, i: Input, w: Config)
    ensures var t := Run(s, ins, w);
            var o := Step(t.state, i, w);
            && Run(s, ins + [i], w) == Trace(o.state, t.log + Stamp(i.now, o.actions))
            && Consumed(s, ins + [i], w)
               == Consumed(s, ins, w) + if i.Restarted? && t.state.status == Restarting then 1 else 0
  {
    assert (ins + [i])[..|ins|] == ins;
  }
}
