/** The state of the IO scheduler (core/src/scheduler.rs with the Velta patches 18 and 27): start, stop
    and pause work under a write lock, interrupts never wait for it and leave a flag behind instead. */
module Scheduler {
  import opened Options

  datatype Inner = Stopped | Started | Paused(started: bool, count: nat)

  /** What a running scheduler can be told to wake; a recently-seen wake carries its contact and time. */
  datatype Signal = Inbox | Smtp | Ephemeral | Location | RecentlySeen(contact: nat, timestamp: int)

  datatype Wake = WakeInbox | WakeSmtp | NetworkLost | WakeEphemeral | WakeLocation | WakeSeen(contact: nat, timestamp: int)

  datatype Job = Start | Stop | Pause | Resume

  /** `job` holds the write lock, `served` once it did its work; `storing` are the interrupts that found
      the lock taken and have not raised the flag yet; `resumes` the dropped guards whose task waits. */
  datatype State = State(
    inner: Inner, flag: bool, job: Option<Job>, served: bool,
    guards: nat, resumes: nat, storing: set<nat>, signals: seq<Signal>)

  /** `startable` is whether `Scheduler::start` succeeds, `readable` whether `try_read` does: it cannot
      while a job holds the lock, and need not while one queues for it. */
  datatype Step =
    | Begin(job: Job)
    | Serve(startable: bool)
    | End
    | DropGuard
    | Interrupt(id: nat, wake: Wake, readable: bool)
    | Store(id: nat)

  const RESTART_SIGNALS := [Inbox, Smtp, Ephemeral]

  function Signals(wake: Wake): seq<Signal> {
    match wake
    case WakeInbox => [Inbox]
    case WakeSmtp => [Smtp]
    case NetworkLost => [Inbox, Smtp]
    case WakeEphemeral => [Ephemeral]
    case WakeLocation => [Location]
    case WakeSeen(contact, timestamp) => [RecentlySeen(contact, timestamp)]
  }

  /** Each wake reaches the tasks it is meant for, and no others. */
  lemma WakesTheRightTasks(wake: Wake, x: Signal)
    ensures x in Signals(wake) <==>
            match x
            case Inbox => wake == WakeInbox || wake == NetworkLost
            case Smtp => wake == WakeSmtp || wake == NetworkLost
            case Ephemeral => wake == WakeEphemeral
            case Location => wake == WakeLocation
            case RecentlySeen(contact, timestamp) => wake == WakeSeen(contact, timestamp)
  {
    match wake
    case NetworkLost => assert Signals(wake)[0] == Inbox && Signals(wake)[1] == Smtp;
    case _ => assert |Signals(wake)| == 1 && (x in Signals(wake) <==> x == Signals(wake)[0]);
  }

  /** Swap the flag and, if it was up, signal the scheduler that now runs. */
  function Deliver(s: State): State {
    if s.flag then s.(flag := false, signals := s.signals + RESTART_SIGNALS) else s
  }

  /** `do_start`. */
  function DoStart(s: State, startable: bool): State {
    if startable then Deliver(s).(inner := Started) else s
  }

  function ServeStart(s: State, startable: bool): State {
    match s.inner
    case Started => Deliver(s)
    case Stopped => DoStart(s, startable)
    case Paused(_, count) => s.(inner := Paused(true, count))
  }

  function ServeStop(s: State): State {
    match s.inner
    case Paused(_, count) => s.(inner := Paused(false, count))
    case _ => s.(inner := Stopped)
  }

  function ServePause(s: State): State {
    match s.inner
    case Started => s.(inner := Paused(true, 1), guards := s.guards + 1)
    case Stopped => s.(inner := Paused(false, 1), guards := s.guards + 1)
    case Paused(started, count) => s.(inner := Paused(started, count + 1), guards := s.guards + 1)
  }

  function ServeResume(s: State, startable: bool): State
    requires s.resumes > 0
  {
    var s1 := s.(resumes := s.resumes - 1);
    match s.inner
    case Paused(started, count) =>
      if count > 1 then s1.(inner := Paused(started, count - 1))
      else if started then DoStart(s1, startable)
      else s1.(inner := Stopped)
    case _ => s1
  }

  predicate Enabled(s: State, step: Step) {
    match step
    case Begin(job) => s.job.None? && (job == Resume ==> s.resumes > 0)
    case Serve(_) => s.job.Some? && !s.served && (s.job == Some(Resume) ==> s.resumes > 0)
    case End => s.job.Some? && s.served
    case DropGuard => s.guards > 0
    case Interrupt(id, _, readable) => id !in s.storing && (readable ==> s.job.None?)
    case Store(id) => id in s.storing
  }

  function Take(s: State, step: Step): State
    requires Enabled(s, step)
  {
    match step
    case Begin(job) => s.(job := Some(job), served := false)
    case Serve(startable) =>
      var s1 := s.(served := true);
      (match s.job.value
       case Start => ServeStart(s1, startable)
       case Stop => ServeStop(s1)
       case Pause => ServePause(s1)
       case Resume => ServeResume(s1, startable))
    case End => s.(job := None)
    case DropGuard => s.(guards := s.guards - 1, resumes := s.resumes + 1)
    case Interrupt(id, wake, readable) =>
      if !readable then s.(storing := s.storing + {id})
      else if s.inner.Started? then s.(signals := s.signals + Signals(wake))
      else s
    case Store(id) => s.(storing := s.storing - {id}, flag := true)
  }

  function Apply(s: State, step: Step): State {
    if Enabled(s, step) then Take(s, step) else s
  }

  function Run(s: State, steps: seq<Step>): State
    decreases |steps|
  {
    if steps == [] then s else Run(Apply(s, steps[0]), steps[1..])
  }

  function Fresh(): State {
    State(Stopped, false, None, false, 0, 0, {}, [])
  }

  // ---------------------------------------------------------------- no lost wake

  /** The job under way ends with a running scheduler that it has just signalled. */
  predicate Delivers(s: State, step: Step) {
    && step.Serve? && Enabled(s, step) && s.flag
    && match s.job.value
       case Start => s.inner.Started? || (s.inner.Stopped? && step.startable)
       case Resume => s.inner.Paused? && s.inner.started && s.inner.count <= 1 && step.startable
       case _ => false
  }

  /** A raised flag falls exactly when a job leaves a running scheduler signalled for inbox, SMTP and
      the ephemeral task in that same step; a start that fails leaves it up. */
  lemma FlagFalls(s: State, step: Step)
    requires s.flag
    ensures var after := Apply(s, step);
            && (!after.flag <==> Delivers(s, step))
            && (Delivers(s, step) ==> after.inner.Started? && after.signals == s.signals + RESTART_SIGNALS)
  {
  }

  /** At the k-th step, after the first k of them, the flag is delivered. */
  predicate DeliversAt(s: State, steps: seq<Step>, k: nat)
  {
    k < |steps| && Delivers(Run(s, steps[..k]), steps[k])
  }

  lemma Later(s: State, steps: seq<Step>, k: nat)
    requires steps != [] && DeliversAt(Apply(s, steps[0]), steps[1..], k)
    ensures DeliversAt(s, steps, k + 1)
    ensures Run(s, steps[..k + 1]) == Run(Apply(s, steps[0]), steps[1..][..k])
  {
    assert steps[..k + 1][0] == steps[0] && steps[..k + 1][1..] == steps[1..][..k];
  }

  lemma {:induction false} FlagPersists(s: State, steps: seq<Step>, id: nat)
    requires s.flag && id !in s.storing
    requires forall k :: 0 <= k < |steps| ==> !(steps[k].Interrupt? && steps[k].id == id)
    ensures || Run(s, steps).flag
            || exists k: nat :: DeliversAt(s, steps, k) && id !in Run(s, steps[..k]).storing
    decreases |steps|
  {
    if steps != [] {
      var next := Apply(s, steps[0]);
      if next.flag {
        assert forall k :: 0 <= k < |steps[1..]| ==> steps[1..][k] == steps[k + 1];
        FlagPersists(next, steps[1..], id);
        if !Run(next, steps[1..]).flag {
          var k: nat :| DeliversAt(next, steps[1..], k) && id !in Run(next, steps[1..][..k]).storing;
          Later(s, steps, k);
        }
      } else {
        FlagFalls(s, steps[0]);
        assert Run(s, steps[..0]) == s;
        assert DeliversAt(s, steps, 0);
      }
    }
  }

  lemma {:induction false} MissedPersists(s: State, steps: seq<Step>, id: nat)
    requires id in s.storing
    requires forall k :: 0 <= k < |steps| ==> !(steps[k].Interrupt? && steps[k].id == id)
    ensures || id in Run(s, steps).storing
            || Run(s, steps).flag
            || exists k: nat :: DeliversAt(s, steps, k) && id !in Run(s, steps[..k]).storing
    decreases |steps|
  {
    if steps != [] {
      var next := Apply(s, steps[0]);
      var rest := steps[1..];
      assert forall k :: 0 <= k < |rest| ==> rest[k] == steps[k + 1];
      if id in next.storing {
        MissedPersists(next, rest, id);
      } else {
        FlagPersists(next, rest, id);
      }
      if exists k: nat :: DeliversAt(next, rest, k) && id !in Run(next, rest[..k]).storing {
        var k: nat :| DeliversAt(next, rest, k) && id !in Run(next, rest[..k]).storing;
        Later(s, steps, k);
      }
    }
  }

  /** No wake is lost: whatever happens after an interrupt, it was signalled to the running scheduler
      at once, or met a readable lock and a scheduler that does not run, or is about to raise the flag,
      or the flag is up, or a later job delivered the flag it raised. */
  lemma NoLostWake(s: State, id: nat, wake: Wake, readable: bool, steps: seq<Step>)
    requires Enabled(s, Interrupt(id, wake, readable))
    requires forall k :: 0 <= k < |steps| ==> !(steps[k].Interrupt? && steps[k].id == id)
    ensures var next := Apply(s, Interrupt(id, wake, readable));
            var end := Run(next, steps);
            || (readable && s.inner.Started? && next.signals == s.signals + Signals(wake))
            || (readable && !s.inner.Started? && next == s)
            || id in end.storing
            || end.flag
            || exists k: nat :: DeliversAt(next, steps, k) && id !in Run(next, steps[..k]).storing
  {
    if !readable {
      MissedPersists(Apply(s, Interrupt(id, wake, readable)), steps, id);
    }
  }

  /** An interrupt never waits: it can be taken in every state. */
  lemma InterruptsNeverWait(s: State, wake: Wake) returns (id: nat, readable: bool)
    ensures Enabled(s, Interrupt(id, wake, readable)) && (readable <==> s.job.None?)
    ensures Apply(s, Interrupt(id, wake, readable)).job == s.job
    ensures readable || Enabled(Apply(s, Interrupt(id, wake, readable)), Store(id))
  {
    readable := s.job.None?;
    id := NotIn(s.storing);
  }

  lemma {:induction false} NotIn(ids: set<nat>) returns (id: nat)
    ensures forall x :: x in ids ==> x < id
    decreases |ids|
  {
    if ids == {} {
      id := 0;
    } else {
      var x :| x in ids;
      var rest := NotIn(ids - {x});
      id := if x < rest then rest else x + 1;
      assert forall y :: y in ids ==> y == x || y in ids - {x};
    }
  }

  /** Which wakes the delivery makes good: all but location and recently-seen, whose tasks no start
      signals. */
  lemma DeliveryCovers(wake: Wake)
    ensures (forall x :: x in Signals(wake) ==> x in RESTART_SIGNALS) <==> !wake.WakeLocation? && !wake.WakeSeen?
  {
    match wake
    case WakeLocation => assert Location in Signals(wake);
    case WakeSeen(contact, timestamp) => assert RecentlySeen(contact, timestamp) in Signals(wake);
    case _ =>
  }

  /** Such a wake is dropped when it arrives while a start is under way. */
  lemma SomeWakesAreDropped(wake: Wake)
    requires wake.WakeLocation? || wake.WakeSeen?
    ensures var steps := [Begin(Start), Interrupt(0, wake, false), Store(0), Serve(true), End];
            var s := Run(Fresh(), steps);
            s.inner.Started? && !s.flag && s.storing == {} && forall x :: x in Signals(wake) ==> x !in s.signals
  {
    var steps := [Begin(Start), Interrupt(0, wake, false), Store(0), Serve(true), End];
    var s1 := State(Stopped, false, Some(Start), false, 0, 0, {0}, []);
    var s2 := State(Stopped, true, Some(Start), false, 0, 0, {}, []);
    assert steps[1..][1..] == [Store(0), Serve(true), End];
    assert Apply(Apply(Fresh(), Begin(Start)), Interrupt(0, wake, false)) == s1;
    assert Run(Fresh(), steps) == Run(s1, [Store(0), Serve(true), End]);
    assert Apply(s1, Store(0)) == s2;
    assert [Store(0), Serve(true), End][1..] == [Serve(true), End];
    assert Run(s2, [Serve(true), End]) == State(Started, false, None, true, 0, 0, {}, RESTART_SIGNALS);
  }

  /** A wake that arrives after the swap but before the lock is released waits for the next start,
      though the scheduler runs. */
  lemma LateWakeWaits()
    ensures var s := Run(Fresh(), [Begin(Start), Serve(true), Interrupt(0, WakeSmtp, false), Store(0), End]);
            s.inner.Started? && s.flag && s.job.None? && s.signals == []
    ensures var s := Run(Fresh(), [Begin(Start), Serve(true), Interrupt(0, WakeSmtp, false), Store(0), End]);
            Run(s, [Begin(Start), Serve(false)]).signals == RESTART_SIGNALS
  {
  }

  // ---------------------------------------------------------------- pausing

  function Live(s: State): nat {
    s.guards + s.resumes
  }

  /** Paused means that guards are out, and the count is theirs. */
  predicate Balanced(s: State) {
    if s.inner.Paused? then s.inner.count == Live(s) > 0 else Live(s) == 0
  }

  /** The last guard goes while the scheduler is wanted, and it does not come up. */
  predicate FailedResume(s: State, step: Step) {
    && step.Serve? && Enabled(s, step) && s.job == Some(Resume) && !step.startable
    && s.inner.Paused? && s.inner.started && s.inner.count == 1
  }

  /** The count stays right exactly until such a resume. */
  lemma BalanceKeptExactlyWhen(s: State, step: Step)
    requires Balanced(s)
    ensures Balanced(Apply(s, step)) <==> !FailedResume(s, step)
  {
  }

  predicate NoFailedResume(s: State, steps: seq<Step>)
    decreases |steps|
  {
    steps != [] ==> !FailedResume(s, steps[0]) && NoFailedResume(Apply(s, steps[0]), steps[1..])
  }

  lemma {:induction false} RunKeepsBalance(s: State, steps: seq<Step>)
    requires Balanced(s) && NoFailedResume(s, steps)
    ensures Balanced(Run(s, steps))
    decreases |steps|
  {
    if steps != [] {
      BalanceKeptExactlyWhen(s, steps[0]);
      RunKeepsBalance(Apply(s, steps[0]), steps[1..]);
    }
  }

  /** Paused with a count above the guards that are out. */
  predicate Wedged(s: State) {
    s.inner.Paused? && s.inner.count > Live(s)
  }

  /** After a failed resume the scheduler never runs again, whatever is called: it stays paused by a
      guard that no longer exists. */
  lemma {:induction false} WedgedForever(s: State, steps: seq<Step>)
    requires Wedged(s)
    ensures Wedged(Run(s, steps))
    decreases |steps|
  {
    if steps != [] {
      WedgedForever(Apply(s, steps[0]), steps[1..]);
    }
  }

  lemma FailedResumeWedges(s: State, step: Step, steps: seq<Step>)
    requires Balanced(s) && FailedResume(s, step)
    ensures Run(Apply(s, step), steps).inner.Paused?
  {
    WedgedForever(Apply(s, step), steps);
  }

  lemma {:induction false} RunConcat(s: State, a: seq<Step>, b: seq<Step>)
    ensures Run(s, a + b) == Run(Run(s, a), b)
    decreases |a|
  {
    if a == [] {
      assert a + b == b;
    } else {
      assert (a + b)[1..] == a[1..] + b;
      RunConcat(Apply(s, a[0]), a[1..], b);
    }
  }

  /** One job from taking the lock to releasing it. */
  lemma JobRuns(s: State, job: Job, startable: bool)
    ensures Run(s, [Begin(job), Serve(startable), End]) == Apply(Apply(Apply(s, Begin(job)), Serve(startable)), End)
  {
    assert [Begin(job), Serve(startable), End][1..] == [Serve(startable), End] && [Serve(startable), End][1..] == [End];
    assert Run(Apply(Apply(s, Begin(job)), Serve(startable)), [End])
           == Run(Apply(Apply(Apply(s, Begin(job)), Serve(startable)), End), []);
  }

  const RUNNING := State(Started, false, None, true, 0, 0, {}, [])
  const PAUSED := State(Paused(true, 1), false, None, true, 1, 0, {}, [])
  const RESUMING := State(Paused(true, 1), false, Some(Resume), false, 0, 1, {}, [])

  lemma Starts()
    ensures Run(Fresh(), [Begin(Start), Serve(true), End]) == RUNNING
  {
    JobRuns(Fresh(), Start, true);
    hide Run;
  }

  lemma Pauses()
    ensures Run(RUNNING, [Begin(Pause), Serve(true), End]) == PAUSED
  {
    JobRuns(RUNNING, Pause, true);
    hide Run;
  }

  lemma GuardGoes()
    ensures Run(PAUSED, [DropGuard, Begin(Resume)]) == RESUMING
  {
    assert [DropGuard, Begin(Resume)][1..] == [Begin(Resume)] && [Begin(Resume)][1..] == [];
    assert Run(Apply(PAUSED, DropGuard), [Begin(Resume)]) == Run(Apply(Apply(PAUSED, DropGuard), Begin(Resume)), []);
  }

  lemma ResumeFails()
    ensures Balanced(RESUMING) && FailedResume(RESUMING, Serve(false)) && Wedged(Apply(RESUMING, Serve(false)))
  {
  }

  /** A run that gets there: started, paused, and the start of the resume fails. */
  lemma FailedResumeHappens() returns (steps: seq<Step>)
    ensures var s := Run(Fresh(), steps);
            Balanced(s) && FailedResume(s, Serve(false)) && Wedged(Apply(s, Serve(false)))
  {
    hide Run, Apply, Balanced, FailedResume, Wedged;
    var a, b := [Begin(Start), Serve(true), End], [Begin(Pause), Serve(true), End];
    var c := [DropGuard, Begin(Resume)];
    Starts();
    Pauses();
    GuardGoes();
    ResumeFails();
    RunConcat(RUNNING, b, c);
    RunConcat(Fresh(), a, b + c);
    steps := a + (b + c);
  }

  // ---------------------------------------------------------------- the last call wins

  function Wanted(s: State): bool {
    match s.inner
    case Started => true
    case Stopped => false
    case Paused(started, _) => started
  }

  /** What start and stop asked for last; a start that failed at once does not count. */
  function LastAsked(s: State, steps: seq<Step>, asked: bool): bool
    decreases |steps|
  {
    if steps == [] then asked
    else
      var step := steps[0];
      var now :=
        if !step.Serve? || !Enabled(s, step) then asked
        else if s.job == Some(Start) then !s.inner.Stopped? || step.startable
        else s.job != Some(Stop) && asked;
      LastAsked(Apply(s, step), steps[1..], now)
  }

  lemma {:induction false} WantedIsLastAsked(s: State, steps: seq<Step>)
    ensures Wanted(Run(s, steps)) == LastAsked(s, steps, Wanted(s))
    decreases |steps|
  {
    if steps != [] {
      WantedIsLastAsked(Apply(s, steps[0]), steps[1..]);
    }
  }

  /** Once every guard is gone the scheduler runs exactly if start was asked for last. */
  lemma LastCallWins(steps: seq<Step>)
    requires NoFailedResume(Fresh(), steps)
    ensures var s := Run(Fresh(), steps);
            Live(s) == 0 ==> s.inner == if LastAsked(Fresh(), steps, false) then Started else Stopped
  {
    StartsOut();
    hide *;
    RunKeepsBalance(Fresh(), steps);
    WantedIsLastAsked(Fresh(), steps);
    if Live(Run(Fresh(), steps)) == 0 {
      NoGuardsMeans(Run(Fresh(), steps));
    }
  }

  lemma StartsOut()
    ensures Balanced(Fresh()) && !Wanted(Fresh())
  {
  }

  lemma NoGuardsMeans(s: State)
    requires Balanced(s) && Live(s) == 0
    ensures s.inner == if Wanted(s) then Started else Stopped
  {
  }

  // ---------------------------------------------------------------- the object

  /** `SchedulerState`: each method is what its caller does while it holds the lock. */
  class SchedulerState {
    var inner: Inner
    var wakePending: bool
    var guards: nat
    var resumes: nat
    ghost var job: Option<Job>
    ghost var served: bool
    ghost var storing: set<nat>
    var signals: seq<Signal>

    ghost function Snap(): State
      reads this
    {
      State(inner, wakePending, job, served, guards, resumes, storing, signals)
    }

    constructor ()
      ensures Snap() == Fresh()
    {
      inner, wakePending, guards, resumes, signals := Stopped, false, 0, 0, [];
      job, served, storing := None, false, {};
    }

    method DeliverPending()
      modifies this`wakePending, this`signals
      ensures Snap() == Deliver(old(Snap()))
    {
      var pending := wakePending;
      wakePending := false;
      if pending {
        signals := signals + [Inbox];
        signals := signals + [Smtp];
        signals := signals + [Ephemeral];
      }
    }

    method StartScheduler(startable: bool)
      modifies this`inner, this`wakePending, this`signals
      ensures Snap() == DoStart(old(Snap()), startable)
    {
      if startable {
        DeliverPending();
        inner := Started;
      }
    }

    method StartIo(startable: bool)
      modifies this`inner, this`wakePending, this`signals
      ensures Snap() == ServeStart(old(Snap()), startable)
    {
      match inner {
        case Started => DeliverPending();
        case Stopped => StartScheduler(startable);
        case Paused(_, count) => inner := Paused(true, count);
      }
    }

    method StopIo()
      modifies this`inner
      ensures Snap() == ServeStop(old(Snap()))
    {
      match inner {
        case Started => inner := Stopped;
        case Stopped =>
        case Paused(_, count) => inner := Paused(false, count);
      }
    }

    method PauseIo()
      modifies this`inner, this`guards
      ensures Snap() == ServePause(old(Snap()))
    {
      match inner {
        case Started => inner := Paused(true, 1);
        case Stopped => inner := Paused(false, 1);
        case Paused(started, count) => inner := Paused(started, count + 1);
      }
      guards := guards + 1;
    }

    /** What a dropped guard leaves behind. */
    method ResumeIo(startable: bool)
      requires resumes > 0
      modifies this`inner, this`resumes, this`wakePending, this`signals
      ensures Snap() == ServeResume(old(Snap()), startable)
    {
      resumes := resumes - 1;
      if inner.Paused? {
        if inner.count <= 1 {
          if inner.started {
            StartScheduler(startable);
          } else {
            inner := Stopped;
          }
        } else {
          inner := Paused(inner.started, inner.count - 1);
        }
      }
    }

    /** An interrupt up to where it gives up on the lock; the caller then raises the flag. */
    method InterruptWith(id: nat, wake: Wake, readable: bool) returns (skipped: bool)
      requires Enabled(Snap(), Interrupt(id, wake, readable))
      modifies this`signals, this`storing
      ensures Snap() == Apply(old(Snap()), Interrupt(id, wake, readable)) && skipped == !readable
    {
      if !readable {
        storing := storing + {id};
        return true;
      }
      if inner == Started {
        match wake {
          case WakeInbox => signals := signals + [Inbox];
          case WakeSmtp => signals := signals + [Smtp];
          case NetworkLost => signals := signals + [Inbox, Smtp];
          case WakeEphemeral => signals := signals + [Ephemeral];
          case WakeLocation => signals := signals + [Location];
          case WakeSeen(contact, timestamp) => signals := signals + [RecentlySeen(contact, timestamp)];
        }
      }
      return false;
    }

    method RaiseFlag(ghost id: nat)
      requires id in storing
      modifies this`wakePending, this`storing
      ensures Snap() == Apply(old(Snap()), Store(id))
    {
      wakePending := true;
      storing := storing - {id};
    }
  }
}
