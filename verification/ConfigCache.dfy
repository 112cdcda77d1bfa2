/** The generation-checked cache of the `config` table (core/src/sql.rs with the Velta patches 22 and
    26).  Any number of tasks read, write-then-uncache and set keys at the same time; a step is one
    access to the database, the cache, the generation counter or a lock, and steps interleave freely. */
module ConfigCache {
  import opened Options

  type Key = string
  type Row = Option<string>

  /** Where a task stands: a cache-miss read, a row writer that then uncaches, or a setter. */
  datatype Phase =
    | Missed | Loaded | Fetched | Filling | Checked
    | Wrote | Uncaching | Bumped
    | SetLocked | SetBumped | Committed | Sampled | SetFilling | SetChecked

  /** `gen` is the generation it loaded, `row` the value it read or is about to store. */
  datatype Task = Task(phase: Phase, key: Key, gen: nat, row: Row)

  datatype State = State(
    db: map<Key, string>, cache: map<Key, Row>, gen: nat,
    lock: Option<nat>, mutex: Option<nat>, tasks: map<nat, Task>)

  datatype Step =
    | Miss(t: nat, key: Key)
    | Load(t: nat)
    | Query(t: nat)
    | Acquire(t: nat)
    | Check(t: nat)
    | Fill(t: nat)
    | Drop(t: nat)
    | WriteRow(t: nat, key: Key, row: Row)
    | Bump(t: nat)
    | Remove(t: nat)
    | StartSet(t: nat, key: Key, row: Row)
    | BumpSet(t: nat)
    | Commit(t: nat)
    | FailSet(t: nat)
    | Sample(t: nat)

  function RowOf(db: map<Key, string>, k: Key): Row {
    if k in db then Some(db[k]) else None
  }

  function WithRow(db: map<Key, string>, k: Key, row: Row): map<Key, string> {
    if row.Some? then db[k := row.value] else db - {k}
  }

  /** A written row is read back, and no other row changes. */
  lemma RowAfterWrite(db: map<Key, string>, k: Key, row: Row, j: Key)
    ensures RowOf(WithRow(db, k, row), k) == row
    ensures j != k ==> RowOf(WithRow(db, k, row), j) == RowOf(db, j)
  {
  }

  /** What a step does to the row and to the entry of a key, exactly: a write or a commit sets the row, a
      store the entry, a removal clears it, and no other step touches either. */
  lemma RowAndEntryAfter(s: State, step: Step, k: Key)
    requires Enabled(s, step)
    ensures var s1 := Take(s, step);
            var mine := t => t in s.tasks && s.tasks[t].key == k;
            && RowOf(s1.db, k) == (if step.WriteRow? && step.key == k then step.row
                                   else if step.Commit? && mine(step.t) then s.tasks[step.t].row
                                   else RowOf(s.db, k))
            && (k in s1.cache <==> (step.Fill? && mine(step.t)) || (k in s.cache && !(step.Remove? && mine(step.t))))
            && (k in s1.cache ==> s1.cache[k] == if step.Fill? && mine(step.t) then s.tasks[step.t].row else s.cache[k])
            && s1.gen == s.gen + if step.Bump? || step.BumpSet? then 1 else 0
  {
    if step.WriteRow? {
      RowAfterWrite(s.db, step.key, step.row, k);
    } else if step.Commit? {
      RowAfterWrite(s.db, s.tasks[step.t].key, s.tasks[step.t].row, k);
    }
    hide RowOf, WithRow, At;
  }

  predicate At(s: State, t: nat, phase: Phase) {
    t in s.tasks && s.tasks[t].phase == phase
  }

  predicate Reading(phase: Phase) {
    phase in {Loaded, Fetched, Filling}
  }

  predicate Locking(phase: Phase) {
    phase in {Filling, Checked, Uncaching, Bumped, SetFilling, SetChecked}
  }

  predicate SettingPhase(phase: Phase) {
    phase in {SetLocked, SetBumped, Committed, Sampled, SetFilling, SetChecked}
  }

  function Move(s: State, t: nat, phase: Phase): State
    requires t in s.tasks
  {
    s.(tasks := s.tasks[t := s.tasks[t].(phase := phase)])
  }

  function Gone(s: State, t: nat): State {
    s.(tasks := s.tasks - {t})
  }

  /** Whether this step can be taken now; whoever wants to take it waits as long as it may not. */
  predicate Enabled(s: State, step: Step) {
    match step
    case Miss(t, k) => t !in s.tasks && s.lock.None? && k !in s.cache
    case Load(t) => At(s, t, Missed)
    case Query(t) => At(s, t, Loaded)
    case Acquire(t) => s.lock.None? && (At(s, t, Fetched) || At(s, t, Wrote) || At(s, t, Sampled))
    case Check(t) => At(s, t, Filling) || At(s, t, SetFilling)
    case Fill(t) => At(s, t, Checked) || At(s, t, SetChecked)
    case Drop(t) => At(s, t, Missed) || At(s, t, Loaded) || At(s, t, Fetched)
    case WriteRow(t, _, _) => t !in s.tasks
    case Bump(t) => At(s, t, Uncaching)
    case Remove(t) => At(s, t, Bumped)
    case StartSet(t, _, _) => t !in s.tasks && s.mutex.None?
    case BumpSet(t) => At(s, t, SetLocked)
    case Commit(t) => At(s, t, SetBumped)
    case FailSet(t) => At(s, t, SetBumped)
    case Sample(t) => At(s, t, Committed)
  }

  function Take(s: State, step: Step): State
    requires Enabled(s, step)
  {
    match step
    case Miss(t, k) => s.(tasks := s.tasks[t := Task(Missed, k, 0, None)])
    case Load(t) => s.(tasks := s.tasks[t := s.tasks[t].(phase := Loaded, gen := s.gen)])
    case Query(t) => s.(tasks := s.tasks[t := s.tasks[t].(phase := Fetched, row := RowOf(s.db, s.tasks[t].key))])
    case Acquire(t) =>
      var next := if At(s, t, Fetched) then Filling else if At(s, t, Wrote) then Uncaching else SetFilling;
      Move(s, t, next).(lock := Some(t))
    case Check(t) =>
      if s.tasks[t].gen == s.gen then Move(s, t, if At(s, t, Filling) then Checked else SetChecked)
      else Gone(s, t).(lock := None, mutex := if At(s, t, SetFilling) then None else s.mutex)
    case Fill(t) =>
      Gone(s, t).(
        cache := s.cache[s.tasks[t].key := s.tasks[t].row], lock := None,
        mutex := if At(s, t, SetChecked) then None else s.mutex)
    case Drop(t) => Gone(s, t)
    case WriteRow(t, k, row) => s.(db := WithRow(s.db, k, row), tasks := s.tasks[t := Task(Wrote, k, 0, None)])
    case Bump(t) => Move(s, t, Bumped).(gen := s.gen + 1)
    case Remove(t) => Gone(s, t).(cache := s.cache - {s.tasks[t].key}, lock := None)
    case StartSet(t, k, row) => s.(mutex := Some(t), tasks := s.tasks[t := Task(SetLocked, k, 0, row)])
    case BumpSet(t) => Move(s, t, SetBumped).(gen := s.gen + 1)
    case Commit(t) => Move(s, t, Committed).(db := WithRow(s.db, s.tasks[t].key, s.tasks[t].row))
    case FailSet(t) => Gone(s, t).(mutex := None)
    case Sample(t) => s.(tasks := s.tasks[t := s.tasks[t].(phase := Sampled, gen := s.gen)])
  }

  function Apply(s: State, step: Step): State {
    if Enabled(s, step) then Take(s, step) else s
  }

  function Run(s: State, steps: seq<Step>): State
    decreases |steps|
  {
    if steps == [] then s else Run(Apply(s, steps[0]), steps[1..])
  }

  function Fresh(db: map<Key, string>): State {
    State(db, map[], 0, None, None, map[])
  }

  // ---------------------------------------------------------------- the three windows

  /** A reader loads the generation after a setter of its key bumped it, before that one's commit. */
  predicate ReadsTooEarly(s: State, step: Step) {
    step.Load? && Enabled(s, step) &&
    exists u :: u in s.tasks && s.tasks[u].phase == SetBumped && s.tasks[u].key == s.tasks[step.t].key
  }

  /** Another key is uncached between a setter's sample and its check, so the setter skips its store. */
  predicate SkipsForeign(s: State, step: Step) {
    step.Bump? && Enabled(s, step) &&
    exists u :: u in s.tasks && s.tasks[u].phase == Sampled && s.tasks[u].key != s.tasks[step.t].key
  }

  /** The row is uncached between a setter's commit and its sample, which then misses the bump. */
  predicate SamplesTooLate(s: State, step: Step) {
    step.Bump? && Enabled(s, step) &&
    exists u :: u in s.tasks && s.tasks[u].phase == Committed && s.tasks[u].key == s.tasks[step.t].key
  }

  predicate OutsideWindows(s: State, step: Step) {
    !ReadsTooEarly(s, step) && !SkipsForeign(s, step) && !SamplesTooLate(s, step)
  }

  predicate AllOutside(s: State, steps: seq<Step>)
    decreases |steps|
  {
    steps != [] ==> OutsideWindows(s, steps[0]) && AllOutside(Apply(s, steps[0]), steps[1..])
  }

  // ---------------------------------------------------------------- the invariant

  /** Somebody changed the row of k and has not removed the entry yet. */
  predicate Pending(s: State, k: Key) {
    exists u :: u in s.tasks && s.tasks[u].key == k && s.tasks[u].phase in {Wrote, Uncaching, Bumped}
  }

  /** ... and has not bumped the generation yet either. */
  predicate Unbumped(s: State, k: Key) {
    exists u :: u in s.tasks && s.tasks[u].key == k && s.tasks[u].phase in {Wrote, Uncaching}
  }

  /** Task u is a setter of k that has committed and will still store its value. */
  predicate Stores(s: State, u: nat, k: Key) {
    u in s.tasks && s.tasks[u].key == k &&
    (s.tasks[u].phase in {Committed, SetChecked} || (s.tasks[u].phase in {Sampled, SetFilling} && s.tasks[u].gen == s.gen))
  }

  predicate WillStore(s: State, k: Key) {
    exists u :: u in s.tasks && Stores(s, u, k)
  }

  /** A task that will store its row unless the generation moves holds the database's row. */
  predicate TaskIsGood(s: State, t: nat)
    requires t in s.tasks
  {
    var k := s.tasks[t];
    var current := k.row == RowOf(s.db, k.key) || Unbumped(s, k.key);
    && (k.phase in {Fetched, Filling} && k.gen == s.gen ==> current)
    && (k.phase == Checked ==> current || WillStore(s, k.key))
    && (k.phase in {Committed, SetChecked} ==> current)
    && (k.phase in {Sampled, SetFilling} && k.gen == s.gen ==> current)
  }

  predicate TasksGood(s: State) {
    forall t :: t in s.tasks ==> TaskIsGood(s, t)
  }

  predicate EntryIsGood(s: State, k: Key)
    requires k in s.cache
  {
    s.cache[k] == RowOf(s.db, k) || Pending(s, k) || WillStore(s, k)
  }

  predicate CacheGood(s: State) {
    forall k :: k in s.cache ==> EntryIsGood(s, k)
  }

  /** No read of a key a setter is about to write can still fill. */
  predicate EarlyReadsGood(s: State) {
    forall t, u :: (t in s.tasks && u in s.tasks && s.tasks[u].phase == SetBumped && Reading(s.tasks[t].phase)
                    && s.tasks[t].key == s.tasks[u].key) ==> s.tasks[t].gen < s.gen
  }

  predicate HoldsLocks(s: State, t: nat)
    requires t in s.tasks
  {
    && (Locking(s.tasks[t].phase) ==> s.lock == Some(t))
    && (SettingPhase(s.tasks[t].phase) ==> s.mutex == Some(t))
    && s.tasks[t].gen <= s.gen
  }

  predicate LocksGood(s: State) {
    forall t :: t in s.tasks ==> HoldsLocks(s, t)
  }

  predicate Inv(s: State) {
    LocksGood(s) && EarlyReadsGood(s) && TasksGood(s) && CacheGood(s)
  }

  predicate Quiescent(s: State) {
    forall t :: t in s.tasks ==> s.tasks[t].phase in {Missed, Loaded, Fetched, Filling, Checked}
  }

  predicate Coherent(s: State) {
    forall k :: k in s.cache ==> s.cache[k] == RowOf(s.db, k)
  }

  lemma LocksKept(s: State, step: Step)
    requires LocksGood(s)
    ensures LocksGood(Apply(s, step))
  {
    if Enabled(s, step) {
      forall t | t in Take(s, step).tasks ensures HoldsLocks(Take(s, step), t) {
        LockKept(s, step, t);
      }
    }
    hide Take, Enabled, HoldsLocks;
  }

  /** Whoever else holds a lock keeps it. */
  lemma OtherLock(s: State, step: Step, t: nat)
    requires Enabled(s, step) && t != step.t && t in s.tasks && HoldsLocks(s, t)
    requires step.t in s.tasks ==> HoldsLocks(s, step.t)
    ensures var after := Take(s, step);
            && t in after.tasks && after.tasks[t] == s.tasks[t] && after.gen >= s.gen
            && (after.lock == s.lock || s.lock != Some(t)) && (after.mutex == s.mutex || s.mutex != Some(t))
  {
    hide RowOf, WithRow;
  }

  lemma LockKept(s: State, step: Step, t: nat)
    requires LocksGood(s) && Enabled(s, step) && t in Take(s, step).tasks
    ensures HoldsLocks(Take(s, step), t)
  {
    hide RowOf, WithRow;
    assert t in s.tasks ==> HoldsLocks(s, t);
    assert step.t in s.tasks ==> HoldsLocks(s, step.t);
    hide LocksGood;
    if t != step.t {
      OtherLock(s, step, t);
    }
  }

  lemma EarlyReadsKept(s: State, step: Step)
    requires LocksGood(s) && EarlyReadsGood(s) && !ReadsTooEarly(s, step)
    ensures EarlyReadsGood(Apply(s, step))
  {
    hide RowOf, WithRow;
  }

  lemma UnbumpedLasts(s: State, step: Step, k: Key)
    requires Enabled(s, step) && Unbumped(s, k)
    ensures Unbumped(Take(s, step), k) || (step.Bump? && s.tasks[step.t].key == k)
  {
    var u :| u in s.tasks && s.tasks[u].key == k && s.tasks[u].phase in {Wrote, Uncaching};
    var after := Take(s, step);
    assert step.Bump? || (u in after.tasks && after.tasks[u].key == k && after.tasks[u].phase in {Wrote, Uncaching});
    if step.Bump? && s.tasks[step.t].key != k {
      assert after.tasks[u] == s.tasks[u];
    }
  }

  lemma PendingLasts(s: State, step: Step, k: Key)
    requires Enabled(s, step) && Pending(s, k)
    ensures Pending(Take(s, step), k) || (step.Remove? && s.tasks[step.t].key == k)
  {
    var u :| u in s.tasks && s.tasks[u].key == k && s.tasks[u].phase in {Wrote, Uncaching, Bumped};
    var after := Take(s, step);
    assert (step.Remove? && u == step.t)
           || (u in after.tasks && after.tasks[u].key == k && after.tasks[u].phase in {Wrote, Uncaching, Bumped});
  }

  lemma StoresLasts(s: State, step: Step, u: nat, k: Key)
    requires LocksGood(s) && Enabled(s, step) && !SkipsForeign(s, step) && u in s.tasks && Stores(s, u, k)
    ensures || Stores(Take(s, step), u, k)
            || (step.Bump? && s.tasks[step.t].key == k)
            || (step.Fill? && u == step.t)
  {
    assert SettingPhase(s.tasks[u].phase) && s.mutex == Some(u);
    if step.Bump? && u != step.t {
      assert s.tasks[u].phase == Sampled ==> s.tasks[u].key == s.tasks[step.t].key;
    }
  }

  lemma WillStoreLasts(s: State, step: Step, k: Key)
    requires LocksGood(s) && Enabled(s, step) && !SkipsForeign(s, step) && WillStore(s, k)
    ensures || WillStore(Take(s, step), k)
            || (step.Bump? && s.tasks[step.t].key == k)
            || (step.Fill? && Stores(s, step.t, k))
  {
    var u :| u in s.tasks && Stores(s, u, k);
    StoresLasts(s, step, u, k);
    hide Take;
  }

  /** A task stays good while its row, the generation and those it relies on stay. */
  lemma StaysGood(s: State, after: State, t: nat)
    requires t in s.tasks && t in after.tasks && after.tasks[t] == s.tasks[t] && TaskIsGood(s, t)
    requires var k := s.tasks[t].key;
             && after.gen == s.gen
             && (RowOf(after.db, k) == RowOf(s.db, k) || Unbumped(after, k))
             && (Unbumped(s, k) ==> Unbumped(after, k))
             && (s.tasks[t].phase == Checked && WillStore(s, k) ==> WillStore(after, k))
    ensures TaskIsGood(after, t)
  {
    hide WillStore, Unbumped;
  }

  lemma OthersUnderBump(s: State, step: Step, t: nat)
    requires Inv(s) && Enabled(s, step) && OutsideWindows(s, step)
    requires step.Bump? && t != step.t && t in s.tasks
    ensures TaskIsGood(Take(s, step), t)
  {
    var k := s.tasks[t].key;
    assert TaskIsGood(s, t);
    assert s.lock == Some(step.t) && !Locking(s.tasks[t].phase) && s.tasks[t].gen <= s.gen;
    if Unbumped(s, k) { UnbumpedLasts(s, step, k); }
    assert s.tasks[t].phase == Committed ==> k != s.tasks[step.t].key;
    hide WillStore, Unbumped;
  }

  lemma OthersUnderSet(s: State, step: Step, t: nat)
    requires Inv(s) && Enabled(s, step) && OutsideWindows(s, step)
    requires (step.BumpSet? || step.Commit?) && t != step.t && t in s.tasks
    ensures TaskIsGood(Take(s, step), t)
  {
    var k := s.tasks[t].key;
    var after := Take(s, step);
    assert TaskIsGood(s, t);
    assert s.mutex == Some(step.t) && !SettingPhase(s.tasks[t].phase) && s.tasks[t].gen <= s.gen;
    if Unbumped(s, k) { UnbumpedLasts(s, step, k); }
    if WillStore(s, k) { WillStoreLasts(s, step, k); }
    if step.Commit? && k == s.tasks[step.t].key {
      assert Stores(after, step.t, k);
      assert Reading(s.tasks[t].phase) ==> s.tasks[t].gen < s.gen;
    }
    hide WillStore, Unbumped;
  }

  /** What a step leaves alone. */
  lemma Frame(s: State, step: Step, t: nat)
    requires Enabled(s, step) && t in s.tasks && t != step.t
    ensures var after := Take(s, step);
            && t in after.tasks && after.tasks[t] == s.tasks[t]
            && (step.Bump? || step.BumpSet? || after.gen == s.gen)
            && (step.Commit? || RowOf(after.db, s.tasks[t].key) == RowOf(s.db, s.tasks[t].key)
                || (step.WriteRow? && step.key == s.tasks[t].key && Unbumped(after, step.key)))
  {
    if step.WriteRow? {
      var after := Take(s, step);
      assert after.tasks[step.t].key == step.key && after.tasks[step.t].phase == Wrote;
    }
  }

  /** The step of another task leaves a task good. */
  lemma OthersStayGood(s: State, step: Step, t: nat)
    requires Inv(s) && Enabled(s, step) && OutsideWindows(s, step)
    requires t != step.t && t in s.tasks
    ensures t in Take(s, step).tasks && TaskIsGood(Take(s, step), t)
  {
    var k := s.tasks[t].key;
    Frame(s, step, t);
    assert TaskIsGood(s, t);
    if step.Bump? {
      OthersUnderBump(s, step, t);
    } else if step.BumpSet? || step.Commit? {
      OthersUnderSet(s, step, t);
    } else {
      assert step.Fill? ==> s.tasks[t].phase != Checked;
      if Unbumped(s, k) { UnbumpedLasts(s, step, k); }
      if WillStore(s, k) { WillStoreLasts(s, step, k); }
      hide Take, Enabled, OutsideWindows, WillStore, Unbumped, Stores, LocksGood, EarlyReadsGood, CacheGood;
      StaysGood(s, Take(s, step), t);
    }
  }

  /** ... and so does its own step. */
  lemma OwnStepIsGood(s: State, step: Step)
    requires Inv(s) && Enabled(s, step) && OutsideWindows(s, step) && step.t in Take(s, step).tasks
    ensures TaskIsGood(Take(s, step), step.t)
  {
    var t := step.t;
    var after := Take(s, step);
    if step.Acquire? || step.Check? || step.Sample? {
      OwnRowStays(s, step);
    } else if step.Commit? || step.Query? {
      assert after.tasks[t].row == RowOf(after.db, after.tasks[t].key);
      hide Take, Enabled, WillStore, Unbumped, OutsideWindows, LocksGood, EarlyReadsGood, CacheGood, TasksGood;
    } else {
      hide WillStore, Unbumped, OutsideWindows, LocksGood, EarlyReadsGood, CacheGood, TasksGood;
    }
  }

  lemma OwnRowStays(s: State, step: Step)
    requires Inv(s) && Enabled(s, step) && OutsideWindows(s, step) && step.t in Take(s, step).tasks
    requires step.Acquire? || step.Check? || step.Sample?
    ensures TaskIsGood(Take(s, step), step.t)
  {
    var k := s.tasks[step.t].key;
    assert TaskIsGood(s, step.t);
    if Unbumped(s, k) { UnbumpedLasts(s, step, k); }
    if step.Check? && WillStore(s, k) { WillStoreLasts(s, step, k); }
    hide WillStore, Unbumped, OutsideWindows, LocksGood, EarlyReadsGood, CacheGood, TasksGood;
  }

  lemma TasksStayGood(s: State, step: Step)
    requires Inv(s) && OutsideWindows(s, step)
    ensures TasksGood(Apply(s, step))
  {
    if Enabled(s, step) {
      var after := Take(s, step);
      forall t | t in after.tasks ensures TaskIsGood(after, t) {
        if t == step.t {
          OwnStepIsGood(s, step);
        } else {
          OthersStayGood(s, step, t);
        }
      }
    }
  }

  /** No step makes a good entry bad, and a fill stores a good one. */
  lemma EntriesStayGood(s: State, step: Step, k: Key)
    requires Inv(s) && Enabled(s, step) && OutsideWindows(s, step) && k in Take(s, step).cache
    ensures EntryIsGood(Take(s, step), k)
  {
    if step.Fill? && s.tasks[step.t].key == k {
      FilledIsGood(s, step);
    } else {
      OldStaysGood(s, step, k);
    }
  }

  lemma FilledIsGood(s: State, step: Step)
    requires Inv(s) && Enabled(s, step) && OutsideWindows(s, step) && step.Fill?
    ensures EntryIsGood(Take(s, step), s.tasks[step.t].key)
  {
    var k := s.tasks[step.t].key;
    var after := Take(s, step);
    assert TaskIsGood(s, step.t);
    if Unbumped(s, k) { UnbumpedLasts(s, step, k); }
    if WillStore(s, k) { WillStoreLasts(s, step, k); }
    assert s.tasks[step.t].phase == Checked ==> !Stores(s, step.t, k);
    assert Unbumped(after, k) ==> Pending(after, k);
    hide WillStore, Unbumped, Pending, OutsideWindows, LocksGood, EarlyReadsGood, CacheGood, TasksGood;
  }

  lemma OldStaysGood(s: State, step: Step, k: Key)
    requires Inv(s) && Enabled(s, step) && OutsideWindows(s, step) && k in Take(s, step).cache
    requires !(step.Fill? && s.tasks[step.t].key == k)
    ensures EntryIsGood(Take(s, step), k)
  {
    var after := Take(s, step);
    assert EntryIsGood(s, k);
    if Pending(s, k) { PendingLasts(s, step, k); }
    if WillStore(s, k) { WillStoreLasts(s, step, k); }
    if step.Commit? && s.tasks[step.t].key == k {
      assert Stores(after, step.t, k);
    }
    if step.WriteRow? && step.key == k {
      assert after.tasks[step.t].key == k && after.tasks[step.t].phase == Wrote;
    }
    if step.Bump? && s.tasks[step.t].key == k {
      assert after.tasks[step.t].key == k && after.tasks[step.t].phase == Bumped;
    }
    hide Unbumped, OutsideWindows, LocksGood, EarlyReadsGood, CacheGood, TasksGood;
  }

  lemma StepKeepsInv(s: State, step: Step)
    requires Inv(s) && OutsideWindows(s, step)
    ensures Inv(Apply(s, step))
  {
    LocksKept(s, step);
    EarlyReadsKept(s, step);
    TasksStayGood(s, step);
    if Enabled(s, step) {
      forall k | k in Take(s, step).cache ensures EntryIsGood(Take(s, step), k) {
        EntriesStayGood(s, step, k);
      }
    }
    hide Take, Enabled, OutsideWindows, LocksGood, EarlyReadsGood, TasksGood, EntryIsGood;
  }

  lemma {:induction false} RunKeepsInv(s: State, steps: seq<Step>)
    requires Inv(s) && AllOutside(s, steps)
    ensures Inv(Run(s, steps))
    decreases |steps|
  {
    if steps != [] {
      StepKeepsInv(s, steps[0]);
      RunKeepsInv(Apply(s, steps[0]), steps[1..]);
    }
  }

  /** The cache agrees with the database whenever no write is under way, after every run, in every
      interleaving of readers, uncaching writers and setters that stays outside the three windows. */
  lemma CacheAgrees(db: map<Key, string>, steps: seq<Step>)
    requires AllOutside(Fresh(db), steps) && Quiescent(Run(Fresh(db), steps))
    ensures Coherent(Run(Fresh(db), steps))
  {
    var s := Run(Fresh(db), steps);
    RunKeepsInv(Fresh(db), steps);
    forall k | k in s.cache ensures s.cache[k] == RowOf(s.db, k) {
      assert EntryIsGood(s, k);
    }
  }

  // ---------------------------------------------------------------- what the generation tells

  predicate Bumps(s: State, step: Step) {
    Enabled(s, step) && (step.Bump? || step.BumpSet?)
  }

  function BumpCount(s: State, steps: seq<Step>): nat
    decreases |steps|
  {
    if steps == [] then 0
    else (if Bumps(s, steps[0]) then 1 else 0) + BumpCount(Apply(s, steps[0]), steps[1..])
  }

  lemma {:induction false} GenerationCounts(s: State, steps: seq<Step>)
    ensures Run(s, steps).gen == s.gen + BumpCount(s, steps)
    decreases |steps|
  {
    if steps != [] {
      GenerationCounts(Apply(s, steps[0]), steps[1..]);
    }
  }

  /** The generation a reader remembers is the one it loaded, until it loads again. */
  lemma {:induction false} RememberedGeneration(s: State, steps: seq<Step>, t: nat, g: nat)
    requires t in s.tasks && Reading(s.tasks[t].phase) ==> s.tasks[t].gen == g
    requires forall k :: 0 <= k < |steps| ==> steps[k] != Load(t)
    ensures var s2 := Run(s, steps);
            t in s2.tasks && Reading(s2.tasks[t].phase) ==> s2.tasks[t].gen == g
    decreases |steps|
  {
    if steps != [] {
      assert steps[0] != Load(t);
      RememberedGeneration(Apply(s, steps[0]), steps[1..], t, g);
    }
  }

  /** A read fills the cache exactly when nobody bumped the generation since it loaded it. */
  lemma FillsExactlyWhen(s: State, steps: seq<Step>, t: nat)
    requires At(s, t, Missed)
    requires forall k :: 0 <= k < |steps| ==> steps[k] != Load(t)
    requires At(Run(Apply(s, Load(t)), steps), t, Filling)
    ensures var s1 := Apply(s, Load(t));
            At(Apply(Run(s1, steps), Check(t)), t, Checked) <==> BumpCount(s1, steps) == 0
  {
    var s1 := Apply(s, Load(t));
    RememberedGeneration(s1, steps, t, s.gen);
    GenerationCounts(s1, steps);
  }

  // ---------------------------------------------------------------- without setters, and with them

  predicate NoSetter(s: State) {
    forall t :: t in s.tasks ==> !SettingPhase(s.tasks[t].phase)
  }

  lemma {:induction false} NoSettersNoWindows(s: State, steps: seq<Step>)
    requires NoSetter(s) && forall k :: 0 <= k < |steps| ==> !steps[k].StartSet?
    ensures AllOutside(s, steps)
    decreases |steps|
  {
    if steps != [] {
      assert OutsideWindows(s, steps[0]);
      assert NoSetter(Apply(s, steps[0]));
      NoSettersNoWindows(Apply(s, steps[0]), steps[1..]);
    }
  }

  /** Readers and uncaching writers alone never disagree with the database, however they interleave. */
  lemma ReadersAndWritersAgree(db: map<Key, string>, steps: seq<Step>)
    requires forall k :: 0 <= k < |steps| ==> !steps[k].StartSet?
    requires Quiescent(Run(Fresh(db), steps))
    ensures Coherent(Run(Fresh(db), steps))
  {
    NoSettersNoWindows(Fresh(db), steps);
    CacheAgrees(db, steps);
  }

  datatype Window = Early | Foreign | Late

  predicate Enters(s: State, step: Step, w: Window) {
    match w
    case Early => ReadsTooEarly(s, step)
    case Foreign => SkipsForeign(s, step)
    case Late => SamplesTooLate(s, step)
  }

  /** The step enters no other window than w. */
  predicate Avoids(s: State, step: Step, w: Window) {
    && (w == Early || !Enters(s, step, Early))
    && (w == Foreign || !Enters(s, step, Foreign))
    && (w == Late || !Enters(s, step, Late))
  }

  predicate Only(s: State, steps: seq<Step>, w: Window)
    decreases |steps|
  {
    steps != [] ==> Avoids(s, steps[0], w) && Only(Apply(s, steps[0]), steps[1..], w)
  }

  /** Some step enters window w. */
  predicate EntersIn(s: State, steps: seq<Step>, w: Window)
    decreases |steps|
  {
    steps != [] && (Enters(s, steps[0], w) || EntersIn(Apply(s, steps[0]), steps[1..], w))
  }

  /** From s the steps lead to `after`, entering no other window than w. */
  predicate Leads(s: State, steps: seq<Step>, w: Window, after: State) {
    Run(s, steps) == after && Only(s, steps, w)
  }

  lemma {:induction false} LeadsOn(s: State, a: seq<Step>, mid: State, b: seq<Step>, w: Window, after: State)
    requires Leads(s, a, w, mid) && Leads(mid, b, w, after)
    ensures Leads(s, a + b, w, after)
    ensures EntersIn(s, a + b, w) <==> EntersIn(s, a, w) || EntersIn(mid, b, w)
    decreases |a|
  {
    if a == [] {
      assert a + b == b;
    } else {
      assert (a + b)[1..] == a[1..] + b;
      LeadsOn(Apply(s, a[0]), a[1..], mid, b, w, after);
    }
  }

  lemma TwoLead(s: State, a: Step, b: Step, w: Window)
    requires Avoids(s, a, w) && Avoids(Apply(s, a), b, w)
    ensures Leads(s, [a, b], w, Apply(Apply(s, a), b))
    ensures EntersIn(s, [a, b], w) <==> Enters(s, a, w) || Enters(Apply(s, a), b, w)
  {
    Two(s, a, b);
    assert [a, b][1..] == [b] && [b][1..] == [];
    assert Only(Apply(s, a), [b], w);
    assert EntersIn(Apply(s, a), [b], w) <==> Enters(Apply(s, a), b, w);
  }

  /** Nothing is under way. */
  predicate Settled(s: State) {
    s.tasks == map[] && s.lock.None? && s.mutex.None?
  }

  /** The entry of k and its row are these two values. */
  predicate Holds(s: State, k: Key, x: Row, y: Row) {
    k in s.cache && {s.cache[k], RowOf(s.db, k)} == {x, y}
  }

  /** Each window matters, for every key and every two values of it: from any settled state there are
      steps that enter this window and no other, settle again, and leave one value in the cache and the
      other in the database. */
  lemma EveryWindowMatters(s: State, w: Window, k: Key, row: Row) returns (steps: seq<Step>)
    requires Settled(s) && row != RowOf(s.db, k)
    ensures Settled(Run(s, steps)) && Only(s, steps, w) && EntersIn(s, steps, w)
    ensures Holds(Run(s, steps), k, row, RowOf(s.db, k)) && !Coherent(Run(s, steps))
  {
    var first := Uncache(s, w, k);
    hide Run, Only, EntersIn;
    var s0 := Uncached(s, k);
    var rest: seq<Step>;
    match w {
      case Early => rest := EarlyMatters(s0, k, row);
      case Foreign => rest := ForeignMatters(s0, k, row);
      case Late => rest := LateMatters(s0, k, row);
    }
    LeadsOn(s, first, s0, rest, w, Run(s0, rest));
    steps := first + rest;
  }

  /** The state in the middle of such a run; task 1 is the setter. */
  function Mid(db: map<Key, string>, cache: map<Key, Row>, gen: nat, tasks: map<nat, Task>): State {
    State(db, cache, gen, None, if 1 in tasks then Some(1) else None, tasks)
  }

  /** k was written as it is, and so uncached. */
  function Uncached(s: State, k: Key): State {
    Mid(WithRow(s.db, k, RowOf(s.db, k)), s.cache - {k}, s.gen + 1, map[])
  }

  lemma Uncache(s: State, w: Window, k: Key) returns (steps: seq<Step>)
    requires Settled(s)
    ensures Leads(s, steps, w, Uncached(s, k))
  {
    var a := [WriteRow(3, k, RowOf(s.db, k)), Acquire(3)];
    var b := [Bump(3), Remove(3)];
    UncachePart0(s, w, k);
    UncachePart1(s, w, k);
    hide Run, Only, Uncaching1, Uncached;
    LeadsOn(s, a, Uncaching1(s, k), b, w, Uncached(s, k));
    steps := a + b;
  }

  function Uncaching1(s: State, k: Key): State {
    Mid(WithRow(s.db, k, RowOf(s.db, k)), s.cache, s.gen, map[3 := Task(Uncaching, k, 0, None)]).(lock := Some(3))
  }

  lemma UncachePart0(s: State, w: Window, k: Key)
    requires Settled(s)
    ensures Leads(s, [WriteRow(3, k, RowOf(s.db, k)), Acquire(3)], w, Uncaching1(s, k))
  {
    hide RowOf, WithRow;
    TwoLead(s, WriteRow(3, k, RowOf(s.db, k)), Acquire(3), w);
    assert Apply(Apply(s, WriteRow(3, k, RowOf(s.db, k))), Acquire(3)) == Uncaching1(s, k);
  }

  lemma UncachePart1(s: State, w: Window, k: Key)
    requires Settled(s)
    ensures Leads(Uncaching1(s, k), [Bump(3), Remove(3)], w, Uncached(s, k))
  {
    hide RowOf, WithRow;
  }

  function Early1(s: State, k: Key, row: Row): State {
    Mid(s.db, s.cache, s.gen + 1, map[1 := Task(SetBumped, k, 0, row)])
  }

  function Early2(s: State, k: Key, row: Row): State {
    Mid(s.db, s.cache, s.gen + 1, map[1 := Task(SetBumped, k, 0, row), 2 := Task(Loaded, k, s.gen + 1, None)])
  }

  function Early3(s: State, k: Key, row: Row): State {
    Mid(WithRow(s.db, k, row), s.cache, s.gen + 1,
        map[1 := Task(Committed, k, 0, row), 2 := Task(Fetched, k, s.gen + 1, RowOf(s.db, k))])
  }

  function Early4(s: State, k: Key, row: Row): State {
    Mid(WithRow(s.db, k, row), s.cache, s.gen + 1,
        map[1 := Task(SetFilling, k, s.gen + 1, row), 2 := Task(Fetched, k, s.gen + 1, RowOf(s.db, k))]).(lock := Some(1))
  }

  function Early5(s: State, k: Key, row: Row): State {
    Mid(WithRow(s.db, k, row), s.cache[k := row], s.gen + 1, map[2 := Task(Fetched, k, s.gen + 1, RowOf(s.db, k))])
  }

  function Early6(s: State, k: Key, row: Row): State {
    Mid(WithRow(s.db, k, row), s.cache[k := row], s.gen + 1, map[2 := Task(Checked, k, s.gen + 1, RowOf(s.db, k))]).(lock := Some(2))
  }

  function Early7(s: State, k: Key, row: Row): State {
    Mid(WithRow(s.db, k, row), s.cache[k := RowOf(s.db, k)], s.gen + 1, map[])
  }

  lemma EarlyPart0(s: State, k: Key, row: Row)
    requires Settled(s) && k !in s.cache
    ensures Leads(s, [StartSet(1, k, row), BumpSet(1)], Early, Early1(s, k, row))
  {
    hide RowOf, WithRow;
    TwoLead(s, StartSet(1, k, row), BumpSet(1), Early);
    assert Apply(Apply(s, StartSet(1, k, row)), BumpSet(1)) == Early1(s, k, row);
  }

  lemma EarlyPart1(s: State, k: Key, row: Row)
    requires Settled(s) && k !in s.cache
    ensures Leads(Early1(s, k, row), [Miss(2, k), Load(2)], Early, Early2(s, k, row))
    ensures EntersIn(Early1(s, k, row), [Miss(2, k), Load(2)], Early)
  {
    hide RowOf, WithRow;
    TwoLead(Early1(s, k, row), Miss(2, k), Load(2), Early);
    assert Apply(Apply(Early1(s, k, row), Miss(2, k)), Load(2)) == Early2(s, k, row);
  }

  lemma EarlyPart2(s: State, k: Key, row: Row)
    requires Settled(s) && k !in s.cache
    ensures Leads(Early2(s, k, row), [Query(2), Commit(1)], Early, Early3(s, k, row))
  {
    hide RowOf, WithRow;
  }

  lemma EarlyPart3(s: State, k: Key, row: Row)
    requires Settled(s) && k !in s.cache
    ensures Leads(Early3(s, k, row), [Sample(1), Acquire(1)], Early, Early4(s, k, row))
  {
    hide RowOf, WithRow;
  }

  lemma EarlyPart4(s: State, k: Key, row: Row)
    requires Settled(s) && k !in s.cache
    ensures Leads(Early4(s, k, row), [Check(1), Fill(1)], Early, Early5(s, k, row))
  {
    hide RowOf, WithRow;
  }

  lemma EarlyPart5(s: State, k: Key, row: Row)
    requires Settled(s) && k !in s.cache
    ensures Leads(Early5(s, k, row), [Acquire(2), Check(2)], Early, Early6(s, k, row))
  {
    hide RowOf, WithRow;
  }

  lemma EarlyPart6(s: State, k: Key, row: Row)
    requires Settled(s) && k !in s.cache
    ensures Leads(Early6(s, k, row), [Fill(2)], Early, Early7(s, k, row))
  {
    hide RowOf, WithRow;
  }

  lemma EarlyMatters(s: State, k: Key, row: Row) returns (steps: seq<Step>)
    requires Settled(s) && k !in s.cache && row != RowOf(s.db, k)
    ensures Settled(Run(s, steps)) && Only(s, steps, Early) && EntersIn(s, steps, Early)
    ensures Holds(Run(s, steps), k, row, RowOf(s.db, k))
  {
    hide Run, Only, EntersIn, Holds, Early1, Early2, Early3, Early4, Early5, Early6, Early7;
    EarlyPart6(s, k, row);
    steps := [Fill(2)];
    EarlyPart5(s, k, row);
    LeadsOn(Early5(s, k, row), [Acquire(2), Check(2)], Early6(s, k, row), steps, Early, Early7(s, k, row));
    steps := [Acquire(2), Check(2)] + steps;
    EarlyPart4(s, k, row);
    LeadsOn(Early4(s, k, row), [Check(1), Fill(1)], Early5(s, k, row), steps, Early, Early7(s, k, row));
    steps := [Check(1), Fill(1)] + steps;
    EarlyPart3(s, k, row);
    LeadsOn(Early3(s, k, row), [Sample(1), Acquire(1)], Early4(s, k, row), steps, Early, Early7(s, k, row));
    steps := [Sample(1), Acquire(1)] + steps;
    EarlyPart2(s, k, row);
    LeadsOn(Early2(s, k, row), [Query(2), Commit(1)], Early3(s, k, row), steps, Early, Early7(s, k, row));
    steps := [Query(2), Commit(1)] + steps;
    EarlyPart1(s, k, row);
    LeadsOn(Early1(s, k, row), [Miss(2, k), Load(2)], Early2(s, k, row), steps, Early, Early7(s, k, row));
    steps := [Miss(2, k), Load(2)] + steps;
    EarlyPart0(s, k, row);
    LeadsOn(s, [StartSet(1, k, row), BumpSet(1)], Early1(s, k, row), steps, Early, Early7(s, k, row));
    steps := [StartSet(1, k, row), BumpSet(1)] + steps;
    EarlyIsStale(s, k, row);
  }

  lemma EarlyIsStale(s: State, k: Key, row: Row)
    requires row != RowOf(s.db, k)
    ensures Settled(Early7(s, k, row)) && Holds(Early7(s, k, row), k, row, RowOf(s.db, k))
  {
  }

  /** Another key. */
  function Other(k: Key): (j: Key)
    ensures j != k
  {
    k + "'"
  }

  function Foreign1(s: State, k: Key, row: Row): State {
    Mid(s.db, s.cache, s.gen, map[2 := Task(Loaded, k, s.gen, None)])
  }

  function Foreign2(s: State, k: Key, row: Row): State {
    Mid(s.db, s.cache, s.gen, map[2 := Task(Filling, k, s.gen, RowOf(s.db, k))]).(lock := Some(2))
  }

  function Foreign3(s: State, k: Key, row: Row): State {
    Mid(s.db, s.cache[k := RowOf(s.db, k)], s.gen, map[])
  }

  function Foreign4(s: State, k: Key, row: Row): State {
    Mid(s.db, s.cache[k := RowOf(s.db, k)], s.gen + 1, map[1 := Task(SetBumped, k, 0, row)])
  }

  function Foreign5(s: State, k: Key, row: Row): State {
    Mid(WithRow(s.db, k, row), s.cache[k := RowOf(s.db, k)], s.gen + 1, map[1 := Task(Sampled, k, s.gen + 1, row)])
  }

  function Foreign6(s: State, k: Key, row: Row): State {
    Mid(WithRow(WithRow(s.db, k, row), Other(k), None), s.cache[k := RowOf(s.db, k)], s.gen + 1,
        map[1 := Task(Sampled, k, s.gen + 1, row), 3 := Task(Uncaching, Other(k), 0, None)]).(lock := Some(3))
  }

  function Foreign7(s: State, k: Key, row: Row): State {
    Mid(WithRow(WithRow(s.db, k, row), Other(k), None), s.cache[k := RowOf(s.db, k)], s.gen + 2,
        map[1 := Task(Sampled, k, s.gen + 1, row), 3 := Task(Bumped, Other(k), 0, None)]).(lock := Some(3))
  }

  function Foreign8(s: State, k: Key, row: Row): State {
    Mid(WithRow(WithRow(s.db, k, row), Other(k), None), s.cache[k := RowOf(s.db, k)] - {Other(k)}, s.gen + 2, map[1 := Task(Sampled, k, s.gen + 1, row)])
  }

  function Foreign9(s: State, k: Key, row: Row): State {
    Mid(WithRow(WithRow(s.db, k, row), Other(k), None), s.cache[k := RowOf(s.db, k)] - {Other(k)}, s.gen + 2, map[])
  }

  lemma ForeignPart0(s: State, k: Key, row: Row)
    requires Settled(s) && k !in s.cache
    ensures Leads(s, [Miss(2, k), Load(2)], Foreign, Foreign1(s, k, row))
  {
    hide RowOf, WithRow;
    TwoLead(s, Miss(2, k), Load(2), Foreign);
    assert Apply(Apply(s, Miss(2, k)), Load(2)) == Foreign1(s, k, row);
  }

  lemma ForeignPart1(s: State, k: Key, row: Row)
    requires Settled(s) && k !in s.cache
    ensures Leads(Foreign1(s, k, row), [Query(2), Acquire(2)], Foreign, Foreign2(s, k, row))
  {
    hide RowOf, WithRow;
  }

  lemma ForeignPart2(s: State, k: Key, row: Row)
    requires Settled(s) && k !in s.cache
    ensures Leads(Foreign2(s, k, row), [Check(2), Fill(2)], Foreign, Foreign3(s, k, row))
  {
    hide RowOf, WithRow;
  }

  lemma ForeignPart3(s: State, k: Key, row: Row)
    requires Settled(s) && k !in s.cache
    ensures Leads(Foreign3(s, k, row), [StartSet(1, k, row), BumpSet(1)], Foreign, Foreign4(s, k, row))
  {
    hide RowOf, WithRow;
    TwoLead(Foreign3(s, k, row), StartSet(1, k, row), BumpSet(1), Foreign);
    assert Apply(Apply(Foreign3(s, k, row), StartSet(1, k, row)), BumpSet(1)) == Foreign4(s, k, row);
  }

  lemma ForeignPart4(s: State, k: Key, row: Row)
    requires Settled(s) && k !in s.cache
    ensures Leads(Foreign4(s, k, row), [Commit(1), Sample(1)], Foreign, Foreign5(s, k, row))
  {
    hide RowOf, WithRow;
  }

  lemma ForeignPart5(s: State, k: Key, row: Row)
    requires Settled(s) && k !in s.cache
    ensures Leads(Foreign5(s, k, row), [WriteRow(3, Other(k), None), Acquire(3)], Foreign, Foreign6(s, k, row))
  {
    hide RowOf, WithRow;
    TwoLead(Foreign5(s, k, row), WriteRow(3, Other(k), None), Acquire(3), Foreign);
    assert Apply(Apply(Foreign5(s, k, row), WriteRow(3, Other(k), None)), Acquire(3)) == Foreign6(s, k, row);
  }

  lemma ForeignPart6(s: State, k: Key, row: Row)
    requires Settled(s) && k !in s.cache
    ensures Leads(Foreign6(s, k, row), [Bump(3)], Foreign, Foreign7(s, k, row))
    ensures EntersIn(Foreign6(s, k, row), [Bump(3)], Foreign)
  {
    hide RowOf, WithRow;
  }

  lemma ForeignPart7(s: State, k: Key, row: Row)
    requires Settled(s) && k !in s.cache
    ensures Leads(Foreign7(s, k, row), [Remove(3)], Foreign, Foreign8(s, k, row))
  {
    hide RowOf, WithRow;
  }

  lemma ForeignPart8(s: State, k: Key, row: Row)
    requires Settled(s) && k !in s.cache
    ensures Leads(Foreign8(s, k, row), [Acquire(1), Check(1)], Foreign, Foreign9(s, k, row))
  {
    hide RowOf, WithRow;
  }

  lemma ForeignMatters(s: State, k: Key, row: Row) returns (steps: seq<Step>)
    requires Settled(s) && k !in s.cache && row != RowOf(s.db, k)
    ensures Settled(Run(s, steps)) && Only(s, steps, Foreign) && EntersIn(s, steps, Foreign)
    ensures Holds(Run(s, steps), k, row, RowOf(s.db, k))
  {
    hide Run, Only, EntersIn, Holds, Foreign1, Foreign2, Foreign3, Foreign4, Foreign5, Foreign6, Foreign7, Foreign8, Foreign9;
    ForeignPart8(s, k, row);
    steps := [Acquire(1), Check(1)];
    ForeignPart7(s, k, row);
    LeadsOn(Foreign7(s, k, row), [Remove(3)], Foreign8(s, k, row), steps, Foreign, Foreign9(s, k, row));
    steps := [Remove(3)] + steps;
    ForeignPart6(s, k, row);
    LeadsOn(Foreign6(s, k, row), [Bump(3)], Foreign7(s, k, row), steps, Foreign, Foreign9(s, k, row));
    steps := [Bump(3)] + steps;
    ForeignPart5(s, k, row);
    LeadsOn(Foreign5(s, k, row), [WriteRow(3, Other(k), None), Acquire(3)], Foreign6(s, k, row), steps, Foreign, Foreign9(s, k, row));
    steps := [WriteRow(3, Other(k), None), Acquire(3)] + steps;
    ForeignPart4(s, k, row);
    LeadsOn(Foreign4(s, k, row), [Commit(1), Sample(1)], Foreign5(s, k, row), steps, Foreign, Foreign9(s, k, row));
    steps := [Commit(1), Sample(1)] + steps;
    ForeignPart3(s, k, row);
    LeadsOn(Foreign3(s, k, row), [StartSet(1, k, row), BumpSet(1)], Foreign4(s, k, row), steps, Foreign, Foreign9(s, k, row));
    steps := [StartSet(1, k, row), BumpSet(1)] + steps;
    ForeignPart2(s, k, row);
    LeadsOn(Foreign2(s, k, row), [Check(2), Fill(2)], Foreign3(s, k, row), steps, Foreign, Foreign9(s, k, row));
    steps := [Check(2), Fill(2)] + steps;
    ForeignPart1(s, k, row);
    LeadsOn(Foreign1(s, k, row), [Query(2), Acquire(2)], Foreign2(s, k, row), steps, Foreign, Foreign9(s, k, row));
    steps := [Query(2), Acquire(2)] + steps;
    ForeignPart0(s, k, row);
    LeadsOn(s, [Miss(2, k), Load(2)], Foreign1(s, k, row), steps, Foreign, Foreign9(s, k, row));
    steps := [Miss(2, k), Load(2)] + steps;
    ForeignIsStale(s, k, row);
  }

  lemma ForeignIsStale(s: State, k: Key, row: Row)
    requires row != RowOf(s.db, k)
    ensures Settled(Foreign9(s, k, row)) && Holds(Foreign9(s, k, row), k, row, RowOf(s.db, k))
  {
  }

  function Late1(s: State, k: Key, row: Row): State {
    Mid(s.db, s.cache, s.gen + 1, map[1 := Task(SetBumped, k, 0, row)])
  }

  function Late2(s: State, k: Key, row: Row): State {
    Mid(WithRow(WithRow(s.db, k, row), k, RowOf(s.db, k)), s.cache, s.gen + 1,
        map[1 := Task(Committed, k, 0, row), 2 := Task(Wrote, k, 0, None)])
  }

  function Late3(s: State, k: Key, row: Row): State {
    Mid(WithRow(WithRow(s.db, k, row), k, RowOf(s.db, k)), s.cache, s.gen + 2,
        map[1 := Task(Committed, k, 0, row), 2 := Task(Bumped, k, 0, None)]).(lock := Some(2))
  }

  function Late4(s: State, k: Key, row: Row): State {
    Mid(WithRow(WithRow(s.db, k, row), k, RowOf(s.db, k)), s.cache, s.gen + 2, map[1 := Task(Sampled, k, s.gen + 2, row)])
  }

  function Late5(s: State, k: Key, row: Row): State {
    Mid(WithRow(WithRow(s.db, k, row), k, RowOf(s.db, k)), s.cache, s.gen + 2, map[1 := Task(SetChecked, k, s.gen + 2, row)]).(lock := Some(1))
  }

  function Late6(s: State, k: Key, row: Row): State {
    Mid(WithRow(WithRow(s.db, k, row), k, RowOf(s.db, k)), s.cache[k := row], s.gen + 2, map[])
  }

  lemma LatePart0(s: State, k: Key, row: Row)
    requires Settled(s) && k !in s.cache
    ensures Leads(s, [StartSet(1, k, row), BumpSet(1)], Late, Late1(s, k, row))
  {
    hide RowOf, WithRow;
    TwoLead(s, StartSet(1, k, row), BumpSet(1), Late);
    assert Apply(Apply(s, StartSet(1, k, row)), BumpSet(1)) == Late1(s, k, row);
  }

  lemma LatePart1(s: State, k: Key, row: Row)
    requires Settled(s) && k !in s.cache
    ensures Leads(Late1(s, k, row), [Commit(1), WriteRow(2, k, RowOf(s.db, k))], Late, Late2(s, k, row))
  {
    hide RowOf, WithRow;
    TwoLead(Late1(s, k, row), Commit(1), WriteRow(2, k, RowOf(s.db, k)), Late);
    assert Apply(Apply(Late1(s, k, row), Commit(1)), WriteRow(2, k, RowOf(s.db, k))) == Late2(s, k, row);
  }

  lemma LatePart2(s: State, k: Key, row: Row)
    requires Settled(s) && k !in s.cache
    ensures Leads(Late2(s, k, row), [Acquire(2), Bump(2)], Late, Late3(s, k, row))
    ensures EntersIn(Late2(s, k, row), [Acquire(2), Bump(2)], Late)
  {
    hide RowOf, WithRow;
  }

  lemma LatePart3(s: State, k: Key, row: Row)
    requires Settled(s) && k !in s.cache
    ensures Leads(Late3(s, k, row), [Remove(2), Sample(1)], Late, Late4(s, k, row))
  {
    hide RowOf, WithRow;
  }

  lemma LatePart4(s: State, k: Key, row: Row)
    requires Settled(s) && k !in s.cache
    ensures Leads(Late4(s, k, row), [Acquire(1), Check(1)], Late, Late5(s, k, row))
  {
    hide RowOf, WithRow;
  }

  lemma LatePart5(s: State, k: Key, row: Row)
    requires Settled(s) && k !in s.cache
    ensures Leads(Late5(s, k, row), [Fill(1)], Late, Late6(s, k, row))
  {
    hide RowOf, WithRow;
  }

  lemma LateMatters(s: State, k: Key, row: Row) returns (steps: seq<Step>)
    requires Settled(s) && k !in s.cache && row != RowOf(s.db, k)
    ensures Settled(Run(s, steps)) && Only(s, steps, Late) && EntersIn(s, steps, Late)
    ensures Holds(Run(s, steps), k, row, RowOf(s.db, k))
  {
    hide Run, Only, EntersIn, Holds, Late1, Late2, Late3, Late4, Late5, Late6;
    LatePart5(s, k, row);
    steps := [Fill(1)];
    LatePart4(s, k, row);
    LeadsOn(Late4(s, k, row), [Acquire(1), Check(1)], Late5(s, k, row), steps, Late, Late6(s, k, row));
    steps := [Acquire(1), Check(1)] + steps;
    LatePart3(s, k, row);
    LeadsOn(Late3(s, k, row), [Remove(2), Sample(1)], Late4(s, k, row), steps, Late, Late6(s, k, row));
    steps := [Remove(2), Sample(1)] + steps;
    LatePart2(s, k, row);
    LeadsOn(Late2(s, k, row), [Acquire(2), Bump(2)], Late3(s, k, row), steps, Late, Late6(s, k, row));
    steps := [Acquire(2), Bump(2)] + steps;
    LatePart1(s, k, row);
    LeadsOn(Late1(s, k, row), [Commit(1), WriteRow(2, k, RowOf(s.db, k))], Late2(s, k, row), steps, Late, Late6(s, k, row));
    steps := [Commit(1), WriteRow(2, k, RowOf(s.db, k))] + steps;
    LatePart0(s, k, row);
    LeadsOn(s, [StartSet(1, k, row), BumpSet(1)], Late1(s, k, row), steps, Late, Late6(s, k, row));
    steps := [StartSet(1, k, row), BumpSet(1)] + steps;
    LateIsStale(s, k, row);
  }

  lemma LateIsStale(s: State, k: Key, row: Row)
    requires row != RowOf(s.db, k)
    ensures Settled(Late6(s, k, row)) && Holds(Late6(s, k, row), k, row, RowOf(s.db, k))
  {
  }

  // ---------------------------------------------------------------- the object

  /** `Sql` between the awaits of its callers: each method is one stretch of a read, an uncaching or a
      set, and other tasks may take any steps between two of them. */
  class Sql {
    var db: map<Key, string>
    var cache: map<Key, Row>
    var gen: nat
    ghost var lock: Option<nat>
    ghost var mutex: Option<nat>
    ghost var tasks: map<nat, Task>

    ghost function Snap(): State
      reads this
    {
      State(db, cache, gen, lock, mutex, tasks)
    }

    constructor (db: map<Key, string>)
      ensures Snap() == Fresh(db)
    {
      this.db, cache, gen := db, map[], 0;
      lock, mutex, tasks := None, None, map[];
    }

    /** `get_raw_config` up to the query: a hit, or a miss and the generation. */
    method StartGet(ghost t: nat, key: Key) returns (hit: Option<Row>, generation: nat)
      requires t !in tasks && lock.None?
      modifies this`tasks
      ensures hit == if key in old(cache) then Some(old(cache)[key]) else None
      ensures hit.Some? ==> Snap() == old(Snap())
      ensures hit.None? ==> generation == gen && Snap() == Run(old(Snap()), [Miss(t, key), Load(t)])
    {
      generation := gen;
      if key in cache {
        return Some(cache[key]), generation;
      }
      ghost var s := Snap();
      tasks := tasks[t := Task(Loaded, key, gen, None)];
      Two(s, Miss(t, key), Load(t));
      hit := None;
    }

    method QueryRow(ghost t: nat, key: Key) returns (row: Row)
      requires t in tasks && tasks[t].phase == Loaded && tasks[t].key == key
      modifies this`tasks
      ensures row == RowOf(db, key) && Snap() == Apply(old(Snap()), Query(t))
    {
      row := RowOf(db, key);
      tasks := tasks[t := tasks[t].(phase := Fetched, row := row)];
    }

    /** `get_raw_config` once the cache lock is there: the value is kept only if nobody bumped the
        generation in the meantime. */
    method FinishGet(ghost t: nat, key: Key, generation: nat, row: Row)
      requires lock.None? && t in tasks && tasks[t] == Task(Fetched, key, generation, row)
      modifies this`cache, this`tasks
      ensures Snap() == Run(old(Snap()), [Acquire(t), Check(t), Fill(t)])
      ensures cache == if gen == generation then old(cache)[key := row] else old(cache)
    {
      ghost var s := Snap();
      if gen == generation {
        cache := cache[key := row];
      }
      tasks := tasks - {t};
      Three(s, Acquire(t), Check(t), Fill(t));
      FinishIs(s, t);
    }

    /** `uncache_raw_config`, after the row was written. */
    method UncacheRawConfig(ghost t: nat, key: Key)
      requires lock.None? && t in tasks && tasks[t].phase == Wrote && tasks[t].key == key
      modifies this`cache, this`gen, this`tasks
      ensures Snap() == Run(old(Snap()), [Acquire(t), Bump(t), Remove(t)])
      ensures gen == old(gen) + 1 && cache == old(cache) - {key}
    {
      ghost var s := Snap();
      gen := gen + 1;
      cache := cache - {key};
      tasks := tasks - {t};
      Three(s, Acquire(t), Bump(t), Remove(t));
      UncacheIs(s, t);
    }

    /** `set_raw_config` up to the write. */
    method BeginSet(ghost t: nat, key: Key, row: Row)
      requires t !in tasks && mutex.None?
      modifies this`gen, this`mutex, this`tasks
      ensures Snap() == Run(old(Snap()), [StartSet(t, key, row), BumpSet(t)])
    {
      ghost var s := Snap();
      gen := gen + 1;
      mutex := Some(t);
      tasks := tasks[t := Task(SetBumped, key, 0, row)];
      Two(s, StartSet(t, key, row), BumpSet(t));
    }

    /** The write, and the sample right after it. */
    method WriteSet(ghost t: nat, key: Key, row: Row) returns (generation: nat)
      requires t in tasks && tasks[t] == Task(SetBumped, key, tasks[t].gen, row)
      modifies this`db, this`tasks
      ensures generation == gen && Snap() == Run(old(Snap()), [Commit(t), Sample(t)])
    {
      ghost var s := Snap();
      db := WithRow(db, key, row);
      generation := gen;
      tasks := tasks[t := tasks[t].(phase := Sampled, gen := gen)];
      Two(s, Commit(t), Sample(t));
    }

    /** `set_raw_config` once the cache lock is there. */
    method FinishSet(ghost t: nat, key: Key, generation: nat, row: Row)
      requires lock.None? && t in tasks && tasks[t] == Task(Sampled, key, generation, row)
      modifies this`cache, this`mutex, this`tasks
      ensures Snap() == Run(old(Snap()), [Acquire(t), Check(t), Fill(t)])
      ensures cache == if gen == generation then old(cache)[key := row] else old(cache)
    {
      ghost var s := Snap();
      if gen == generation {
        cache := cache[key := row];
      }
      mutex := None;
      tasks := tasks - {t};
      Three(s, Acquire(t), Check(t), Fill(t));
      FinishIs(s, t);
    }
  }

  lemma Two(s: State, a: Step, b: Step)
    ensures Run(s, [a, b]) == Apply(Apply(s, a), b)
  {
    assert [a, b][1..] == [b] && [b][1..] == [];
    assert Run(Apply(s, a), [b]) == Run(Apply(Apply(s, a), b), []);
  }

  lemma Three(s: State, a: Step, b: Step, c: Step)
    ensures Run(s, [a, b, c]) == Apply(Apply(Apply(s, a), b), c)
  {
    assert [a, b, c][1..] == [b, c];
    Two(Apply(s, a), b, c);
  }

  /** What the last stretch of a read or a set does to the state. */
  lemma FinishIs(s: State, t: nat)
    requires s.lock.None? && (At(s, t, Fetched) || At(s, t, Sampled))
    ensures var k := s.tasks[t];
            Apply(Apply(Apply(s, Acquire(t)), Check(t)), Fill(t))
            == s.(cache := if s.gen == k.gen then s.cache[k.key := k.row] else s.cache,
                  mutex := if At(s, t, Sampled) then None else s.mutex, tasks := s.tasks - {t})
  {
    var s1 := Apply(s, Acquire(t));
    var s2 := Apply(s1, Check(t));
    assert s1.tasks - {t} == s.tasks - {t};
    assert s.gen == s.tasks[t].gen ==> s2.tasks - {t} == s.tasks - {t};
  }

  lemma UncacheIs(s: State, t: nat)
    requires s.lock.None? && At(s, t, Wrote)
    ensures Apply(Apply(Apply(s, Acquire(t)), Bump(t)), Remove(t))
            == s.(cache := s.cache - {s.tasks[t].key}, gen := s.gen + 1, tasks := s.tasks - {t})
  {
    var s1 := Apply(s, Acquire(t));
    var s2 := Apply(s1, Bump(t));
    assert s2.tasks - {t} == s.tasks - {t};
  }

  lemma {:induction false} RunConcat(s: State, a: seq<Step>, b: seq<Step>)
    ensures Run(s, a + b) == Run(Run(s, a), b)
    decreases |a|
  {
    if a == [] {
      assert a + b == b;
    } else {
      assert (a + b)[1..] == a[1..] + b;
      RunConcat(Apply(s, a[0]), a[1..], b);
    }
  }

  /** An undisturbed read of an uncached key caches the row and leaves everything else. */
  lemma UndisturbedRead(s: State, t: nat, key: Key)
    requires t !in s.tasks && s.lock.None? && key !in s.cache
    ensures Run(s, [Miss(t, key), Load(t), Query(t)] + [Acquire(t), Check(t), Fill(t)])
            == s.(cache := s.cache[key := RowOf(s.db, key)])
  {
    var fetched := s.(tasks := s.tasks[t := Task(Fetched, key, s.gen, RowOf(s.db, key))]);
    RunConcat(s, [Miss(t, key), Load(t), Query(t)], [Acquire(t), Check(t), Fill(t)]);
    Three(s, Miss(t, key), Load(t), Query(t));
    assert Apply(Apply(Apply(s, Miss(t, key)), Load(t)), Query(t)) == fetched;
    Three(fetched, Acquire(t), Check(t), Fill(t));
    hide Run, RowOf;
    FinishIs(fetched, t);
    hide Apply;
    assert fetched.tasks - {t} == s.tasks;
  }

  /** The state of a set that has sampled the generation after its write. */
  function SetSampled(s: State, t: nat, key: Key, row: Row): State {
    s.(db := WithRow(s.db, key, row), gen := s.gen + 1, mutex := Some(t),
       tasks := s.tasks[t := Task(Sampled, key, s.gen + 1, row)])
  }

  function SetBegun(s: State, t: nat, key: Key, row: Row): State {
    s.(gen := s.gen + 1, mutex := Some(t), tasks := s.tasks[t := Task(SetBumped, key, 0, row)])
  }

  lemma SetBegins(s: State, t: nat, key: Key, row: Row)
    requires t !in s.tasks && s.mutex.None?
    ensures Run(s, [StartSet(t, key, row), BumpSet(t)]) == SetBegun(s, t, key, row)
  {
    Two(s, StartSet(t, key, row), BumpSet(t));
    hide Run;
    var s1 := Apply(s, StartSet(t, key, row));
    assert s1.tasks[t := Task(SetBumped, key, 0, row)] == s.tasks[t := Task(SetBumped, key, 0, row)];
  }

  lemma SetCommits(s: State, t: nat, key: Key, row: Row)
    ensures Run(SetBegun(s, t, key, row), [Commit(t), Sample(t)]) == SetSampled(s, t, key, row)
  {
    var begun := SetBegun(s, t, key, row);
    Two(begun, Commit(t), Sample(t));
    hide Run, WithRow;
    assert Apply(begun, Commit(t)).tasks[t := Task(Sampled, key, s.gen + 1, row)] == SetSampled(s, t, key, row).tasks;
  }

  lemma SetWrites(s: State, t: nat, key: Key, row: Row)
    requires t !in s.tasks && s.mutex.None?
    ensures Run(s, [StartSet(t, key, row), BumpSet(t)] + [Commit(t), Sample(t)]) == SetSampled(s, t, key, row)
  {
    hide Run, SetBegun, SetSampled;
    RunConcat(s, [StartSet(t, key, row), BumpSet(t)], [Commit(t), Sample(t)]);
    SetBegins(s, t, key, row);
    SetCommits(s, t, key, row);
  }

  /** An undisturbed set writes the row and the entry, bumps the generation once, and leaves the rest. */
  lemma UndisturbedSet(s: State, t: nat, key: Key, row: Row)
    requires t !in s.tasks && s.lock.None? && s.mutex.None?
    ensures Run(s, ([StartSet(t, key, row), BumpSet(t)] + [Commit(t), Sample(t)]) + [Acquire(t), Check(t), Fill(t)])
            == s.(db := WithRow(s.db, key, row), cache := s.cache[key := row], gen := s.gen + 1)
  {
    hide Run, Apply, WithRow;
    RunConcat(s, [StartSet(t, key, row), BumpSet(t)] + [Commit(t), Sample(t)], [Acquire(t), Check(t), Fill(t)]);
    SetWrites(s, t, key, row);
    var sampled := SetSampled(s, t, key, row);
    Three(sampled, Acquire(t), Check(t), Fill(t));
    FinishIs(sampled, t);
    assert sampled.tasks - {t} == s.tasks;
  }
}
