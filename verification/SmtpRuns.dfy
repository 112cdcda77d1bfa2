/** Whole runs of the sending loop (core/src/smtp.rs): calls to connect, rejected and lost connections,
    sent messages, and restarts, which forget the connection and the backoff but not the failure rows. */
module SmtpRuns {
  import opened Options
  import opened Smtp

  datatype System = System(conn: State, rows: set<Id>)

  /** `recorded` says whether the database write that goes with the event went through. */
  datatype Op =
    | Call(w: World)
    | Rejected(now: int, recorded: bool)
    | Lost
    | Sent(recorded: bool)
    | Restarted

  function Apply(sys: System, op: Op): System {
    match op
    case Call(w) => sys.(conn := Connect(sys.conn, sys.rows, w).state)
    case Rejected(now, recorded) =>
      if sys.conn.bound.None? then sys
      else
        var b := sys.conn.bound.value;
        System(
          Disconnected(sys.conn.(failed := sys.conn.failed[b := now])),
          if recorded then sys.rows + {b} else sys.rows)
    case Lost => sys.(conn := Disconnected(sys.conn))
    case Sent(recorded) =>
      if recorded && sys.conn.bound.Some? then sys.(rows := sys.rows - {sys.conn.bound.value}) else sys
    case Restarted => sys.(conn := State(None, 0, map[]))
  }

  function Run(sys: System, ops: seq<Op>): System
    decreases |ops|
  {
    if ops == [] then sys else Run(Apply(sys, ops[0]), ops[1..])
  }

  // ---------------------------------------------------------------- what the ui is told

  /** The shared cell names the transport of the live connection, 0 for none. */
  predicate Mirrors(s: State) {
    s.shared == if s.bound.Some? then s.bound.value else 0
  }

  /** The connectivity view never reports a relay other than the one in use. */
  lemma {:induction false} SharedMirrors(sys: System, ops: seq<Op>)
    requires Mirrors(sys.conn)
    ensures Mirrors(Run(sys, ops).conn)
    decreases |ops|
  {
    if ops != [] {
      if ops[0].Call? {
        CallMirrors(sys.conn, sys.rows, ops[0].w);
      }
      SharedMirrors(Apply(sys, ops[0]), ops[1..]);
    }
  }

  lemma CallMirrors(s: State, rows: set<Id>, w: World)
    requires Mirrors(s)
    ensures Mirrors(Connect(s, rows, w).state)
  {
    var s1 := s.(failed := Seeded(s.failed, Pinned(w), rows, w.now));
    TryEachIs(if s.bound.Some? then Disconnected(s1) else s1, Candidates(w, s1.failed), w);
  }

  // ---------------------------------------------------------------- the price of a dead pin

  /** The failures a call starts its ordering from. */
  function Noted(sys: System, w: World): map<Id, int> {
    Seeded(sys.conn.failed, Pinned(w), sys.rows, w.now)
  }

  /** The call makes a new connection, somebody else could serve it, and yet the pin goes first. */
  predicate PinLeads(sys: System, w: World, p: Id) {
    && Connect(sys.conn, sys.rows, w).outcome != Kept
    && Pinned(w) == Some(p) && !Strict(w)
    && |Candidates(w, Noted(sys, w))| > 1
    && Candidates(w, Noted(sys, w))[0].id == p
  }

  /** A failure of p at or after t is on record, in memory or at least in the database. */
  predicate Guarded(sys: System, p: Id, t: int) {
    && sys.conn.bound != Some(p)
    && (if p in sys.conn.failed then sys.conn.failed[p] >= t else p in sys.rows)
  }

  ghost predicate Timely(op: Op, t: int) {
    match op
    case Call(w) => w.now >= t && forall id :: w.at(id) >= t
    case Rejected(now, _) => now >= t
    case _ => true
  }

  /** What may happen without lifting the guard: p does not connect, and a restart finds its row. */
  ghost predicate Quiet(sys: System, op: Op, p: Id, t: int) {
    && Timely(op, t)
    && (op.Call? ==> Connect(sys.conn, sys.rows, op.w).state.bound != Some(p))
    && (op.Restarted? ==> p in sys.rows)
  }

  ghost predicate AllQuiet(sys: System, ops: seq<Op>, p: Id, t: int)
    decreases |ops|
  {
    ops != [] ==> Quiet(sys, ops[0], p, t) && AllQuiet(Apply(sys, ops[0]), ops[1..], p, t)
  }

  /** What the loop leaves on record about p. */
  lemma {:induction false} TryEachRecords(s: State, ts: seq<Transport>, w: World, p: Id)
    ensures var r := TryEach(s, ts, w);
            && (p !in r.tried ==> (p in r.state.failed <==> p in s.failed)
                                  && (p in s.failed ==> r.state.failed[p] == s.failed[p]))
            && (p in r.tried && w.attempt(p) == Refuses ==>
                  p in r.state.failed && r.state.failed[p] == w.at(p))
            && (p in r.tried && w.attempt(p) != Refuses ==> r.state.bound == Some(p))
    decreases |ts|
  {
    if ts != [] && w.attempt(ts[0].id) == Refuses {
      var s1 := s.(failed := s.failed[ts[0].id := w.at(ts[0].id)]);
      TryEachRecords(s1, ts[1..], w, p);
      var r1 := TryEach(s1, ts[1..], w);
      assert TryEach(s, ts, w).tried == [ts[0].id] + r1.tried;
    }
  }

  lemma CallKeepsGuard(sys: System, w: World, p: Id, t: int)
    requires Guarded(sys, p, t) && Quiet(sys, Call(w), p, t)
    ensures Guarded(Apply(sys, Call(w)), p, t)
  {
    var s1 := sys.conn.(failed := Noted(sys, w));
    var s2 := if sys.conn.bound.Some? then Disconnected(s1) else s1;
    var ts := Candidates(w, s1.failed);
    TryEachRecords(s2, ts, w, p);
    TryEachIs(s2, ts, w);
    hide TryEach, Candidates;
    assert s2.failed == s1.failed;
    assert p in s1.failed ==> s1.failed[p] >= t;
    var r := TryEach(s2, ts, w);
    if p in r.tried {
      assert w.attempt(p) == Refuses || r.state.bound == Some(p);
    }
  }

  lemma {:induction false} RunKeepsGuard(sys: System, ops: seq<Op>, p: Id, t: int)
    requires Guarded(sys, p, t) && AllQuiet(sys, ops, p, t)
    ensures Guarded(Run(sys, ops), p, t)
    decreases |ops|
  {
    if ops != [] {
      if ops[0].Call? {
        CallKeepsGuard(sys, ops[0].w, p, t);
      }
      RunKeepsGuard(Apply(sys, ops[0]), ops[1..], p, t);
    }
  }

  lemma UnpausedHas(w: World, p: Id)
    requires Pinned(w) == Some(p)
    ensures Position(Unpaused(w.listed, w.paused), p).Some?
  {
    var t := PinIsUnpaused(w);
    PositionOf(Unpaused(w.listed, w.paused), t);
  }

  lemma SameSize<T>(a: seq<T>, b: seq<T>)
    requires multiset(a) == multiset(b)
    ensures |a| == |b|
  {
    assert |multiset(a)| == |a| && |multiset(b)| == |b|;
  }

  /** The pin goes first exactly when it is not backing off. */
  lemma LeadsExactlyWhen(sys: System, w: World, p: Id)
    requires Table(w.listed) && Pinned(w) == Some(p) && !Strict(w)
    requires |Unpaused(w.listed, w.paused)| > 1
    requires Connect(sys.conn, sys.rows, w).outcome != Kept
    ensures PinLeads(sys, w, p) <==> !BackedOff(Noted(sys, w), p, w.now)
  {
    var kept := Unpaused(w.listed, w.paused);
    var backedOff := BackedOff(Noted(sys, w), p, w.now);
    UnpausedHas(w, p);
    PinFirstMoves(kept, p, backedOff);
    var ordered := PinFirst(kept, Some(p), backedOff);
    assert Candidates(w, Noted(sys, w)) == ordered;
    SameSize(kept, ordered);
    CandidatesDistinct(w, Noted(sys, w));
    assert backedOff ==> ordered[1].id == p;
  }

  /** Under the guard the pin goes first only once the backoff has run out. */
  lemma GuardHolds(sys: System, w: World, p: Id, t: int)
    requires Table(w.listed) && Guarded(sys, p, t) && w.now >= t && PinLeads(sys, w, p)
    ensures w.now - t >= PIN_BACKOFF
  {
    var kept := Unpaused(w.listed, w.paused);
    var backedOff := BackedOff(Noted(sys, w), p, w.now);
    PinFirstMoves(kept, p, backedOff);
    var ordered := PinFirst(kept, Some(p), backedOff);
    assert Candidates(w, Noted(sys, w)) == ordered;
    SameSize(kept, ordered);
    LeadsExactlyWhen(sys, w, p);
  }

  /** A dead pin costs at most one attempt per backoff: when a call put the pin first and it refused,
      the next call that puts it first comes at least PIN_BACKOFF after that refusal - unless the pin
      connected in between, or a restart came while no failure row named it. */
  lemma DeadPinIsCheap(sys: System, w1: World, ops: seq<Op>, w2: World, p: Id)
    requires Table(w1.listed) && Table(w2.listed)
    requires PinLeads(sys, w1, p) && w1.attempt(p) == Refuses
    requires AllQuiet(Apply(sys, Call(w1)), ops, p, w1.at(p))
    requires w2.now >= w1.at(p) && PinLeads(Run(Apply(sys, Call(w1)), ops), w2, p)
    ensures w2.now - w1.at(p) >= PIN_BACKOFF
  {
    RefusalGuards(sys, w1, p);
    RunKeepsGuard(Apply(sys, Call(w1)), ops, p, w1.at(p));
    GuardHolds(Run(Apply(sys, Call(w1)), ops), w2, p, w1.at(p));
  }

  lemma RefusalGuards(sys: System, w: World, p: Id)
    requires Table(w.listed) && PinLeads(sys, w, p) && w.attempt(p) == Refuses
    ensures Guarded(Apply(sys, Call(w)), p, w.at(p))
  {
    var s1 := sys.conn.(failed := Noted(sys, w));
    var s2 := if sys.conn.bound.Some? then Disconnected(s1) else s1;
    var ts := Candidates(w, s1.failed);
    TryEachRecords(s2, ts, w, p);
    TryEachIs(s2, ts, w);
    CandidatesDistinct(w, s1.failed);
    var r := TryEach(s2, ts, w);
    assert Connect(sys.conn, sys.rows, w) == r;
    assert r.tried[0] == p;
    hide TryEach, Candidates;
    if r.outcome == Bound {
      assert w.attempt(r.tried[|r.tried| - 1]) == Connects;
    }
  }

  /** The same price for a pin that connects but rejects what it is asked to send. */
  lemma RejectingPinIsCheap(sys: System, now: int, recorded: bool, ops: seq<Op>, w: World, p: Id)
    requires sys.conn.bound == Some(p) && Table(w.listed)
    requires AllQuiet(Apply(sys, Rejected(now, recorded)), ops, p, now)
    requires w.now >= now && PinLeads(Run(Apply(sys, Rejected(now, recorded)), ops), w, p)
    ensures w.now - now >= PIN_BACKOFF
  {
    RunKeepsGuard(Apply(sys, Rejected(now, recorded)), ops, p, now);
    GuardHolds(Run(Apply(sys, Rejected(now, recorded)), ops), w, p, now);
  }

  /** What a restart costs, exactly: right after it the pin is tried first if and only if no failure
      row names it.  Rows are written for rejected messages, not for failed connects. */
  lemma RestartForgets(sys: System, w: World, p: Id)
    requires Table(w.listed) && Pinned(w) == Some(p) && !Strict(w)
    requires |Unpaused(w.listed, w.paused)| > 1
    ensures PinLeads(Apply(sys, Restarted), w, p) <==> p !in sys.rows
  {
    var after := Apply(sys, Restarted);
    var s1 := after.conn.(failed := Noted(after, w));
    TryEachIs(s1, Candidates(w, s1.failed), w);
    LeadsExactlyWhen(after, w, p);
  }

  /** So the bound fails across a restart: a pin that refused an instant ago leads again. */
  lemma RestartBreaksTheBound(now: int)
    ensures var w := World([Transport(1, "a"), Transport(2, "b")], {}, "a", false, now, false,
                           id => if id == 1 then Refuses else Connects, id => now);
            var sys := System(State(None, 0, map[]), {});
            && PinLeads(sys, w, 1)
            && PinLeads(Apply(Apply(sys, Call(w)), Restarted), w, 1)
  {
    var w := World([Transport(1, "a"), Transport(2, "b")], {}, "a", false, now, false,
                   id => if id == 1 then Refuses else Connects, id => now);
    var sys := System(State(None, 0, map[]), {});
    var again := Apply(Apply(sys, Call(w)), Restarted);
    assert Pinned(w) == Some(1);
    assert Unpaused(w.listed[1..], {}) == [Transport(2, "b")];
    assert |Unpaused(w.listed, {})| == 2;
    assert sys == Apply(sys, Restarted);
    RestartForgets(sys, w, 1);
    RestartForgets(Apply(sys, Call(w)), w, 1);
  }
}
