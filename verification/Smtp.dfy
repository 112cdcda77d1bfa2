/** Choosing the transport to send over (core/src/smtp.rs with the Velta patches 11, 24 and 30): the
    user's pinned relay first unless it is backing off, paused relays never, and in strict mode nobody
    but the pin.  Instants are milliseconds; the network's answers are a parameter. */
module Smtp {
  import opened Options

  type Id = nat

  /** A configured transport; the address is in the lower-case form that all comparisons use. */
  datatype Transport = Transport(id: Id, addr: string)

  const PIN_BACKOFF := 300000

  /** What an attempt meets: a connection, a refusal, or parameters that fail before it is made. */
  datatype Attempt = Connects | Refuses | Unusable

  /** What one call reads: the transports in upstream's order, the ui settings, the clock, the network. */
  datatype World = World(
    listed: seq<Transport>, paused: set<string>, pinAddr: string, strictFlag: bool,
    now: int, stale: bool, attempt: Id -> Attempt, at: Id -> int)

  datatype State = State(bound: Option<Id>, shared: nat, failed: map<Id, int>)

  datatype Outcome = Kept | Bound | NobodyLeft | Aborted

  datatype Result = Result(state: State, tried: seq<Id>, outcome: Outcome)

  /** Ids are positive row ids; id and address are unique in the table. */
  predicate Table(listed: seq<Transport>) {
    && (forall k :: 0 <= k < |listed| ==> listed[k].id > 0)
    && (forall j, k :: 0 <= j < k < |listed| ==> listed[j].id != listed[k].id && listed[j].addr != listed[k].addr)
  }

  function Elapsed(since: int, now: int): int {
    if now < since then 0 else now - since
  }

  function FindAddr(listed: seq<Transport>, addr: string): Option<Id> {
    if listed == [] then None
    else if listed[0].addr == addr then Some(listed[0].id)
    else FindAddr(listed[1..], addr)
  }

  function FindId(listed: seq<Transport>, id: Id): Option<Transport> {
    if listed == [] then None
    else if listed[0].id == id then Some(listed[0])
    else FindId(listed[1..], id)
  }

  /** `velta_pinned_transport`. */
  function Pinned(w: World): Option<Id> {
    if w.pinAddr == "" || w.pinAddr in w.paused then None else FindAddr(w.listed, w.pinAddr)
  }

  function Strict(w: World): bool {
    Pinned(w).Some? && w.strictFlag
  }

  /** `velta_pin_backed_off`. */
  function BackedOff(failed: map<Id, int>, pin: Id, now: int): bool {
    pin in failed && Elapsed(failed[pin], now) < PIN_BACKOFF
  }

  /** `velta_seed_send_failure`; `rows` are the transports with an smtp_failure row. */
  function Seeded(failed: map<Id, int>, pin: Option<Id>, rows: set<Id>, now: int): map<Id, int> {
    if pin.Some? && pin.value !in failed && pin.value in rows then failed[pin.value := now] else failed
  }

  function Unpaused(listed: seq<Transport>, paused: set<string>): seq<Transport> {
    if listed == [] then []
    else (if listed[0].addr in paused then [] else [listed[0]]) + Unpaused(listed[1..], paused)
  }

  function Only(ts: seq<Transport>, pin: Id): seq<Transport> {
    if ts == [] then []
    else (if ts[0].id == pin then [ts[0]] else []) + Only(ts[1..], pin)
  }

  function Position(ts: seq<Transport>, id: Id): Option<nat> {
    if ts == [] then None
    else if ts[0].id == id then Some(0)
    else
      var p := Position(ts[1..], id);
      if p.None? then None else Some(p.value + 1)
  }

  function MoveTo(ts: seq<Transport>, pos: nat, at: nat): seq<Transport>
    requires pos < |ts| && at < |ts|
  {
    var rest := ts[..pos] + ts[pos + 1..];
    rest[..at] + [ts[pos]] + rest[at..]
  }

  /** `velta_pin_first`. */
  function PinFirst(ts: seq<Transport>, pin: Option<Id>, backedOff: bool): seq<Transport> {
    if pin.None? then ts
    else
      var pos := Position(ts, pin.value);
      if pos.None? || pos.value >= |ts| then ts
      else MoveTo(ts, pos.value, if backedOff && |ts| > 1 then 1 else 0)
  }

  function Candidates(w: World, failed: map<Id, int>): seq<Transport> {
    var pin := Pinned(w);
    var ordered := PinFirst(Unpaused(w.listed, w.paused), pin, pin.Some? && BackedOff(failed, pin.value, w.now));
    if Strict(w) then Only(ordered, pin.value) else ordered
  }

  function Disconnected(s: State): State {
    s.(bound := None, shared := 0)
  }

  /** The four reasons to give up a live connection, in the program's order. */
  function GivesUp(s: State, w: World, failed: map<Id, int>): bool
    requires s.bound.Some?
  {
    var pin := Pinned(w);
    || w.stale
    || (pin.Some? && pin.value != s.bound.value && !BackedOff(failed, pin.value, w.now))
    || (Strict(w) && pin.value != s.bound.value)
    || (FindId(w.listed, s.bound.value).Some? && FindId(w.listed, s.bound.value).value.addr in w.paused)
  }

  function TryEach(s: State, ts: seq<Transport>, w: World): Result
    decreases |ts|
  {
    if ts == [] then Result(s, [], NobodyLeft)
    else
      var id := ts[0].id;
      match w.attempt(id)
      case Unusable => Result(s, [], Aborted)
      case Connects => Result(s.(bound := Some(id), shared := id, failed := s.failed - {id}), [id], Bound)
      case Refuses =>
        var r := TryEach(s.(failed := s.failed[id := w.at(id)]), ts[1..], w);
        Result(r.state, [id] + r.tried, r.outcome)
  }

  /** `connect_configured`. */
  function Connect(s: State, rows: set<Id>, w: World): Result {
    var s1 := s.(failed := Seeded(s.failed, Pinned(w), rows, w.now));
    if s.bound.Some? && !GivesUp(s, w, s1.failed) then Result(s1, [], Kept)
    else TryEach(if s.bound.Some? then Disconnected(s1) else s1, Candidates(w, s1.failed), w)
  }

  // ---------------------------------------------------------------- when strict mode holds

  predicate Lists(listed: seq<Transport>, addr: string) {
    exists k :: 0 <= k < |listed| && listed[k].addr == addr
  }

  lemma {:induction false} FindAddrExactlyWhen(listed: seq<Transport>, addr: string)
    ensures FindAddr(listed, addr).Some? <==> Lists(listed, addr)
  {
    if listed != [] {
      FindAddrExactlyWhen(listed[1..], addr);
      assert forall k :: 0 < k < |listed| ==> listed[k] == listed[1..][k - 1];
      if Lists(listed[1..], addr) {
        var k :| 0 <= k < |listed[1..]| && listed[1..][k].addr == addr;
        assert listed[k + 1].addr == addr;
      }
    }
  }

  /** "Only send via the pinned relay" holds exactly while the pin names a listed relay that is not
      paused; pausing the pin lifts it. */
  lemma StrictExactlyWhen(w: World)
    requires w.strictFlag
    ensures Strict(w) <==> w.pinAddr != "" && w.pinAddr !in w.paused && Lists(w.listed, w.pinAddr)
  {
    FindAddrExactlyWhen(w.listed, w.pinAddr);
  }

  /** So with the flag set and the pin paused, mail goes out over another relay. */
  lemma PausedPinSendsElsewhere(now: int)
    ensures var w := World([Transport(1, "a"), Transport(2, "b")], {"a"}, "a", true, now, false, id => Connects, id => now);
            w.strictFlag && Connect(State(None, 0, map[]), {}, w).state.bound == Some(2)
  {
    var w := World([Transport(1, "a"), Transport(2, "b")], {"a"}, "a", true, now, false, id => Connects, id => now);
    assert "a" != "b" by { assert "a"[0] != "b"[0]; }
    assert w.listed[1..] == [Transport(2, "b")] && w.listed[1..][1..] == [];
    assert Unpaused(w.listed[1..], w.paused) == [Transport(2, "b")];
    assert Unpaused(w.listed, w.paused) == [Transport(2, "b")];
    assert Candidates(w, map[]) == [Transport(2, "b")];
  }

  // ---------------------------------------------------------------- the pin's place

  function Others(ts: seq<Transport>, pin: Id): seq<Transport> {
    if ts == [] then []
    else (if ts[0].id == pin then [] else [ts[0]]) + Others(ts[1..], pin)
  }

  lemma {:induction false} OthersConcat(a: seq<Transport>, b: seq<Transport>, pin: Id)
    ensures Others(a + b, pin) == Others(a, pin) + Others(b, pin)
  {
    if a == [] {
      assert a + b == b;
    } else {
      assert (a + b)[1..] == a[1..] + b;
      OthersConcat(a[1..], b, pin);
    }
  }

  lemma {:induction false} PositionIs(ts: seq<Transport>, id: Id)
    ensures match Position(ts, id)
            case None => forall k :: 0 <= k < |ts| ==> ts[k].id != id
            case Some(p) => p < |ts| && ts[p].id == id
  {
    if ts != [] && ts[0].id != id {
      PositionIs(ts[1..], id);
      if Position(ts[1..], id).None? {
        forall k | 0 <= k < |ts| ensures ts[k].id != id {
          if k > 0 { assert ts[k] == ts[1..][k - 1]; }
        }
      }
    }
  }

  lemma AroundOne(a: seq<Transport>, b: seq<Transport>, t: Transport)
    ensures Others(a + ([t] + b), t.id) == Others(a + b, t.id)
    ensures multiset(a + ([t] + b)) == multiset(a + b) + multiset{t}
  {
    OthersConcat(a, [t] + b, t.id);
    OthersConcat([t], b, t.id);
    OthersConcat(a, b, t.id);
    assert Others([t], t.id) == [];
    hide Others;
    assert Others([t], t.id) + Others(b, t.id) == Others(b, t.id);
  }

  lemma MoveToIs(ts: seq<Transport>, p: nat, at: nat)
    requires p < |ts| && at < |ts|
    ensures var r := MoveTo(ts, p, at);
            multiset(r) == multiset(ts) && Others(r, ts[p].id) == Others(ts, ts[p].id) && |r| == |ts| && r[at] == ts[p]
  {
    var rest := ts[..p] + ts[p + 1..];
    var c, d := rest[..at], rest[at..];
    assert ts == ts[..p] + ([ts[p]] + ts[p + 1..]) && rest == c + d;
    assert MoveTo(ts, p, at) == c + ([ts[p]] + d);
    hide Others, MoveTo;
    AroundOne(ts[..p], ts[p + 1..], ts[p]);
    AroundOne(c, d, ts[p]);
  }

  /** `velta_pin_first` only moves the pin: a permutation that keeps the others in order, with the pin
      in front, or second while it backs off and there is somebody else. */
  lemma PinFirstMoves(ts: seq<Transport>, pin: Id, backedOff: bool)
    ensures var r := PinFirst(ts, Some(pin), backedOff);
            && multiset(r) == multiset(ts)
            && Others(r, pin) == Others(ts, pin)
            && (Position(ts, pin).Some? ==>
                  |r| > 0 && if backedOff && |ts| > 1 then |r| > 1 && r[1].id == pin else r[0].id == pin)
            && (Position(ts, pin).None? ==> r == ts)
  {
    PositionIs(ts, pin);
    if Position(ts, pin).Some? {
      MoveToIs(ts, Position(ts, pin).value, if backedOff && |ts| > 1 then 1 else 0);
    }
  }

  // ---------------------------------------------------------------- what may be bound

  lemma {:induction false} UnpausedMembers(listed: seq<Transport>, paused: set<string>, t: Transport)
    ensures t in Unpaused(listed, paused) <==> t in listed && t.addr !in paused
  {
    if listed != [] {
      UnpausedMembers(listed[1..], paused, t);
    }
  }

  lemma {:induction false} UnpausedIds(listed: seq<Transport>, paused: set<string>)
    requires Table(listed)
    ensures Table(Unpaused(listed, paused))
  {
    if listed != [] {
      assert Table(listed[1..]);
      UnpausedIds(listed[1..], paused);
      var rest := Unpaused(listed[1..], paused);
      forall k | 0 <= k < |rest| ensures rest[k].id != listed[0].id && rest[k].addr != listed[0].addr {
        UnpausedMembers(listed[1..], paused, rest[k]);
        var j :| 0 <= j < |listed[1..]| && listed[1..][j] == rest[k];
      }
    }
  }

  lemma {:induction false} OnlyMembers(ts: seq<Transport>, pin: Id, t: Transport)
    ensures t in Only(ts, pin) <==> t in ts && t.id == pin
  {
    if ts != [] {
      OnlyMembers(ts[1..], pin, t);
    }
  }

  /** The transports a call may use at all. */
  predicate Eligible(w: World, t: Transport) {
    t in w.listed && t.addr !in w.paused && (Strict(w) ==> t.id == Pinned(w).value)
  }

  lemma CandidatesAreEligible(w: World, failed: map<Id, int>, t: Transport)
    ensures t in Candidates(w, failed) <==> Eligible(w, t)
  {
    var kept := Unpaused(w.listed, w.paused);
    var pin := Pinned(w);
    UnpausedMembers(w.listed, w.paused, t);
    if pin.Some? {
      var backedOff := BackedOff(failed, pin.value, w.now);
      PinFirstMoves(kept, pin.value, backedOff);
      var ordered := PinFirst(kept, pin, backedOff);
      assert t in ordered <==> t in multiset(ordered);
      assert t in kept <==> t in multiset(kept);
      OnlyMembers(ordered, pin.value, t);
    }
  }

  lemma {:induction false} FindAddrIs(listed: seq<Transport>, addr: string)
    ensures FindAddr(listed, addr).Some? ==> Transport(FindAddr(listed, addr).value, addr) in listed
  {
    if listed != [] && listed[0].addr != addr {
      FindAddrIs(listed[1..], addr);
    }
  }

  lemma {:induction false} FindIdIs(listed: seq<Transport>, t: Transport)
    requires Table(listed) && t in listed
    ensures FindId(listed, t.id) == Some(t)
  {
    if listed[0] != t {
      var k :| 0 <= k < |listed| && listed[k] == t;
      assert listed[1..][k - 1] == t;
      assert Table(listed[1..]);
      FindIdIs(listed[1..], t);
    }
  }

  /** What the loop does: it tries a prefix of its list, in order, and stops at the first success. */
  lemma {:induction false} TryEachIs(s: State, ts: seq<Transport>, w: World)
    ensures var r := TryEach(s, ts, w);
            && |r.tried| <= |ts|
            && (forall k :: 0 <= k < |r.tried| ==> r.tried[k] == ts[k].id)
            && (forall k :: 0 <= k < |r.tried| - 1 ==> w.attempt(r.tried[k]) == Refuses)
            && (r.outcome == Bound ==>
                  r.tried != [] && r.state.bound == Some(r.tried[|r.tried| - 1])
                  && w.attempt(r.tried[|r.tried| - 1]) == Connects)
            && (r.outcome != Bound ==>
                  r.state.bound == s.bound && r.state.shared == s.shared
                  && forall k :: 0 <= k < |r.tried| ==> w.attempt(r.tried[k]) == Refuses)
            && (r.outcome == NobodyLeft ==> |r.tried| == |ts|)
            && (r.outcome == Aborted ==> |r.tried| < |ts| && w.attempt(ts[|r.tried|].id) == Unusable)
            && r.outcome != Kept
            && (r.outcome == Bound ==> r.state.shared == r.state.bound.value)
    decreases |ts|
  {
    if ts != [] && w.attempt(ts[0].id) == Refuses {
      var s1 := s.(failed := s.failed[ts[0].id := w.at(ts[0].id)]);
      TryEachIs(s1, ts[1..], w);
      var r1 := TryEach(s1, ts[1..], w);
      var r := TryEach(s, ts, w);
      forall k | 0 <= k < |r.tried| ensures r.tried[k] == ts[k].id {
        if k > 0 { assert r.tried[k] == r1.tried[k - 1]; }
      }
      forall k | 0 <= k < |r.tried| - 1 ensures w.attempt(r.tried[k]) == Refuses {
        if k > 0 { assert r.tried[k] == r1.tried[k - 1]; }
      }
      if r.outcome != Bound {
        forall k | 0 <= k < |r.tried| ensures w.attempt(r.tried[k]) == Refuses {
          if k > 0 { assert r.tried[k] == r1.tried[k - 1]; }
        }
      }
    }
  }

  lemma PinIsUnpaused(w: World) returns (t: Transport)
    requires Pinned(w).Some?
    ensures t.id == Pinned(w).value && t in Unpaused(w.listed, w.paused)
  {
    FindAddrIs(w.listed, w.pinAddr);
    t := Transport(Pinned(w).value, w.pinAddr);
    UnpausedMembers(w.listed, w.paused, t);
  }

  lemma {:induction false} PositionOf(ts: seq<Transport>, t: Transport)
    requires t in ts
    ensures Position(ts, t.id).Some?
  {
    if ts[0].id != t.id {
      assert t in ts[1..];
      PositionOf(ts[1..], t);
    }
  }

  /** A valid pin that is not backing off heads the list. */
  lemma PinHeads(w: World, failed: map<Id, int>)
    requires Pinned(w).Some? && !BackedOff(failed, Pinned(w).value, w.now)
    ensures Candidates(w, failed) != [] && Candidates(w, failed)[0].id == Pinned(w).value
  {
    var pin := Pinned(w).value;
    var kept := Unpaused(w.listed, w.paused);
    var t := PinIsUnpaused(w);
    PositionOf(kept, t);
    PinFirstMoves(kept, pin, false);
    var ordered := PinFirst(kept, Some(pin), false);
    if Strict(w) {
      assert Only(ordered, pin)[0] == ordered[0];
    }
  }

  /** Success is safe: the bound transport, if it is still configured, is not paused; in strict mode it
      is the pin; and whenever the pin was not backing off, it is the pin unless the pin was tried and
      refused in this very call. */
  lemma SuccessIsSafe(s: State, rows: set<Id>, w: World)
    requires Table(w.listed) && Connect(s, rows, w).outcome in {Kept, Bound}
    ensures var r := Connect(s, rows, w);
            var failed := Seeded(s.failed, Pinned(w), rows, w.now);
            && r.state.bound.Some?
            && (forall t :: t in w.listed && t.id == r.state.bound.value ==> t.addr !in w.paused)
            && (Strict(w) ==> r.state.bound == Pinned(w))
            && (Pinned(w).Some? && !BackedOff(failed, Pinned(w).value, w.now) ==>
                  || r.state.bound == Pinned(w)
                  || (Pinned(w).value in r.tried && w.attempt(Pinned(w).value) == Refuses))
  {
    var failed := Seeded(s.failed, Pinned(w), rows, w.now);
    var s1 := s.(failed := failed);
    var r := Connect(s, rows, w);
    var s2 := if s.bound.Some? then Disconnected(s1) else s1;
    TryEachIs(s2, Candidates(w, failed), w);
    if r.outcome == Kept {
      assert s.bound.Some? && !GivesUp(s, w, failed) && r.state == s1;
      forall t | t in w.listed && t.id == r.state.bound.value ensures t.addr !in w.paused {
        FindIdIs(w.listed, t);
      }
    } else {
      BoundIsSafe(s2, w, failed);
    }
  }

  lemma BoundIsSafe(s: State, w: World, failed: map<Id, int>)
    requires Table(w.listed) && TryEach(s, Candidates(w, failed), w).outcome == Bound
    ensures var r := TryEach(s, Candidates(w, failed), w);
            && r.state.bound.Some?
            && (forall t :: t in w.listed && t.id == r.state.bound.value ==> t.addr !in w.paused)
            && (Strict(w) ==> r.state.bound == Pinned(w))
            && (Pinned(w).Some? && !BackedOff(failed, Pinned(w).value, w.now) ==>
                  || r.state.bound == Pinned(w)
                  || (Pinned(w).value in r.tried && w.attempt(Pinned(w).value) == Refuses))
  {
    var ts := Candidates(w, failed);
    TryEachIs(s, ts, w);
    var r := TryEach(s, ts, w);
    var last := |r.tried| - 1;
    CandidatesAreEligible(w, failed, ts[last]);
    forall t | t in w.listed && t.id == r.state.bound.value ensures t.addr !in w.paused {
      FindIdIs(w.listed, t);
      FindIdIs(w.listed, ts[last]);
    }
    if Pinned(w).Some? && !BackedOff(failed, Pinned(w).value, w.now) {
      PinHeads(w, failed);
      assert r.tried[0] == Pinned(w).value;
    }
  }

  /** Failure is thorough: a call that fails has tried every eligible transport exactly once -
      exactly when none of them has unusable parameters, which would end the call early. */
  lemma FailureIsThorough(s: State, rows: set<Id>, w: World)
    requires Table(w.listed) && Connect(s, rows, w).outcome in {NobodyLeft, Aborted}
    ensures var r := Connect(s, rows, w);
            && r.state.bound == None
            && (forall j, k :: 0 <= j < k < |r.tried| ==> r.tried[j] != r.tried[k])
            && ((forall t :: Eligible(w, t) ==> t.id in r.tried)
                <==> (forall t :: Eligible(w, t) ==> w.attempt(t.id) == Refuses))
            && ((forall t :: Eligible(w, t) ==> t.id in r.tried)
                <==> !exists t :: Eligible(w, t) && w.attempt(t.id) == Unusable)
  {
    var failed := Seeded(s.failed, Pinned(w), rows, w.now);
    var s1 := s.(failed := failed);
    var s2 := if s.bound.Some? then Disconnected(s1) else s1;
    var ts := Candidates(w, failed);
    TryEachIs(s2, ts, w);
    var r := Connect(s, rows, w);
    assert r == TryEach(s2, ts, w);
    CandidatesDistinct(w, failed);
    forall t ensures t in ts <==> Eligible(w, t) {
      CandidatesAreEligible(w, failed, t);
    }
    if r.outcome == Aborted {
      assert Eligible(w, ts[|r.tried|]);
      assert ts[|r.tried|].id !in r.tried;
    } else {
      forall t | Eligible(w, t) ensures t.id in r.tried && w.attempt(t.id) == Refuses {
        var k :| 0 <= k < |ts| && ts[k] == t;
        assert r.tried[k] == t.id;
      }
    }
  }

  lemma CandidatesDistinct(w: World, failed: map<Id, int>)
    requires Table(w.listed)
    ensures DistinctIds(Candidates(w, failed))
  {
    var kept := Unpaused(w.listed, w.paused);
    UnpausedIds(w.listed, w.paused);
    var pin := Pinned(w);
    if pin.Some? {
      var backedOff := BackedOff(failed, pin.value, w.now);
      PinFirstDistinct(kept, pin.value, backedOff);
      OnlyDistinct(PinFirst(kept, pin, backedOff), pin.value);
    }
  }

  predicate DistinctIds(ts: seq<Transport>) {
    forall j, k :: 0 <= j < k < |ts| ==> ts[j].id != ts[k].id
  }

  lemma PinFirstDistinct(ts: seq<Transport>, pin: Id, backedOff: bool)
    requires DistinctIds(ts)
    ensures DistinctIds(PinFirst(ts, Some(pin), backedOff))
  {
    PositionIs(ts, pin);
    if Position(ts, pin).Some? {
      var p := Position(ts, pin).value;
      WithoutDistinct(ts, p);
      InsertedDistinct(ts[..p] + ts[p + 1..], ts[p], if backedOff && |ts| > 1 then 1 else 0);
    }
  }

  lemma WithoutDistinct(ts: seq<Transport>, p: nat)
    requires DistinctIds(ts) && p < |ts|
    ensures var rest := ts[..p] + ts[p + 1..];
            DistinctIds(rest) && forall k :: 0 <= k < |rest| ==> rest[k].id != ts[p].id
  {
    var rest := ts[..p] + ts[p + 1..];
    assert forall k :: 0 <= k < |rest| ==> rest[k] == if k < p then ts[k] else ts[k + 1];
  }

  lemma InsertedDistinct(rest: seq<Transport>, t: Transport, at: nat)
    requires DistinctIds(rest) && at <= |rest| && forall k :: 0 <= k < |rest| ==> rest[k].id != t.id
    ensures DistinctIds(rest[..at] + [t] + rest[at..])
  {
    var r := rest[..at] + [t] + rest[at..];
    assert forall k :: 0 <= k < |r| ==> r[k] == if k < at then rest[k] else if k == at then t else rest[k - 1];
  }

  lemma {:induction false} OnlyDistinct(ts: seq<Transport>, pin: Id)
    requires DistinctIds(ts)
    ensures |Only(ts, pin)| <= 1
  {
    if ts != [] {
      OnlyDistinct(ts[1..], pin);
      if ts[0].id == pin {
        OnlyNone(ts[1..], pin);
      }
    }
  }

  lemma {:induction false} OnlyNone(ts: seq<Transport>, pin: Id)
    requires forall k :: 0 <= k < |ts| ==> ts[k].id != pin
    ensures Only(ts, pin) == []
  {
    if ts != [] {
      OnlyNone(ts[1..], pin);
    }
  }

  // ---------------------------------------------------------------- the order of the attempts

  predicate Precedes(ts: seq<Transport>, a: Transport, b: Transport) {
    exists j, k :: 0 <= j < k < |ts| && ts[j] == a && ts[k] == b
  }

  lemma PrecedesHead(ts: seq<Transport>, a: Transport, b: Transport)
    requires ts != []
    ensures Precedes(ts, a, b) <==> (ts[0] == a && b in ts[1..]) || Precedes(ts[1..], a, b)
  {
    if Precedes(ts[1..], a, b) {
      var j, k :| 0 <= j < k < |ts[1..]| && ts[1..][j] == a && ts[1..][k] == b;
      assert ts[j + 1] == a && ts[k + 1] == b;
    }
    if ts[0] == a && b in ts[1..] {
      var k :| 0 <= k < |ts[1..]| && ts[1..][k] == b;
      assert ts[k + 1] == b;
    }
    if Precedes(ts, a, b) {
      var j, k :| 0 <= j < k < |ts| && ts[j] == a && ts[k] == b;
      assert ts[1..][k - 1] == b;
      if j > 0 { assert ts[1..][j - 1] == a; }
    }
  }

  /** Leaving the paused ones out keeps the others as they are listed. */
  lemma {:induction false} UnpausedOrder(listed: seq<Transport>, paused: set<string>, a: Transport, b: Transport)
    ensures Precedes(Unpaused(listed, paused), a, b) <==> Precedes(listed, a, b) && a.addr !in paused && b.addr !in paused
  {
    if listed != [] {
      var rest := Unpaused(listed[1..], paused);
      UnpausedOrder(listed[1..], paused, a, b);
      UnpausedMembers(listed[1..], paused, b);
      UnpausedMembers(listed, paused, a);
      PrecedesHead(listed, a, b);
      if listed[0].addr !in paused {
        PrecedesHead(Unpaused(listed, paused), a, b);
        assert Unpaused(listed, paused)[1..] == rest;
      } else {
        assert Unpaused(listed, paused) == rest;
      }
      hide Precedes;
    }
  }

  lemma {:induction false} OthersMembers(ts: seq<Transport>, pin: Id, t: Transport)
    ensures t in Others(ts, pin) <==> t in ts && t.id != pin
  {
    if ts != [] {
      OthersMembers(ts[1..], pin, t);
    }
  }

  lemma {:induction false} OthersOrder(ts: seq<Transport>, pin: Id, a: Transport, b: Transport)
    ensures Precedes(Others(ts, pin), a, b) <==> Precedes(ts, a, b) && a.id != pin && b.id != pin
  {
    if ts != [] {
      OthersOrder(ts[1..], pin, a, b);
      OthersMembers(ts[1..], pin, b);
      PrecedesHead(ts, a, b);
      if ts[0].id != pin {
        PrecedesHead(Others(ts, pin), a, b);
        assert Others(ts, pin)[1..] == Others(ts[1..], pin);
      } else {
        assert Others(ts, pin) == Others(ts[1..], pin);
      }
      hide Precedes;
    }
  }

  /** All but the pin are tried in the order in which they are listed. */
  lemma CandidatesInOrder(w: World, failed: map<Id, int>, a: Transport, b: Transport)
    requires Eligible(w, a) && Eligible(w, b) && Pinned(w) != Some(a.id) && Pinned(w) != Some(b.id)
    requires Precedes(w.listed, a, b)
    ensures Precedes(Candidates(w, failed), a, b)
  {
    var kept := Unpaused(w.listed, w.paused);
    UnpausedOrder(w.listed, w.paused, a, b);
    if Pinned(w).Some? {
      var pin := Pinned(w).value;
      var backedOff := BackedOff(failed, pin, w.now);
      PinFirstMoves(kept, pin, backedOff);
      OthersOrder(kept, pin, a, b);
      OthersOrder(PinFirst(kept, Some(pin), backedOff), pin, a, b);
    }
    hide Precedes, Others, Unpaused, PinFirst;
  }

  /** Relay k is the first one of the list that is not paused and does not refuse, and it connects. */
  predicate FirstToConnect(w: World, ts: seq<Transport>, k: nat) {
    && k < |ts| && w.attempt(ts[k].id) == Connects
    && forall j :: 0 <= j < k ==> w.attempt(ts[j].id) == Refuses
  }

  lemma {:induction false} TryEachBinds(s: State, ts: seq<Transport>, w: World, k: nat)
    requires k < |ts| && forall i, j :: 0 <= i < j < |ts| ==> ts[i].id != ts[j].id
    ensures FirstToConnect(w, ts, k) <==>
            TryEach(s, ts, w).outcome == Bound && TryEach(s, ts, w).state.bound == Some(ts[k].id)
    decreases |ts|
  {
    if w.attempt(ts[0].id) == Refuses {
      var s1 := s.(failed := s.failed[ts[0].id := w.at(ts[0].id)]);
      if k > 0 {
        assert forall i :: 0 < i < |ts| ==> ts[1..][i - 1] == ts[i];
        TryEachBinds(s1, ts[1..], w, k - 1);
        assert FirstToConnect(w, ts, k) <==> FirstToConnect(w, ts[1..], k - 1);
      } else {
        NeverBindsHead(s1, ts[1..], w, ts[0].id);
      }
    }
  }

  lemma NeverBindsHead(s: State, ts: seq<Transport>, w: World, id: Id)
    requires forall j :: 0 <= j < |ts| ==> ts[j].id != id
    ensures !(TryEach(s, ts, w).outcome == Bound && TryEach(s, ts, w).state.bound == Some(id))
  {
    TryEachIs(s, ts, w);
  }

  lemma {:induction false} UnpausedFirst(w: World, listed: seq<Transport>, k: nat)
    requires k < |listed|
    ensures (exists i: nat :: FirstToConnect(w, Unpaused(listed, w.paused), i)
                              && Unpaused(listed, w.paused)[i] == listed[k])
            <== listed[k].addr !in w.paused && w.attempt(listed[k].id) == Connects
                && forall j :: 0 <= j < k && listed[j].addr !in w.paused ==> w.attempt(listed[j].id) == Refuses
  {
    var kept := Unpaused(listed, w.paused);
    if listed[k].addr !in w.paused && w.attempt(listed[k].id) == Connects
       && forall j :: 0 <= j < k && listed[j].addr !in w.paused ==> w.attempt(listed[j].id) == Refuses {
      if k == 0 {
        assert kept[0] == listed[0] && FirstToConnect(w, kept, 0);
      } else {
        assert forall j :: 0 <= j < |listed| - 1 ==> listed[1..][j] == listed[j + 1];
        UnpausedFirst(w, listed[1..], k - 1);
        var rest := Unpaused(listed[1..], w.paused);
        var i: nat :| FirstToConnect(w, rest, i) && rest[i] == listed[1..][k - 1];
        if listed[0].addr in w.paused {
          assert kept == rest;
        } else {
          assert kept == [listed[0]] + rest;
          assert FirstToConnect(w, kept, i + 1);
        }
      }
    }
  }

  /** The relay on place k may be used and connects, and all usable ones listed before it refuse. */
  predicate FirstListed(w: World, k: nat)
    requires k < |w.listed|
  {
    && w.listed[k].addr !in w.paused && w.attempt(w.listed[k].id) == Connects
    && forall j :: 0 <= j < k && w.listed[j].addr !in w.paused ==> w.attempt(w.listed[j].id) == Refuses
  }

  lemma UnpausedBefore(w: World, i: nat, j: nat, k: nat)
    requires Table(w.listed) && j < k < |w.listed| && w.listed[j].addr !in w.paused
    requires var kept := Unpaused(w.listed, w.paused); i < |kept| && kept[i] == w.listed[k]
    ensures exists m :: 0 <= m < i && Unpaused(w.listed, w.paused)[m] == w.listed[j]
  {
    var kept := Unpaused(w.listed, w.paused);
    UnpausedMembers(w.listed, w.paused, kept[i]);
    UnpausedIds(w.listed, w.paused);
    UnpausedOrder(w.listed, w.paused, w.listed[j], w.listed[k]);
    hide Unpaused;
    assert Precedes(w.listed, w.listed[j], w.listed[k]);
    var m, n :| 0 <= m < n < |kept| && kept[m] == w.listed[j] && kept[n] == w.listed[k];
    assert n == i;
  }

  /** Without a pin, and without a live connection to keep: a call binds a relay exactly when that is the
      first in upstream's order, among those not paused, that connects, all before it having refused. */
  lemma BindsFirstListed(s: State, rows: set<Id>, w: World, k: nat)
    requires Table(w.listed) && k < |w.listed| && Pinned(w).None? && Connect(s, rows, w).outcome != Kept
    ensures FirstListed(w, k) <==>
            Connect(s, rows, w).outcome == Bound && Connect(s, rows, w).state.bound == Some(w.listed[k].id)
  {
    var s2 := if s.bound.Some? then Disconnected(s) else s;
    var kept := Unpaused(w.listed, w.paused);
    UnpausedIds(w.listed, w.paused);
    assert Connect(s, rows, w) == TryEach(s2, kept, w);
    var r := TryEach(s2, kept, w);
    if FirstListed(w, k) {
      UnpausedFirst(w, w.listed, k);
      var i: nat :| FirstToConnect(w, kept, i) && kept[i] == w.listed[k];
      TryEachBinds(s2, kept, w, i);
    } else if r.outcome == Bound && r.state.bound == Some(w.listed[k].id) {
      TryEachIs(s2, kept, w);
      var i := |r.tried| - 1;
      UnpausedMembers(w.listed, w.paused, kept[i]);
      var n :| 0 <= n < |w.listed| && w.listed[n] == kept[i];
      assert n == k;
      forall j | 0 <= j < k && w.listed[j].addr !in w.paused ensures w.attempt(w.listed[j].id) == Refuses {
        UnpausedBefore(w, i, j, k);
        var m :| 0 <= m < i && kept[m] == w.listed[j];
        assert r.tried[m] == kept[m].id;
      }
    }
  }

  // ---------------------------------------------------------------- what a call keeps and notes

  /** A live connection is kept exactly when the network is unchanged, no other relay is the pin unless
      that one failed in the last five minutes and the pin is not strict, and its own relay, if still
      listed, is not paused. */
  lemma KeptExactlyWhen(s: State, rows: set<Id>, w: World)
    requires Table(w.listed)
    ensures var failed := Seeded(s.failed, Pinned(w), rows, w.now);
            Connect(s, rows, w).outcome == Kept <==>
            && s.bound.Some? && !w.stale
            && (forall pin :: Pinned(w) == Some(pin) && pin != s.bound.value ==>
                  !w.strictFlag && pin in failed && Elapsed(failed[pin], w.now) < 5 * 60 * 1000)
            && (forall t :: t in w.listed && t.id == s.bound.value ==> t.addr !in w.paused)
  {
    var failed := Seeded(s.failed, Pinned(w), rows, w.now);
    var s1 := s.(failed := failed);
    if s.bound.Some? {
      var t := FindId(w.listed, s.bound.value);
      FindIdHas(w.listed, s.bound.value);
      forall t | t in w.listed && t.id == s.bound.value ensures FindId(w.listed, s.bound.value) == Some(t) {
        FindIdIs(w.listed, t);
      }
    }
    TryEachIs(if s.bound.Some? then Disconnected(s1) else s1, Candidates(w, failed), w);
    hide TryEach, Candidates, FindId;
  }

  lemma {:induction false} FindIdHas(listed: seq<Transport>, id: Id)
    ensures FindId(listed, id).Some? ==> FindId(listed, id).value in listed && FindId(listed, id).value.id == id
  {
    if listed != [] && listed[0].id != id {
      FindIdHas(listed[1..], id);
    }
  }

  /** What is remembered of the attempts: each refusal with its instant, a success clears the relay's, and
      nothing else changes. */
  lemma {:induction false} AttemptsAreNoted(s: State, ts: seq<Transport>, w: World, id: Id)
    requires DistinctIds(ts)
    ensures var r := TryEach(s, ts, w);
            && (id in r.tried && w.attempt(id) == Refuses ==> id in r.state.failed && r.state.failed[id] == w.at(id))
            && (id in r.tried && w.attempt(id) == Connects ==> id !in r.state.failed)
            && (id !in r.tried ==> (id in r.state.failed <==> id in s.failed)
                                   && (id in s.failed ==> r.state.failed[id] == s.failed[id]))
    decreases |ts|
  {
    if ts != [] && w.attempt(ts[0].id) == Refuses {
      var s1 := s.(failed := s.failed[ts[0].id := w.at(ts[0].id)]);
      assert forall k :: 0 < k < |ts| ==> ts[1..][k - 1] == ts[k];
      AttemptsAreNoted(s1, ts[1..], w, id);
      if id == ts[0].id {
        TryEachIs(s1, ts[1..], w);
      }
    }
  }
}
