/** The `Smtp` object of the sending loop: its fields updated in place, each method tied to the function
    that specifies it. */
module SmtpObject {
  import opened Options
  import opened Smtp
  import opened SmtpRuns

  class Loop {
    var bound: Option<Id>
    var shared: nat
    var failed: map<Id, int>

    function Snap(): State
      reads this
    {
      State(bound, shared, failed)
    }

    constructor ()
      ensures Snap() == State(None, 0, map[])
    {
      bound, shared, failed := None, 0, map[];
    }

    method Disconnect()
      modifies this`bound, this`shared
      ensures Snap() == Disconnected(old(Snap()))
    {
      bound := None;
      shared := 0;
    }

    /** `velta_note_send_failure` and the disconnect that follows a failed send. */
    method SendRejected(ghost sys: System, now: int, recorded: bool)
      requires sys.conn == Snap() && bound.Some?
      modifies this
      ensures Snap() == Apply(sys, Rejected(now, recorded)).conn
    {
      failed := failed[bound.value := now];
      Disconnect();
    }

    method SeedSendFailure(pin: Option<Id>, rows: set<Id>, now: int)
      modifies this`failed
      ensures Snap() == old(Snap()).(failed := Seeded(old(failed), pin, rows, now))
    {
      if pin.None? || pin.value in failed {
        return;
      }
      if pin.value in rows {
        failed := failed[pin.value := now];
      }
    }

    method ConnectConfigured(rows: set<Id>, w: World) returns (tried: seq<Id>, outcome: Outcome)
      modifies this
      ensures Result(Snap(), tried, outcome) == Connect(old(Snap()), rows, w)
    {
      tried := [];
      if bound.Some? && w.stale {
        Disconnect();
      }
      var pin := Pinned(w);
      SeedSendFailure(pin, rows, w.now);
      if pin.Some? && bound.Some? && pin != bound && !BackedOff(failed, pin.value, w.now) {
        Disconnect();
      }
      var strict := pin.Some? && w.strictFlag;
      if strict && bound.Some? && pin != bound {
        Disconnect();
      }
      if bound.Some? {
        var t := FindId(w.listed, bound.value);
        if t.Some? && t.value.addr in w.paused {
          Disconnect();
        }
      }
      if bound.Some? {
        outcome := Kept;
        return;
      }
      var transports := Unpaused(w.listed, w.paused);
      transports := MovePin(transports, pin, w.now);
      if strict {
        transports := Only(transports, pin.value);
      }
      tried, outcome := TryTransports(transports, w);
    }

    /** `velta_pin_first`: find the pin, take it out, put it back in front or second. */
    method MovePin(transports: seq<Transport>, pin: Option<Id>, now: int) returns (r: seq<Transport>)
      ensures r == PinFirst(transports, pin, pin.Some? && BackedOff(failed, pin.value, now))
    {
      if pin.None? {
        return transports;
      }
      var pos := 0;
      while pos < |transports| && transports[pos].id != pin.value
        invariant 0 <= pos <= |transports|
        invariant Position(transports, pin.value) == Shift(Position(transports[pos..], pin.value), pos)
      {
        assert transports[pos..][1..] == transports[pos + 1..];
        pos := pos + 1;
      }
      if pos == |transports| {
        return transports;
      }
      assert transports[pos..][0] == transports[pos];
      var rest := transports[..pos] + transports[pos + 1..];
      var at := if !BackedOff(failed, pin.value, now) then 0 else if |rest| < 1 then |rest| else 1;
      r := rest[..at] + [transports[pos]] + rest[at..];
    }

    /** The loop of `connect_configured`. */
    method TryTransports(transports: seq<Transport>, w: World) returns (tried: seq<Id>, outcome: Outcome)
      modifies this
      ensures Result(Snap(), tried, outcome) == TryEach(old(Snap()), transports, w)
    {
      hide TryEach;
      tried := [];
      var k := 0;
      assert transports[0..] == transports;
      while k < |transports|
        invariant 0 <= k <= |transports|
        invariant TryEach(old(Snap()), transports, w) == After(tried, TryEach(Snap(), transports[k..], w))
      {
        var id := transports[k].id;
        assert transports[k..][0] == transports[k] && transports[k..][1..] == transports[k + 1..];
        TryFirst(Snap(), transports[k..], w);
        match w.attempt(id) {
          case Unusable =>
            outcome := Aborted;
            return;
          case Connects =>
            bound := Some(id);
            shared := id;
            failed := failed - {id};
            tried := tried + [id];
            outcome := Bound;
            return;
          case Refuses =>
            failed := failed[id := w.at(id)];
            AfterOne(tried, id, TryEach(Snap(), transports[k + 1..], w));
            tried := tried + [id];
        }
        k := k + 1;
      }
      TryNone(Snap(), w);
      outcome := NobodyLeft;
    }
  }

  /** The result when these were tried before. */
  function After(tried: seq<Id>, r: Result): Result {
    Result(r.state, tried + r.tried, r.outcome)
  }

  lemma AfterOne(tried: seq<Id>, id: Id, r: Result)
    ensures After(tried, After([id], r)) == After(tried + [id], r)
  {
    assert tried + ([id] + r.tried) == tried + [id] + r.tried;
  }

  lemma TryNone(s: State, w: World)
    ensures TryEach(s, [], w) == Result(s, [], NobodyLeft)
  {
  }

  lemma TryFirst(s: State, ts: seq<Transport>, w: World)
    requires ts != []
    ensures var id := ts[0].id;
            TryEach(s, ts, w) ==
            match w.attempt(id)
            case Unusable => Result(s, [], Aborted)
            case Connects => Result(s.(bound := Some(id), shared := id, failed := s.failed - {id}), [id], Bound)
            case Refuses => After([id], TryEach(s.(failed := s.failed[id := w.at(id)]), ts[1..], w))
  {
  }

  function Shift(p: Option<nat>, offset: nat): Option<nat> {
    if p.None? then None else Some(p.value + offset)
  }
}
