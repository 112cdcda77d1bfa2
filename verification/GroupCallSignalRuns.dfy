/** What group-call signalling makes of each message (app/js/group-call-signal.js), exactly, and which of
    a participant's sessions is listed after any run. */
module GroupCallSignalRuns {
  import opened Numbers
  import opened Options
  import opened Roster
  import opened GroupCallSignal

  // ------------------------------------------------ one message

  predicate OwnEcho(s: Signal, m: Msg) {
    m.sender == s.selfId && m.sid == s.sid
  }

  /** The join time a presence message states: the present if it states none. */
  function Stated(m: Msg, now: int): int {
    if m.at != 0 then m.at else now
  }

  /** As of when it proves its sender present: at once over realtime; a status update, which may be old,
      by its time stamp or join time, but never in the future. */
  function ProvenAt(m: Msg, via: Via, now: int): int {
    if via == Rt then now
    else
      var stamp := if m.ts != 0 then m.ts else Stated(m, now);
      if stamp < now then stamp else now
  }

  predicate IsPresence(m: Msg) {
    m.kind == Join || m.kind == Heartbeat
  }

  /** A presence message of another session takes the listed session's place exactly when that one has
      not joined later; then everything the entry says is of the new session, and nothing else changes. */
  lemma PresenceTakesOver(s: Signal, m: Msg, via: Via, now: int)
    requires IsPresence(m) && !OwnEcho(s, m) && m.sender in s.members && s.members[m.sender].sid != m.sid
    ensures var o := Ingest(s, m, via, now);
            && m.sender in o.state.members
            && (o.state.members[m.sender].sid == m.sid <==> s.members[m.sender].at <= Stated(m, now))
            && o.changed == (s.members[m.sender].at <= Stated(m, now)) && !o.delivered
            && (o.changed ==>
                  o.state == s.(members := s.members[m.sender :=
                    Entry(m.sid, Stated(m, now), ProvenAt(m, via, now), m.rt || via == Rt)]))
            && (!o.changed ==> o.state == s)
  {
  }

  lemma NewcomerIsListed(s: Signal, m: Msg, via: Via, now: int)
    requires IsPresence(m) && !OwnEcho(s, m) && m.sender !in s.members
    ensures Ingest(s, m, via, now)
            == Outcome(s.(members := s.members[m.sender :=
                         Entry(m.sid, Stated(m, now), ProvenAt(m, via, now), m.rt || via == Rt)]), true, false)
  {
  }

  /** A presence message of the listed session leaves its join time, moves what was last seen of it only
      forward, and lets a realtime copy say that it has realtime. */
  lemma SameSessionStays(s: Signal, m: Msg, via: Via, now: int)
    requires IsPresence(m) && !OwnEcho(s, m) && m.sender in s.members && s.members[m.sender].sid == m.sid
    ensures var o, e := Ingest(s, m, via, now), s.members[m.sender];
            && o.state.members.Keys == s.members.Keys && o.state == s.(members := o.state.members)
            && (forall id :: id in s.members && id != m.sender ==> o.state.members[id] == s.members[id])
            && o.changed == (m.kind == Join) && !o.delivered
            && var e1 := o.state.members[m.sender];
               && e1.sid == e.sid && e1.at == e.at && e1.rt == (e.rt || via == Rt)
               && e1.seen >= e.seen && e1.seen >= ProvenAt(m, via, now) && e1.seen in {e.seen, ProvenAt(m, via, now)}
  {
  }

  /** A leave takes exactly the session it names off the list. */
  lemma LeaveUnlists(s: Signal, m: Msg, via: Via, now: int)
    requires m.kind == Leave && !OwnEcho(s, m)
    ensures var o := Ingest(s, m, via, now);
            && o.changed == (m.sender in s.members && s.members[m.sender].sid == m.sid) && !o.delivered
            && o.state == s.(members := o.state.members)
            && o.state.members.Keys == s.members.Keys - (if o.changed then {m.sender} else {})
            && forall id :: id in o.state.members ==> o.state.members[id] == s.members[id]
  {
  }

  /** An offer or answer tells where to answer, and that its sender is there, and changes nothing else. */
  lemma SignalLeaves(s: Signal, m: Msg, via: Via, now: int)
    requires m.kind in {Offer, Answer} && !OwnEcho(s, m)
    ensures var o := Ingest(s, m, via, now);
            && !o.changed
            && o.state == s.(members := o.state.members, seenSig := o.state.seenSig, offerVia := o.state.offerVia)
            && o.state.seenSig == (if m.to == s.selfId then s.seenSig + {KeyOf(m, via)} else s.seenSig)
            && o.state.offerVia == (if o.delivered && m.kind == Offer then s.offerVia[m.sender := via] else s.offerVia)
            && o.state.members.Keys == s.members.Keys
            && (forall id :: id in s.members ==>
                  o.state.members[id] == if o.delivered && id == m.sender && s.members[id].seen < now
                                         then s.members[id].(seen := now) else s.members[id])
  {
  }

  lemma NothingElseCounts(s: Signal, m: Msg, via: Via, now: int)
    requires m.kind == Meta || OwnEcho(s, m)
    ensures Ingest(s, m, via, now) == Outcome(s, false, false)
  {
  }

  /** When the host is told that the roster may have changed: a join, a session listed or unlisted. */
  lemma ChangedExactlyWhen(s: Signal, m: Msg, via: Via, now: int)
    ensures var o := Ingest(s, m, via, now);
            var before := if m.sender in s.members then Some(s.members[m.sender].sid) else None;
            var after := if m.sender in o.state.members then Some(o.state.members[m.sender].sid) else None;
            o.changed <==> before != after || (m.kind == Join && before == Some(m.sid) && !OwnEcho(s, m))
  {
    hide IngestSignal, IngestPresence, IngestLeave, Stated, ProvenAt;
    if m.kind == Meta || OwnEcho(s, m) {
      NothingElseCounts(s, m, via, now);
    } else if m.kind in {Offer, Answer} {
      SignalLeaves(s, m, via, now);
    } else if m.kind == Leave {
      LeaveUnlists(s, m, via, now);
    } else if m.sender !in s.members {
      NewcomerIsListed(s, m, via, now);
    } else if s.members[m.sender].sid == m.sid {
      SameSessionStays(s, m, via, now);
    } else {
      PresenceTakesOver(s, m, via, now);
    }
    hide Ingest;
  }

  /** What we do ourselves touches our own entry only. */
  lemma OwnSteps(s: Signal, now: int)
    ensures var j := Apply(s, DoJoin(now));
            && j.joined && j.lastUpdateHb == now && j.members == s.members[s.selfId := Entry(s.sid, now, now, s.rt)]
            && j == s.(members := j.members, joined := true, lastUpdateHb := now)
    ensures var l := Apply(s, DoLeave);
            && !l.joined && l == s.(members := l.members, joined := false)
            && l.members == if s.joined then s.members - {s.selfId} else s.members
    ensures var (b, update) := Beat(s, now);
            && b == s.(members := b.members, lastUpdateHb := b.lastUpdateHb)
            && (update <==> s.joined && now - s.lastUpdateHb >= HEARTBEAT_UPDATE)
            && b.lastUpdateHb == (if update then now else s.lastUpdateHb)
            && b.members.Keys == s.members.Keys
            && (forall id :: id in s.members ==>
                  b.members[id] == if s.joined && id == s.selfId then s.members[id].(seen := now) else s.members[id])
  {
  }

  // ------------------------------------------------ how an offer travels

  /** Between two that have realtime the first try goes by realtime alone and a retry by both; with
      anybody else every try goes by status update alone. */
  lemma OfferTravels(s: Signal, m: Msg)
    requires m.kind == Offer
    ensures var both := s.rt && m.to in s.members && s.members[m.to].rt;
            && (RouteOf(s, m) == Route(true, false) <==> both && m.attempt < 2)
            && (RouteOf(s, m) == Route(true, true) <==> both && m.attempt >= 2)
            && (RouteOf(s, m) == Route(false, true) <==> !both)
  {
  }

  // ------------------------------------------------ which session is listed

  /** The step tells of a session of `id`. */
  predicate Tells(step: Step, id: Id) {
    step.Receive? && IsPresence(step.m) && step.m.sender == id
  }

  /** The step ends the session of `id` that is listed. */
  predicate EndsListed(s: Signal, step: Step, id: Id) {
    step.Receive? && step.m.kind == Leave && step.m.sender == id && id in s.members && s.members[id].sid == step.m.sid
  }

  /** Each session of `id` states one join time in all it says. */
  predicate OneJoinTime(steps: seq<Step>, id: Id, joinedAt: string -> int) {
    forall k :: 0 <= k < |steps| && Tells(steps[k], id) ==> Stated(steps[k].m, steps[k].now) == joinedAt(steps[k].m.sid)
  }

  /** Of all the sessions of `id` the steps tell of, the k-th step's joined last; of several that joined at
      one instant it is the one heard last. */
  predicate Newest(steps: seq<Step>, id: Id, joinedAt: string -> int, k: nat) {
    && k < |steps| && Tells(steps[k], id)
    && (forall j :: 0 <= j < |steps| && Tells(steps[j], id) ==> joinedAt(steps[j].m.sid) <= joinedAt(steps[k].m.sid))
    && (forall j :: k < j < |steps| && Tells(steps[j], id) && joinedAt(steps[j].m.sid) == joinedAt(steps[k].m.sid) ==>
          steps[j].m.sid == steps[k].m.sid)
  }

  ghost predicate ListsNewest(s: Signal, steps: seq<Step>, id: Id, joinedAt: string -> int) {
    && (id in s.members <==> exists k :: 0 <= k < |steps| && Tells(steps[k], id))
    && (id in s.members ==>
          && s.members[id].at == joinedAt(s.members[id].sid)
          && exists k: nat :: Newest(steps, id, joinedAt, k) && steps[k].m.sid == s.members[id].sid)
  }

  /** What one step makes of the listed session. */
  lemma SessionStep(s: Signal, step: Step, id: Id)
    requires id != s.selfId && !EndsListed(s, step, id)
    ensures var r := Apply(s, step);
            && r.selfId == s.selfId
            && (if Tells(step, id) then
                  && id in r.members
                  && if id in s.members && (s.members[id].sid == step.m.sid || s.members[id].at > Stated(step.m, step.now))
                     then r.members[id].sid == s.members[id].sid && r.members[id].at == s.members[id].at
                     else r.members[id].sid == step.m.sid && r.members[id].at == Stated(step.m, step.now)
                else
                  && (id in r.members <==> id in s.members)
                  && (id in s.members ==> r.members[id].sid == s.members[id].sid && r.members[id].at == s.members[id].at))
  {
    StepIdentity(s, step);
    if step.Receive? {
      var (m, via, now) := (step.m, step.via, step.now);
      hide IngestSignal, IngestPresence, IngestLeave;
      if m.kind == Meta || OwnEcho(s, m) {
        NothingElseCounts(s, m, via, now);
      } else if m.kind in {Offer, Answer} {
        SignalLeaves(s, m, via, now);
      } else if m.kind == Leave {
        LeaveUnlists(s, m, via, now);
      } else if m.sender !in s.members {
        NewcomerIsListed(s, m, via, now);
      } else if s.members[m.sender].sid == m.sid {
        SameSessionStays(s, m, via, now);
      } else {
        PresenceTakesOver(s, m, via, now);
      }
      hide Ingest;
    }
  }

  /** However late, often and out of order messages come: unless the listed session itself takes leave,
      an id is listed once it was heard of, with the session that joined last of all it was heard from. */
  lemma {:induction false} LatestSessionIsListed(s: Signal, steps: seq<Step>, id: Id, joinedAt: string -> int)
    requires id != s.selfId && id !in s.members
    requires OneJoinTime(steps, id, joinedAt)
    requires forall i :: 0 <= i < |steps| ==> !EndsListed(Run(s, steps[..i]), steps[i], id)
    ensures ListsNewest(Run(s, steps), steps, id, joinedAt) && Run(s, steps).selfId == s.selfId
    decreases |steps|
  {
    if steps != [] {
      var n := |steps| - 1;
      var front := steps[..n];
      forall i | 0 <= i < n ensures !EndsListed(Run(s, front[..i]), front[i], id) {
        assert front[..i] == steps[..i] && front[i] == steps[i];
      }
      assert OneJoinTime(front, id, joinedAt) by {
        forall k | 0 <= k < n && Tells(front[k], id)
          ensures Stated(front[k].m, front[k].now) == joinedAt(front[k].m.sid) { assert front[k] == steps[k]; }
      }
      LatestSessionIsListed(s, front, id, joinedAt);
      assert steps == front + [steps[n]];
      RunAppend(s, front, steps[n]);
      SessionStep(Run(s, front), steps[n], id);
      hide Run, Apply;
      OneMoreHeard(Run(s, front), Run(s, steps), steps, id, joinedAt);
    }
  }

  lemma OneMoreHeard(s: Signal, r: Signal, steps: seq<Step>, id: Id, joinedAt: string -> int)
    requires steps != [] && OneJoinTime(steps, id, joinedAt)
    requires ListsNewest(s, steps[..|steps| - 1], id, joinedAt)
    requires var step := steps[|steps| - 1];
             if Tells(step, id) then
               && id in r.members
               && if id in s.members && (s.members[id].sid == step.m.sid || s.members[id].at > Stated(step.m, step.now))
                  then r.members[id].sid == s.members[id].sid && r.members[id].at == s.members[id].at
                  else r.members[id].sid == step.m.sid && r.members[id].at == Stated(step.m, step.now)
             else
               && (id in r.members <==> id in s.members)
               && (id in s.members ==> r.members[id].sid == s.members[id].sid && r.members[id].at == s.members[id].at)
    ensures ListsNewest(r, steps, id, joinedAt)
  {
    var n := |steps| - 1;
    var front, step := steps[..n], steps[n];
    if id in s.members {
      var k: nat :| Newest(front, id, joinedAt, k) && front[k].m.sid == s.members[id].sid;
      assert steps[k] == front[k];
      if Tells(step, id) && !(s.members[id].sid == step.m.sid || s.members[id].at > Stated(step.m, step.now)) {
        forall j | 0 <= j < |steps| && Tells(steps[j], id) ensures joinedAt(steps[j].m.sid) <= joinedAt(step.m.sid) {
          if j < n { assert front[j] == steps[j]; }
        }
        assert Newest(steps, id, joinedAt, n);
      } else {
        forall j | 0 <= j < |steps| && Tells(steps[j], id)
          ensures joinedAt(steps[j].m.sid) <= joinedAt(steps[k].m.sid)
          ensures j > k && joinedAt(steps[j].m.sid) == joinedAt(steps[k].m.sid) ==> steps[j].m.sid == steps[k].m.sid
        {
          if j < n { assert front[j] == steps[j]; }
        }
        assert Newest(steps, id, joinedAt, k);
      }
    } else {
      forall j | 0 <= j < n ensures !Tells(steps[j], id) { assert front[j] == steps[j]; }
      if Tells(step, id) {
        assert Newest(steps, id, joinedAt, n);
      }
    }
  }

  // ------------------------------------------------ dropping out without realtime

  /** A member that has no realtime, or is watched without, drops out after 240 s of silence. */
  lemma StatusDropsExactlyWhen(s: Signal, steps: seq<Step>, id: Id, now: int, connected: set<Id>)
    requires SessionStays(s, steps, id) && id != s.selfId
    requires id in Run(s, steps).members && (s.statusOnly || !Run(s, steps).members[id].rt)
    ensures Listed(Run(s, steps), id, now, connected) <==>
            id in connected || now < LastHeard(s, steps, id, s.members[id].seen) + TTL_UPDATE
  {
    SeenIsLastHeard(s, steps, id);
    IdentityKept(s, steps);
  }
}
