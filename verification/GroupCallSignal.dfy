/** Signalling and the roster of group calls (app/js/group-call-signal.js): who is in the call according
    to join, leave and heartbeat messages that arrive late, twice or out of order over two transports,
    and which offers and answers reach the call. */
module GroupCallSignal {
  import opened Numbers
  import opened Options
  import opened Roster

  const HEARTBEAT_RT := 15000
  const HEARTBEAT_UPDATE := 90000
  const TTL_RT := 50000
  const TTL_UPDATE := 240000

  datatype Kind = Join | Leave | Heartbeat | Offer | Answer | Meta

  datatype Via = Rt | Update

  /** A decoded message; `at`, `ts` and `attempt` are 0 when they are missing or not a number. */
  datatype Msg = Msg(kind: Kind, sender: Id, sid: string, to: Id, attempt: nat, at: int, ts: int, rt: bool)

  datatype Entry = Entry(sid: string, at: int, seen: int, rt: bool)

  datatype SignalKey = SignalKey(sender: Id, sid: string, kind: Kind, attempt: nat, via: Via)

  datatype Signal = Signal(
    selfId: Id, sid: string, rt: bool, statusOnly: bool,
    members: map<Id, Entry>, seenSig: set<SignalKey>, offerVia: map<Id, Via>,
    joined: bool, lastUpdateHb: int)

  datatype Outcome = Outcome(state: Signal, changed: bool, delivered: bool)

  function Or(x: int, default: int): int {
    if x == 0 then default else x
  }

  function KeyOf(m: Msg, via: Via): SignalKey {
    SignalKey(m.sender, m.sid, m.kind, m.attempt, via)
  }

  function IngestSignal(s: Signal, m: Msg, via: Via, now: int): Outcome {
    if m.to != s.selfId || KeyOf(m, via) in s.seenSig then Outcome(s, false, false)
    else
      var s1 := s.(seenSig := s.seenSig + {KeyOf(m, via)});
      if !s.joined || (m.sender in s.members && s.members[m.sender].sid != m.sid) then Outcome(s1, false, false)
      else
        var s2 :=
          if m.sender !in s.members then s1
          else
            var e := s.members[m.sender];
            s1.(members := s.members[m.sender := e.(seen := Max(e.seen, now))]);
        Outcome(if m.kind == Offer then s2.(offerVia := s.offerVia[m.sender := via]) else s2, false, true)
  }

  function IngestLeave(s: Signal, m: Msg): Outcome {
    if m.sender in s.members && s.members[m.sender].sid == m.sid
    then Outcome(s.(members := s.members - {m.sender}), true, false)
    else Outcome(s, false, false)
  }

  function IngestPresence(s: Signal, m: Msg, via: Via, now: int): Outcome {
    var at := Or(m.at, now);
    var seen := if via == Rt then now else Min(now, Or(m.ts, at));
    if m.sender in s.members && s.members[m.sender].sid == m.sid then
      var e := s.members[m.sender];
      Outcome(
        s.(members := s.members[m.sender := e.(seen := Max(e.seen, seen), rt := e.rt || via == Rt)]), m.kind == Join, false)
    else if m.sender in s.members && s.members[m.sender].at > at then Outcome(s, false, false)
    else Outcome(s.(members := s.members[m.sender := Entry(m.sid, at, seen, m.rt || via == Rt)]), true, false)
  }

  /** `_ingest`. */
  function Ingest(s: Signal, m: Msg, via: Via, now: int): Outcome {
    if m.sender == s.selfId && m.sid == s.sid then Outcome(s, false, false)
    else
      match m.kind
      case Offer => IngestSignal(s, m, via, now)
      case Answer => IngestSignal(s, m, via, now)
      case Meta => Outcome(s, false, false)
      case Leave => IngestLeave(s, m)
      case _ => IngestPresence(s, m, via, now)
  }

  /** `join` up to its first await. */
  function JoinNow(s: Signal, now: int): Signal {
    s.(members := s.members[s.selfId := Entry(s.sid, now, now, s.rt)], joined := true, lastUpdateHb := now)
  }

  function LeaveNow(s: Signal): Signal {
    if s.joined then s.(joined := false, members := s.members - {s.selfId}) else s
  }

  /** `_heartbeat`; the flag says whether a status update goes out as well. */
  function Beat(s: Signal, now: int): (Signal, bool) {
    if !s.joined then (s, false)
    else
      var s1 :=
        if s.selfId in s.members then s.(members := s.members[s.selfId := s.members[s.selfId].(seen := now)]) else s;
      if now - s.lastUpdateHb >= HEARTBEAT_UPDATE then (s1.(lastUpdateHb := now), true) else (s1, false)
  }

  /** How an offer or answer travels. */
  datatype Route = Route(viaRt: bool, viaUpdate: bool)

  function RouteOf(s: Signal, m: Msg): Route {
    var viaRt := s.rt && m.to in s.members && s.members[m.to].rt;
    Route(viaRt, !viaRt || m.attempt >= 2 || (m.kind == Answer && m.to in s.offerVia && s.offerVia[m.to] == Update))
  }

  datatype Step = Receive(m: Msg, via: Via, now: int) | DoJoin(now: int) | DoLeave | Tick(now: int)

  function Apply(s: Signal, step: Step): Signal {
    match step
    case Receive(m, via, now) => Ingest(s, m, via, now).state
    case DoJoin(now) => JoinNow(s, now)
    case DoLeave => LeaveNow(s)
    case Tick(now) => Beat(s, now).0
  }

  function Run(s: Signal, steps: seq<Step>): Signal
    decreases |steps|
  {
    if steps == [] then s else Run(Apply(s, steps[0]), steps[1..])
  }

  function Fresh(selfId: Id, sid: string, rt: bool, statusOnly: bool): Signal {
    Signal(selfId, sid, rt, statusOnly, map[], {}, map[], false, 0)
  }

  // ---------------------------------------------------------------- the order of sessions

  lemma SignalOrder(s: Signal, m: Msg, via: Via, now: int, id: Id)
    requires id in s.members
    ensures var r := IngestSignal(s, m, via, now).state;
            && id in r.members && r.members[id].at == s.members[id].at && r.members[id].sid == s.members[id].sid
            && r.members[id].seen >= s.members[id].seen
  {
  }

  lemma PresenceOrder(s: Signal, m: Msg, via: Via, now: int, id: Id)
    requires id in s.members
    ensures var r := IngestPresence(s, m, via, now).state;
            && id in r.members && r.members[id].at >= s.members[id].at
            && (r.members[id].sid == s.members[id].sid ==>
                  r.members[id].at == s.members[id].at && r.members[id].seen >= s.members[id].seen)
            && (r.members[id].sid != s.members[id].sid ==>
                  m.sender == id && m.sid == r.members[id].sid && Or(m.at, now) == r.members[id].at)
  {
  }

  /** What a message can do to the entry of an id: nothing to an older or foreign session's, never lower
      its join time, never lower what was seen of one session, and only its own leave removes it. */
  lemma IngestOrder(s: Signal, m: Msg, via: Via, now: int, id: Id)
    requires id in s.members
    ensures var r := Ingest(s, m, via, now).state;
            && (id !in r.members <==>
                  m.kind == Leave && m.sender == id && m.sid == s.members[id].sid
                  && !(id == s.selfId && m.sid == s.sid))
            && (id in r.members ==>
                  && r.members[id].at >= s.members[id].at
                  && (r.members[id].sid == s.members[id].sid ==>
                        r.members[id].at == s.members[id].at && r.members[id].seen >= s.members[id].seen)
                  && (r.members[id].sid != s.members[id].sid ==>
                        m.kind in {Join, Heartbeat} && m.sender == id && m.sid == r.members[id].sid
                        && Or(m.at, now) == r.members[id].at))
  {
    SignalOrder(s, m, via, now, id);
    PresenceOrder(s, m, via, now, id);
    hide IngestSignal, IngestPresence;
  }

  /** Id is listed all along. */
  predicate Present(s: Signal, steps: seq<Step>, id: Id)
    decreases |steps|
  {
    id in s.members && (steps != [] ==> Present(Apply(s, steps[0]), steps[1..], id))
  }

  /** No step lowers its join time. */
  predicate NeverJoinsEarlier(s: Signal, steps: seq<Step>, id: Id)
    requires Present(s, steps, id)
    decreases |steps|
  {
    steps != [] ==>
      && id in Apply(s, steps[0]).members
      && Apply(s, steps[0]).members[id].at >= s.members[id].at
      && NeverJoinsEarlier(Apply(s, steps[0]), steps[1..], id)
  }

  /** If it is our own id: we never join before an instant it is already listed with. */
  predicate JoinsInOrder(s: Signal, steps: seq<Step>, id: Id)
    requires Present(s, steps, id)
    decreases |steps|
  {
    steps != [] ==>
      && (steps[0].DoJoin? && id == s.selfId ==> s.members[id].at <= steps[0].now)
      && JoinsInOrder(Apply(s, steps[0]), steps[1..], id)
  }

  /** However messages are repeated and reordered, the join time of an id that stays never decreases -
      exactly when none of our own joins claims an earlier instant than the one listed for us. */
  lemma {:induction false} JoinTimeNeverDecreases(s: Signal, steps: seq<Step>, id: Id)
    requires Present(s, steps, id)
    ensures NeverJoinsEarlier(s, steps, id) <==> JoinsInOrder(s, steps, id)
    ensures JoinsInOrder(s, steps, id) ==> id in Run(s, steps).members && Run(s, steps).members[id].at >= s.members[id].at
    decreases |steps|
  {
    if steps != [] {
      if steps[0].Receive? {
        IngestOrder(s, steps[0].m, steps[0].via, steps[0].now, id);
      }
      hide Ingest;
      JoinTimeNeverDecreases(Apply(s, steps[0]), steps[1..], id);
    }
  }

  /** A run that breaks it: a heartbeat of another session of ours, with a later instant, and then our
      own join. */
  lemma OwnJoinCanGoBack(selfId: Id, sid: string, other: string, now: int)
    requires other != sid && now >= 0
    ensures var steps := [Receive(Msg(Heartbeat, selfId, other, [], 0, now + 1, 0, true), Rt, now), DoJoin(now)];
            var s := Apply(Fresh(selfId, sid, true, false), steps[0]);
            && Present(s, steps[1..], selfId) && s.members[selfId].at == now + 1
            && selfId in Run(Fresh(selfId, sid, true, false), steps).members
            && Run(Fresh(selfId, sid, true, false), steps).members[selfId].at == now
  {
    var first := Receive(Msg(Heartbeat, selfId, other, [], 0, now + 1, 0, true), Rt, now);
    assert [first, DoJoin(now)][1..] == [DoJoin(now)] && [DoJoin(now)][1..] == [];
    var s := Apply(Fresh(selfId, sid, true, false), first);
    assert Run(s, [DoJoin(now)]) == Run(Apply(s, DoJoin(now)), []);
  }

  /** The session stays the same all along, and our own clock steps do not run backwards. */
  predicate SessionStays(s: Signal, steps: seq<Step>, id: Id)
    decreases |steps|
  {
    && id in s.members
    && (steps != [] ==>
          && !(steps[0].DoJoin? && id == s.selfId && steps[0].now < s.members[id].seen)
          && !(steps[0].Tick? && id == s.selfId && s.joined && steps[0].now < s.members[id].seen)
          && SessionStays(Apply(s, steps[0]), steps[1..], id)
          && Apply(s, steps[0]).members[id].sid == s.members[id].sid)
  }

  /** Within one session, when it was last seen never decreases. */
  lemma {:induction false} SeenNeverDecreases(s: Signal, steps: seq<Step>, id: Id)
    requires SessionStays(s, steps, id)
    ensures id in Run(s, steps).members && Run(s, steps).members[id].sid == s.members[id].sid
    ensures Run(s, steps).members[id].seen >= s.members[id].seen
    decreases |steps|
  {
    if steps != [] {
      if steps[0].Receive? {
        IngestOrder(s, steps[0].m, steps[0].via, steps[0].now, id);
      }
      hide Ingest;
      SeenNeverDecreases(Apply(s, steps[0]), steps[1..], id);
    }
  }

  /** The two guards of SessionStays are the exact ones: a step that keeps the session lowers what was
      seen of it only when our own clock runs backwards between two of our own steps. */
  lemma SeenGoesBackExactlyWhen(s: Signal, step: Step, id: Id)
    requires id in s.members && id in Apply(s, step).members && Apply(s, step).members[id].sid == s.members[id].sid
    ensures Apply(s, step).members[id].seen < s.members[id].seen <==>
            id == s.selfId && ((step.DoJoin? && step.now < s.members[id].seen)
                               || (step.Tick? && s.joined && step.now < s.members[id].seen))
  {
    if step.Receive? {
      IngestOrder(s, step.m, step.via, step.now, id);
    }
    hide Ingest;
  }

  // ---------------------------------------------------------------- what reaches the call

  predicate Delivers(s: Signal, step: Step) {
    step.Receive? && Ingest(s, step.m, step.via, step.now).delivered
  }

  /** An offer or answer reaches the call exactly when it is addressed to us by somebody else, is the
      first with its key, we have joined, and its sender is not known to be in another session. */
  lemma DeliversExactlyWhen(s: Signal, m: Msg, via: Via, now: int)
    ensures Delivers(s, Receive(m, via, now)) <==>
            && m.kind in {Offer, Answer} && m.to == s.selfId
            && !(m.sender == s.selfId && m.sid == s.sid)
            && KeyOf(m, via) !in s.seenSig
            && s.joined && (m.sender in s.members ==> s.members[m.sender].sid == m.sid)
  {
  }

  /** How often a run hands a signal with this key to the call. */
  function Deliveries(s: Signal, steps: seq<Step>, key: SignalKey): nat
    decreases |steps|
  {
    if steps == [] then 0
    else
      (if Delivers(s, steps[0]) && KeyOf(steps[0].m, steps[0].via) == key then 1 else 0)
      + Deliveries(Apply(s, steps[0]), steps[1..], key)
  }

  lemma {:induction false} SeenIsNeverDelivered(s: Signal, steps: seq<Step>, key: SignalKey)
    requires key in s.seenSig
    ensures Deliveries(s, steps, key) == 0
    decreases |steps|
  {
    if steps != [] {
      SeenIsNeverDelivered(Apply(s, steps[0]), steps[1..], key);
    }
  }

  /** Each signal reaches the call at most once per transport, however often it arrives. */
  lemma {:induction false} DeliveredAtMostOnce(s: Signal, steps: seq<Step>, key: SignalKey)
    ensures Deliveries(s, steps, key) <= 1
    decreases |steps|
  {
    if steps != [] {
      if Delivers(s, steps[0]) && KeyOf(steps[0].m, steps[0].via) == key {
        SeenIsNeverDelivered(Apply(s, steps[0]), steps[1..], key);
      } else {
        DeliveredAtMostOnce(Apply(s, steps[0]), steps[1..], key);
      }
    }
  }

  /** The first copy decides: when it arrives before we joined, or from a session taken for stale, no
      later copy over that transport gets through either. */
  lemma FirstCopyDecides(s: Signal, m: Msg, via: Via, now: int, steps: seq<Step>)
    requires m.kind in {Offer, Answer} && m.to == s.selfId && !(m.sender == s.selfId && m.sid == s.sid)
    requires KeyOf(m, via) !in s.seenSig
    ensures Deliveries(s, [Receive(m, via, now)] + steps, KeyOf(m, via))
            == if s.joined && (m.sender in s.members ==> s.members[m.sender].sid == m.sid) then 1 else 0
  {
    var all := [Receive(m, via, now)] + steps;
    assert all[1..] == steps;
    SeenIsNeverDelivered(Apply(s, all[0]), steps, KeyOf(m, via));
    DeliversExactlyWhen(s, m, via, now);
  }

  /** The transport of the last offer from this peer that a run handed to the call. */
  function LastOffer(s: Signal, steps: seq<Step>, peer: Id, before: Option<Via>): Option<Via>
    decreases |steps|
  {
    if steps == [] then before
    else
      LastOffer(
        Apply(s, steps[0]), steps[1..], peer,
        if Delivers(s, steps[0]) && steps[0].m.kind == Offer && steps[0].m.sender == peer then Some(steps[0].via)
        else before)
  }

  function Remembered(s: Signal, peer: Id): Option<Via> {
    if peer in s.offerVia then Some(s.offerVia[peer]) else None
  }

  lemma RemembersStep(s: Signal, step: Step, peer: Id)
    ensures Remembered(Apply(s, step), peer)
            == if Delivers(s, step) && step.m.kind == Offer && step.m.sender == peer then Some(step.via)
               else Remembered(s, peer)
  {
    hide IngestPresence, IngestLeave, Beat;
    if step.Tick? {
      BeatKeeps(s, step.now);
    } else if step.Receive? {
      PresenceKeeps(s, step.m, step.via, step.now);
    }
  }

  lemma BeatKeeps(s: Signal, now: int)
    ensures Beat(s, now).0.offerVia == s.offerVia
  {
  }

  lemma PresenceKeeps(s: Signal, m: Msg, via: Via, now: int)
    ensures IngestPresence(s, m, via, now).state.offerVia == s.offerVia && !IngestPresence(s, m, via, now).delivered
    ensures IngestLeave(s, m).state.offerVia == s.offerVia && !IngestLeave(s, m).delivered
  {
  }

  lemma {:induction false} RemembersLastOffer(s: Signal, steps: seq<Step>, peer: Id)
    ensures Remembered(Run(s, steps), peer) == LastOffer(s, steps, peer, Remembered(s, peer))
    decreases |steps|
  {
    if steps != [] {
      RemembersStep(s, steps[0], peer);
      hide Apply, Delivers, Remembered;
      RemembersLastOffer(Apply(s, steps[0]), steps[1..], peer);
    }
  }

  /** How an answer travels, over whole runs: always, and by status update exactly when realtime does not
      serve both ends or the last offer handed to the call came by status update. */
  lemma AnswerTravels(selfId: Id, sid: string, rt: bool, steps: seq<Step>, m: Msg)
    requires m.kind == Answer && m.attempt == 0
    ensures var s0 := Fresh(selfId, sid, rt, false);
            var s := Run(s0, steps);
            var r := RouteOf(s, m);
            && (r.viaRt || r.viaUpdate)
            && (r.viaRt <==> s.rt && m.to in s.members && s.members[m.to].rt)
            && (r.viaUpdate <==> !r.viaRt || LastOffer(s0, steps, m.to, None) == Some(Update))
  {
    RemembersLastOffer(Fresh(selfId, sid, rt, false), steps, m.to);
  }

  /** So a retried offer is not always answered over status updates, as the comment has it: when its
      realtime copy comes in last, the answer goes by realtime only. */
  lemma RetryAnsweredByRealtimeOnly(selfId: Id, sid: string, peer: Id, theirs: string, now: int)
    requires peer != selfId && now > 0
    ensures var hello := Msg(Join, peer, theirs, [], 0, now, now, true);
            var retry := Msg(Offer, peer, theirs, selfId, 2, 0, now, false);
            var steps := [DoJoin(now), Receive(hello, Rt, now), Receive(retry, Update, now), Receive(retry, Rt, now)];
            var s := Run(Fresh(selfId, sid, true, false), steps);
            && Deliveries(Fresh(selfId, sid, true, false), steps, KeyOf(retry, Update)) == 1
            && RouteOf(s, Msg(Answer, selfId, sid, peer, 0, 0, 0, false)) == Route(true, false)
  {
    var hello := Msg(Join, peer, theirs, [], 0, now, now, true);
    var retry := Msg(Offer, peer, theirs, selfId, 2, 0, now, false);
    var s0 := Fresh(selfId, sid, true, false);
    var s1 := Apply(s0, DoJoin(now));
    var s2 := Apply(s1, Receive(hello, Rt, now));
    var s3 := Apply(s2, Receive(retry, Update, now));
    var s4 := Apply(s3, Receive(retry, Rt, now));
    var all := [DoJoin(now), Receive(hello, Rt, now), Receive(retry, Update, now), Receive(retry, Rt, now)];
    var key := KeyOf(retry, Update);
    assert all[1..] == [Receive(hello, Rt, now), Receive(retry, Update, now), Receive(retry, Rt, now)];
    assert all[1..][1..] == [Receive(retry, Update, now), Receive(retry, Rt, now)];
    assert all[1..][1..][1..] == [Receive(retry, Rt, now)] && all[1..][1..][1..][1..] == [];
    assert Delivers(s2, Receive(retry, Update, now)) && Delivers(s3, Receive(retry, Rt, now));
    assert s4.offerVia == map[peer := Rt] && s4.rt && peer in s4.members && s4.members[peer].rt;
    hide Ingest, JoinNow;
    assert Run(s0, all) == Run(s1, all[1..]) == Run(s2, all[1..][1..]) == Run(s3, [Receive(retry, Rt, now)]) == Run(s4, []);
    assert Deliveries(s0, all, key) == Deliveries(s1, all[1..], key) == Deliveries(s2, all[1..][1..], key);
    assert Deliveries(s3, [Receive(retry, Rt, now)], key) == Deliveries(s4, [], key) == 0;
  }

  // ---------------------------------------------------------------- who is listed

  function Ttl(s: Signal, e: Entry): int {
    if e.rt && !s.statusOnly then TTL_RT else TTL_UPDATE
  }

  predicate Listed(s: Signal, id: Id, now: int, connected: set<Id>) {
    id in s.members && (id == s.selfId || now - s.members[id].seen < Ttl(s, s.members[id]) || id in connected)
  }

  function MemberOf(s: Signal, id: Id): Member
    requires id in s.members
  {
    Member(id, s.members[id].sid, s.members[id].at)
  }

  /** `roster`: everybody who is listed, once, by join time and id. */
  predicate IsRoster(r: seq<Member>, s: Signal, now: int, connected: set<Id>) {
    && Ordered(r)
    && (forall m :: m in r ==> Listed(s, m.id, now, connected) && m == MemberOf(s, m.id))
    && (forall id :: id in s.members && Listed(s, id, now, connected) ==> MemberOf(s, id) in r)
  }

  lemma SortingKeeps(r: seq<Member>)
    requires Distinct(r)
    ensures Ordered(InOrder(r)) && forall m :: m in InOrder(r) <==> m in r
  {
    InOrderOrdered(r);
    InOrderMultiset(r);
    assert forall m :: m in r <==> m in multiset(r);
    assert forall m :: m in InOrder(r) <==> m in multiset(InOrder(r));
  }

  /** There is one roster, whatever order the entries are looked at in. */
  lemma RosterIsUnique(r1: seq<Member>, r2: seq<Member>, s: Signal, now: int, connected: set<Id>)
    requires IsRoster(r1, s, now, connected) && IsRoster(r2, s, now, connected)
    ensures r1 == r2 && Distinct(r1)
  {
    OrderedSame(r1, r2);
    forall j, k | 0 <= j < k < |r1| ensures r1[j].id != r1[k].id {
      assert r1[j] in r1 && r1[k] in r1;
      BeforeTotal(r1[j], r1[k]);
      BeforeTotal(r1[j], r1[j]);
    }
  }

  // ---------------------------------------------------------------- lost heartbeats

  /** The step brings a presence message of the session that proves it was there at `mark`. */
  predicate Marks(step: Step, id: Id, sid: string, mark: int) {
    && step.Receive? && step.m.kind in {Join, Heartbeat} && step.m.sender == id && step.m.sid == sid
    && mark == if step.via == Rt then step.now else Min(step.now, Or(step.m.ts, Or(step.m.at, step.now)))
  }

  /** When a step proves that the listed session of id was there, as of when. */
  function Proof(s: Signal, step: Step, id: Id): Option<int>
    requires id in s.members
  {
    if !step.Receive? || step.m.sender != id then None
    else if Delivers(s, step) then Some(step.now)
    else if step.m.kind in {Join, Heartbeat} && step.m.sid == s.members[id].sid then
      Some(if step.via == Rt then step.now else Min(step.now, Or(step.m.ts, Or(step.m.at, step.now))))
    else None
  }

  lemma SignalHears(s: Signal, m: Msg, via: Via, now: int, id: Id)
    requires id in s.members && m.kind in {Offer, Answer}
    ensures var o := IngestSignal(s, m, via, now);
            && id in o.state.members && o.state.selfId == s.selfId
            && o.state.members[id].seen
               == if o.delivered && m.sender == id then Max(s.members[id].seen, now) else s.members[id].seen
  {
  }

  lemma PresenceHears(s: Signal, m: Msg, via: Via, now: int, id: Id)
    requires id in s.members
    requires IngestPresence(s, m, via, now).state.members[id].sid == s.members[id].sid
    ensures var o := IngestPresence(s, m, via, now);
            && !o.delivered && o.state.selfId == s.selfId
            && o.state.members[id].seen
               == if m.sender == id && m.sid == s.members[id].sid
                  then Max(s.members[id].seen, if via == Rt then now else Min(now, Or(m.ts, Or(m.at, now))))
                  else s.members[id].seen
  {
  }

  lemma StepHears(s: Signal, step: Step, id: Id)
    requires id in s.members && id != s.selfId
    requires id in Apply(s, step).members && Apply(s, step).members[id].sid == s.members[id].sid
    ensures var proof := Proof(s, step, id);
            Apply(s, step).members[id].seen
            == if proof.Some? then Max(s.members[id].seen, proof.value) else s.members[id].seen
    ensures Apply(s, step).selfId == s.selfId
  {
    if step.Receive? {
      ReceiveHears(s, step.m, step.via, step.now, id);
      hide Ingest;
    }
  }

  lemma ReceiveHears(s: Signal, m: Msg, via: Via, now: int, id: Id)
    requires id in s.members && id != s.selfId
    requires id in Ingest(s, m, via, now).state.members
    requires Ingest(s, m, via, now).state.members[id].sid == s.members[id].sid
    ensures var proof := Proof(s, Receive(m, via, now), id);
            Ingest(s, m, via, now).state.members[id].seen
            == if proof.Some? then Max(s.members[id].seen, proof.value) else s.members[id].seen
    ensures Ingest(s, m, via, now).state.selfId == s.selfId
  {
    hide IngestSignal, IngestPresence, Max, Min, Or;
    if m.kind in {Offer, Answer} {
      SignalHears(s, m, via, now, id);
    } else if m.kind in {Join, Heartbeat} && !(m.sender == s.selfId && m.sid == s.sid) {
      PresenceHears(s, m, via, now, id);
    }
  }

  lemma {:induction false} HeardIsSeen(s: Signal, steps: seq<Step>, id: Id, k: nat, mark: int)
    requires SessionStays(s, steps, id) && id != s.selfId
    requires k < |steps| && Marks(steps[k], id, s.members[id].sid, mark)
    ensures id in Run(s, steps).members && Run(s, steps).members[id].seen >= mark
    decreases |steps|
  {
    var next := Apply(s, steps[0]);
    StepHears(s, steps[0], id);
    hide Apply, Delivers;
    if k == 0 {
      SeenNeverDecreases(next, steps[1..], id);
    } else {
      assert steps[1..][k - 1] == steps[k];
      HeardIsSeen(next, steps[1..], id, k - 1, mark);
    }
  }

  predicate SameSelf(a: Signal, b: Signal) {
    a.selfId == b.selfId && a.statusOnly == b.statusOnly
  }

  lemma SignalIdentity(s: Signal, m: Msg, via: Via, now: int)
    ensures SameSelf(IngestSignal(s, m, via, now).state, s)
  {
  }

  lemma PresenceIdentity(s: Signal, m: Msg, via: Via, now: int)
    ensures SameSelf(IngestPresence(s, m, via, now).state, s) && SameSelf(IngestLeave(s, m).state, s)
  {
  }

  lemma BeatIdentity(s: Signal, now: int)
    ensures SameSelf(Beat(s, now).0, s)
  {
  }

  lemma StepIdentity(s: Signal, step: Step)
    ensures SameSelf(Apply(s, step), s)
  {
    hide IngestSignal, IngestPresence, IngestLeave, Beat;
    match step
    case Receive(m, via, now) =>
      SignalIdentity(s, m, via, now);
      PresenceIdentity(s, m, via, now);
    case Tick(now) => BeatIdentity(s, now);
    case _ =>
  }

  lemma {:induction false} IdentityKept(s: Signal, steps: seq<Step>)
    ensures Run(s, steps).selfId == s.selfId && Run(s, steps).statusOnly == s.statusOnly
    decreases |steps|
  {
    if steps != [] {
      StepIdentity(s, steps[0]);
      hide Apply;
      IdentityKept(Apply(s, steps[0]), steps[1..]);
    }
  }

  /** Heartbeat k leaves at b + period * k and arrives, if at all, less than `delay` later; never more
      than `losses` of them in a row are lost, and the first arrives. */
  predicate OneArrives(beats: nat -> Option<int>, k: nat, losses: nat) {
    exists j: nat :: k <= j <= k + losses && beats(j).Some?
  }

  ghost predicate Schedule(beats: nat -> Option<int>, b: int, period: nat, delay: nat, losses: nat) {
    && period > 0 && beats(0).Some?
    && (forall k: nat :: beats(k).Some? ==> b + period * k <= beats(k).value < b + period * k + delay)
    && (forall k: nat :: OneArrives(beats, k, losses))
  }

  lemma Spacing(period: nat, k: nat, j: nat, losses: nat)
    requires k + 1 <= j <= k + 1 + losses
    ensures period * k + period <= period * j <= period * k + (losses + 1) * period
  {
    var d := j - k;
    assert period * j == period * k + d * period;
    assert period <= d * period <= (losses + 1) * period;
  }

  /** At any time the last heartbeat to have arrived left recently. */
  lemma {:induction false} RecentBeat(beats: nat -> Option<int>, b: int, period: nat, delay: nat, losses: nat, now: int, k: nat)
    returns (r: nat)
    requires Schedule(beats, b, period, delay, losses)
    requires beats(k).Some? && beats(k).value <= now
    ensures beats(r).Some? && beats(r).value <= now < b + period * r + (losses + 1) * period + delay
    decreases now - (b + period * k)
  {
    if now < b + period * k + (losses + 1) * period + delay {
      r := k;
    } else {
      assert OneArrives(beats, k + 1, losses);
      var j: nat :| k + 1 <= j <= k + 1 + losses && beats(j).Some?;
      Spacing(period, k, j, losses);
      r := RecentBeat(beats, b, period, delay, losses, now, j);
    }
  }

  /** Every heartbeat that arrived by now was received. */
  ghost predicate AllReceived(beats: nat -> Option<int>, b: int, period: nat, steps: seq<Step>, id: Id, sid: string, now: int) {
    forall k: nat :: beats(k).Some? && beats(k).value <= now ==>
      exists i: nat :: i < |steps| && exists mark :: mark >= b + period * k && Marks(steps[i], id, sid, mark)
  }

  lemma HeardRecently(s: Signal, steps: seq<Step>, id: Id, beats: nat -> Option<int>, b: int, period: nat, delay: nat,
                      losses: nat, now: int)
    requires SessionStays(s, steps, id) && id != s.selfId
    requires Schedule(beats, b, period, delay, losses) && beats(0).value <= now
    requires AllReceived(beats, b, period, steps, id, s.members[id].sid, now)
    ensures id in Run(s, steps).members && now - Run(s, steps).members[id].seen < (losses + 1) * period + delay
  {
    var k := RecentBeat(beats, b, period, delay, losses, now, 0);
    var i: nat :| i < |steps| && exists mark :: mark >= b + period * k && Marks(steps[i], id, s.members[id].sid, mark);
    var mark :| mark >= b + period * k && Marks(steps[i], id, s.members[id].sid, mark);
    HeardIsSeen(s, steps, id, i, mark);
  }

  /** A live realtime member stays listed: 15 s ticks, never three realtime heartbeats in a row lost,
      jitter under 5 s, whatever else arrives meanwhile. */
  lemma RealtimeMemberStays(s: Signal, steps: seq<Step>, id: Id, beats: nat -> Option<int>, b: int, now: int, connected: set<Id>)
    requires SessionStays(s, steps, id) && id != s.selfId
    requires Schedule(beats, b, HEARTBEAT_RT, 5000, 2) && beats(0).value <= now
    requires AllReceived(beats, b, HEARTBEAT_RT, steps, id, s.members[id].sid, now)
    ensures Listed(Run(s, steps), id, now, connected)
  {
    HeardRecently(s, steps, id, beats, b, HEARTBEAT_RT, 5000, 2, now);
  }

  /** A status-only observer keeps a live member: no two status heartbeats in a row lost, each within a
      minute, and the sender's clock in step with ours. */
  lemma StatusMemberStays(s: Signal, steps: seq<Step>, id: Id, beats: nat -> Option<int>, b: int, now: int, connected: set<Id>)
    requires SessionStays(s, steps, id) && id != s.selfId && s.statusOnly
    requires Schedule(beats, b, HEARTBEAT_UPDATE, 60000, 1) && beats(0).value <= now
    requires AllReceived(beats, b, HEARTBEAT_UPDATE, steps, id, s.members[id].sid, now)
    ensures Listed(Run(s, steps), id, now, connected)
  {
    HeardRecently(s, steps, id, beats, b, HEARTBEAT_UPDATE, 60000, 1, now);
    IdentityKept(s, steps);
  }

  /** The latest of these over a run. */
  function LastHeard(s: Signal, steps: seq<Step>, id: Id, before: int): int
    requires SessionStays(s, steps, id)
    decreases |steps|
  {
    if steps == [] then before
    else
      var proof := Proof(s, steps[0], id);
      LastHeard(Apply(s, steps[0]), steps[1..], id, if proof.Some? then Max(before, proof.value) else before)
  }

  /** What is remembered of a session is when it last proved to be there. */
  lemma {:induction false} SeenIsLastHeard(s: Signal, steps: seq<Step>, id: Id)
    requires SessionStays(s, steps, id) && id != s.selfId
    ensures id in Run(s, steps).members
    ensures Run(s, steps).members[id].seen == LastHeard(s, steps, id, s.members[id].seen)
    decreases |steps|
  {
    if steps != [] {
      StepHears(s, steps[0], id);
      hide Apply, Proof;
      SeenIsLastHeard(Apply(s, steps[0]), steps[1..], id);
    }
  }

  /** When a realtime member without a connection drops out, over whole runs and to the millisecond: when
      nothing was heard of it for 50 s.  After three lost heartbeats that is 10 s before the next is due. */
  lemma DropsExactlyWhen(s: Signal, steps: seq<Step>, id: Id, now: int, connected: set<Id>)
    requires SessionStays(s, steps, id) && id != s.selfId && id !in connected && !s.statusOnly
    requires id in Run(s, steps).members && Run(s, steps).members[id].rt
    ensures var last := LastHeard(s, steps, id, s.members[id].seen);
            && (Listed(Run(s, steps), id, now, connected) <==> now < last + TTL_RT)
            && last + 3 * HEARTBEAT_RT < last + TTL_RT == last + 4 * HEARTBEAT_RT - 10000
  {
    SeenIsLastHeard(s, steps, id);
    IdentityKept(s, steps);
  }

  function Ticks(b: int, n: nat): seq<Step> {
    if n == 0 then [] else Ticks(b, n - 1) + [Tick(b + HEARTBEAT_RT * n)]
  }

  lemma {:induction false} RunAppend(s: Signal, steps: seq<Step>, last: Step)
    ensures Run(s, steps + [last]) == Apply(Run(s, steps), last)
    decreases |steps|
  {
    if steps == [] {
      assert Run(Apply(s, last), []) == Apply(s, last);
    } else {
      assert (steps + [last])[1..] == steps[1..] + [last];
      RunAppend(Apply(s, steps[0]), steps[1..], last);
    }
  }

  lemma SixthTick(n: nat)
    requires n > 0
    ensures n / 6 == (n - 1) / 6 + if n % 6 == 0 then 1 else 0
  {
  }

  /** The sender's side: while the timer keeps its 15 s, every sixth tick after joining sends a status
      heartbeat, so these leave 90 s apart. */
  lemma {:induction false} UpdateCadence(s: Signal, b: int, n: nat)
    ensures var r := Run(JoinNow(s, b), Ticks(b, n));
            && r.joined && r.lastUpdateHb == b + HEARTBEAT_UPDATE * (n / 6)
            && (Beat(r, b + HEARTBEAT_RT * (n + 1)).1 <==> (n + 1) % 6 == 0)
  {
    if n > 0 {
      UpdateCadence(s, b, n - 1);
      var before := Run(JoinNow(s, b), Ticks(b, n - 1));
      RunAppend(JoinNow(s, b), Ticks(b, n - 1), Tick(b + HEARTBEAT_RT * n));
      assert Run(JoinNow(s, b), Ticks(b, n)) == Beat(before, b + HEARTBEAT_RT * n).0;
      hide Run, Ticks, JoinNow;
      SixthTick(n);
    }
  }

  // ---------------------------------------------------------------- the object

  class SignalObject {
    const selfId: Id
    const sid: string
    const rt: bool
    const statusOnly: bool
    var members: map<Id, Entry>
    var seenSig: set<SignalKey>
    var offerVia: map<Id, Via>
    var joined: bool
    var lastUpdateHb: int

    function Snap(): Signal
      reads this
    {
      Signal(selfId, sid, rt, statusOnly, members, seenSig, offerVia, joined, lastUpdateHb)
    }

    constructor (selfId: Id, sid: string, rt: bool, statusOnly: bool)
      ensures Snap() == Fresh(selfId, sid, rt, statusOnly)
    {
      this.selfId, this.sid, this.rt, this.statusOnly := selfId, sid, rt, statusOnly;
      members, seenSig, offerVia, joined, lastUpdateHb := map[], {}, map[], false, 0;
    }

    method IngestMessage(m: Msg, via: Via, now: int) returns (changed: bool, delivered: bool)
      modifies this
      ensures Outcome(Snap(), changed, delivered) == Ingest(old(Snap()), m, via, now)
    {
      changed, delivered := false, false;
      if m.sender == selfId && m.sid == sid {
        return;
      }
      if m.kind == Offer || m.kind == Answer {
        if m.to != selfId {
          return;
        }
        var key := KeyOf(m, via);
        if key in seenSig {
          return;
        }
        seenSig := seenSig + {key};
        if !joined {
          return;
        }
        if m.sender in members {
          var peer := members[m.sender];
          if peer.sid != m.sid {
            return;
          }
          members := members[m.sender := peer.(seen := Max(peer.seen, now))];
        }
        if m.kind == Offer {
          offerVia := offerVia[m.sender := via];
        }
        delivered := true;
        return;
      }
      if m.kind == Meta {
        return;
      }
      if m.kind == Leave {
        if m.sender in members && members[m.sender].sid == m.sid {
          members := members - {m.sender};
          changed := true;
        }
        return;
      }
      var at := Or(m.at, now);
      var seen := if via == Rt then now else Min(now, Or(m.ts, at));
      if m.sender in members {
        var cur := members[m.sender];
        if cur.sid == m.sid {
          members := members[m.sender := cur.(seen := Max(cur.seen, seen), rt := cur.rt || via == Rt)];
          changed := m.kind == Join;
          return;
        }
        if cur.at > at {
          return;
        }
      }
      members := members[m.sender := Entry(m.sid, at, seen, m.rt || via == Rt)];
      changed := true;
    }

    /** `roster()`: the loop over the entries, and the sort. */
    method ListMembers(now: int, connected: set<Id>) returns (out: seq<Member>)
      ensures IsRoster(out, Snap(), now, connected)
    {
      out := [];
      var left := members.Keys;
      while left != {}
        invariant left <= members.Keys
        invariant forall m :: m in out ==> m.id !in left && Listed(Snap(), m.id, now, connected) && m == MemberOf(Snap(), m.id)
        invariant forall id :: id in members && id !in left && Listed(Snap(), id, now, connected) ==> MemberOf(Snap(), id) in out
        invariant Distinct(out)
        decreases left
      {
        var id :| id in left;
        var e := members[id];
        var ttl := if e.rt && !statusOnly then TTL_RT else TTL_UPDATE;
        if id == selfId || now - e.seen < ttl || id in connected {
          ghost var before := out;
          out := out + [Member(id, e.sid, e.at)];
          forall k | 0 <= k < |before| ensures out[k].id != id {
            assert before[k] in before;
          }
        }
        left := left - {id};
      }
      SortingKeeps(out);
      hide Listed, InOrder, Distinct;
      out := InOrder(out);
    }

    method StartJoin(now: int)
      modifies this
      ensures Snap() == JoinNow(old(Snap()), now)
    {
      members := members[selfId := Entry(sid, now, now, rt)];
      joined := true;
      lastUpdateHb := now;
    }

    method StartLeave()
      modifies this
      ensures Snap() == LeaveNow(old(Snap()))
    {
      if !joined {
        return;
      }
      joined := false;
      members := members - {selfId};
    }

    method OnHeartbeat(now: int) returns (update: bool)
      modifies this
      ensures (Snap(), update) == Beat(old(Snap()), now)
    {
      update := false;
      if !joined {
        return;
      }
      if selfId in members {
        members := members[selfId := members[selfId].(seen := now)];
      }
      if now - lastUpdateHb >= HEARTBEAT_UPDATE {
        lastUpdateHb := now;
        update := true;
      }
    }
  }
}
