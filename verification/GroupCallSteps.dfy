/** What the steps of a participant of a group call do, exactly (app/js/group-call.js): which connections
    a roster keeps, opens and closes, which session each of them belongs to in every reachable state,
    when a message leaves and what it says, and what a message heard leads to. */
module GroupCallSteps {
  import opened Options
  import opened Roster
  import opened GroupCall

  // ------------------------------------------------ what a roster does to the connections

  /** Two session names that do not tell two sessions apart: one is unknown, or they are the same. */
  predicate Agree(a: string, b: string) {
    a == "" || b == "" || a == b
  }

  /** A connection on which nothing has happened yet; it prepares an offer if its owner's id is the smaller one. */
  predicate StartsFor(self: Id, p: Peer, id: Id, sid: string, restarts: nat) {
    && p.id == id && p.sid == sid && p.restarts == restarts
    && p.tries == 0 && p.localSdp.None? && p.remoteSid == "" && !p.answered && p.accepted.None?
    && !p.sending && !p.retryArmed && !p.answering && !p.applying && !p.remoteOffer
    && p.making == p.localOffer == Less(self, id)
  }

  /** Record `k` is the connection to `id`. */
  predicate Connects(n: Node, id: Id, k: nat) {
    id in n.peers && n.peers[id] == k
  }

  lemma {:induction false} FindIs(r: seq<Member>, m: Member)
    requires Distinct(r) && m in r
    ensures Find(r, m.id) == Some(m)
  {
    if r[0] != m {
      var k :| 0 <= k < |r| && r[k] == m;
      assert r[1..][k - 1] == m;
      FindIs(r[1..], m);
    }
  }

  lemma DistinctTail(r: seq<Member>)
    requires Distinct(r) && r != []
    ensures Distinct(r[1..]) && r[0].id !in Ids(r[1..])
  {
  }

  lemma AdmittedAreListed(r: seq<Member>, max: nat)
    requires Distinct(r)
    ensures Distinct(Admitted(r, max))
    ensures forall m :: m in Admitted(r, max) ==> m in r
  {
    InOrderMultiset(r);
    DistinctPermutation(r, InOrder(r));
    forall m | m in Admitted(r, max) ensures m in r {
      assert m in InOrder(r);
      assert m in multiset(InOrder(r));
    }
  }

  predicate NewOnes(n: Node, n1: Node, want: seq<Member>) {
    forall m :: m in want && m.id != n.selfId && m.id !in n.peers ==>
      m.id in n1.peers && |n.recs| <= n1.peers[m.id] < |n1.recs|
      && StartsFor(n.selfId, n1.recs[n1.peers[m.id]], m.id, m.sid, 0)
  }

  predicate NoOthers(n: Node, n1: Node, want: seq<Member>) {
    forall k: nat :: |n.recs| <= k < |n1.recs| ==>
      Current(n1, k) && n1.recs[k].id in Ids(want) - {n.selfId} && n1.recs[k].id !in n.peers
  }

  predicate OldOnes(n: Node, n1: Node) {
    && |n.recs| <= |n1.recs| && (forall k :: 0 <= k < |n.recs| ==> n1.recs[k] == n.recs[k]) && n1.selfId == n.selfId
    && (forall id :: id in n.peers ==> id in n1.peers && n1.peers[id] == n.peers[id])
  }

  /** What is added: one new connection for each wanted id that has none, and no other record. */
  lemma {:induction false} AddedAre(n: Node, want: seq<Member>)
    requires n.stream && Distinct(want)
    ensures var n1 := AddMissing(n, want);
            OldOnes(n, n1) && NewOnes(n, n1, want) && NoOthers(n, n1, want)
    decreases |want|
  {
    if want != [] {
      DistinctTail(want);
      IdsHead(want);
      if want[0].id == n.selfId || want[0].id in n.peers {
        AddedAre(n, want[1..]);
      } else {
        AddedAre(AddPeer(n, want[0].id, want[0].sid, 0, None), want[1..]);
        AddedOne(n, AddMissing(n, want), want);
      }
    }
  }

  lemma AddedOne(n: Node, n1: Node, want: seq<Member>)
    requires want != [] && want[0].id != n.selfId && want[0].id !in n.peers && want[0].id !in Ids(want[1..])
    requires Ids(want) == {want[0].id} + Ids(want[1..])
    requires var n0 := AddPeer(n, want[0].id, want[0].sid, 0, None);
             OldOnes(n0, n1) && NewOnes(n0, n1, want[1..]) && NoOthers(n0, n1, want[1..])
    ensures OldOnes(n, n1) && NewOnes(n, n1, want) && NoOthers(n, n1, want)
  {
    var n0 := AddPeer(n, want[0].id, want[0].sid, 0, None);
    var p := n1.recs[|n.recs|];
    assert p == n0.recs[|n.recs|];
    assert StartsFor(n.selfId, p, want[0].id, want[0].sid, 0);
    assert n0.peers[want[0].id] == |n.recs|;
    hide StartsFor;
    forall m | m in want && m.id != n.selfId && m.id !in n.peers
      ensures m.id in n1.peers && |n.recs| <= n1.peers[m.id] < |n1.recs|
              && StartsFor(n.selfId, n1.recs[n1.peers[m.id]], m.id, m.sid, 0)
    {
      if m != want[0] {
        var j :| 0 <= j < |want| && want[j] == m;
        assert want[1..][j - 1] == m;
        assert m.id in Ids(want[1..]);
      }
    }
  }

  /** The admitted roster still lists `id` with a session that is not another one. */
  predicate StillThere(n: Node, id: Id)
    requires id in n.peers && n.peers[id] < |n.recs|
  {
    exists m :: m in InCall(n) && m.id == id && Agree(m.sid, n.recs[n.peers[id]].sid)
  }

  lemma ObsoleteIs(n: Node, id: Id)
    requires Distinct(n.roster) && id in n.peers && n.peers[id] < |n.recs|
    ensures id in Obsolete(n) <==> !StillThere(n, id)
  {
    AdmittedAreListed(n.roster, n.max);
    var k := n.peers[id];
    if id in Ids(InCall(n)) {
      var j :| 0 <= j < |InCall(n)| && InCall(n)[j].id == id;
      var m := InCall(n)[j];
      FindIs(InCall(n), m);
      assert forall x :: x in InCall(n) && x.id == id ==> x == m by {
        forall x | x in InCall(n) && x.id == id ensures x == m { FindIs(InCall(n), x); }
      }
      assert m in InCall(n);
    }
    hide Find;
  }

  /** The records that were there: a dropped one only loses its retry timer, the others stay as they are. */
  predicate OnlyTimersStop(n: Node, n1: Node) {
    && |n.recs| <= |n1.recs|
    && forall k :: 0 <= k < |n.recs| ==>
         n1.recs[k] == if Current(n, k) && !Current(n1, k) then n.recs[k].(retryArmed := false) else n.recs[k]
  }

  /** The records that were not: each is the connection to somebody admitted who had none that fits. */
  predicate OpensOnlyMissing(n: Node, n1: Node)
    requires PeersValid(n)
  {
    forall k: nat :: |n.recs| <= k < |n1.recs| ==>
      Current(n1, k) && n1.recs[k].id in Ids(InCall(n)) - {n.selfId}
      && !(n1.recs[k].id in n.peers && StillThere(n, n1.recs[k].id))
  }

  predicate OpensMissing(n: Node, n1: Node)
    requires PeersValid(n)
  {
    forall m :: m in InCall(n) && m.id != n.selfId && !(m.id in n.peers && StillThere(n, m.id)) ==>
      m.id in n1.peers && |n.recs| <= n1.peers[m.id] < |n1.recs|
      && StartsFor(n.selfId, n1.recs[n1.peers[m.id]], m.id, m.sid, 0)
  }

  predicate KeepsExactly(n: Node, n1: Node, all: bool)
    requires PeersValid(n)
  {
    forall id :: id in n.peers ==> (Connects(n1, id, n.peers[id]) <==> all && StillThere(n, id))
  }

  /** Everybody is dropped while this side waits for a place. */
  lemma WaitingDropsAll(n: Node)
    requires PeersValid(n) && Waiting(n)
    ensures var n1 := Reconcile(n);
            && n1.peers == map[] && |n1.recs| == |n.recs|
            && OnlyTimersStop(n, n1) && KeepsExactly(n, n1, false)
  {
    hide InCall, Ids;
    assert n.peers - n.peers.Keys == map[];
    assert Reconcile(n).peers == map[];
  }

  lemma DroppedAre(n: Node)
    requires PeersValid(n) && Distinct(n.roster)
    ensures var n0 := DropPeers(n.(state := Active), Obsolete(n));
            HasDropped(n, n0)
  {
    forall id | id in n.peers ensures id in Obsolete(n) <==> !StillThere(n, id) {
      ObsoleteIs(n, id);
      hide Obsolete, StillThere, InCall, Ids;
    }
    hide Obsolete, StillThere, InCall, Ids;
  }

  lemma ReconcileIs(n: Node)
    requires PeersValid(n) && Distinct(n.roster) && !Waiting(n) && n.selfId !in n.peers && n.stream
    ensures var n1 := Reconcile(n);
            OnlyTimersStop(n, n1) && KeepsExactly(n, n1, true) && OpensMissing(n, n1) && OpensOnlyMissing(n, n1)
  {
    var n0 := DropPeers(n.(state := Active), Obsolete(n));
    DroppedAre(n);
    AdmittedAreListed(n.roster, n.max);
    AddedAre(n0, InCall(n));
    AddMissingPeers(n0, InCall(n));
    hide Obsolete, InCall, DropPeers, AddMissing, NewOnes, NoOthers, OldOnes, OnlyTimersStop, KeepsExactly, StillThere;
    ThenAdded(n, n0, AddMissing(n0, InCall(n)));
    ThenOpened(n, n0, AddMissing(n0, InCall(n)));
  }

  /** `n0` has dropped what does not fit. */
  ghost predicate HasDropped(n: Node, n0: Node)
    requires PeersValid(n)
  {
    && OnlyTimersStop(n, n0) && KeepsExactly(n, n0, true) && |n0.recs| == |n.recs| && n0.selfId == n.selfId
    && (forall id :: id in n0.peers <==> id in n.peers && StillThere(n, id))
    && (forall id :: id in n0.peers ==> n0.peers[id] == n.peers[id])
  }

  lemma ThenAdded(n: Node, n0: Node, n1: Node)
    requires PeersValid(n) && HasDropped(n, n0) && OldOnes(n0, n1)
    requires forall id :: id in n1.peers && id !in n0.peers ==> n1.peers[id] >= |n0.recs|
    ensures OnlyTimersStop(n, n1) && KeepsExactly(n, n1, true)
  {
    hide StillThere;
    forall k | 0 <= k < |n.recs|
      ensures n1.recs[k] == if Current(n, k) && !Current(n1, k) then n.recs[k].(retryArmed := false) else n.recs[k]
    {
      assert Current(n0, k) <==> Current(n1, k);
    }
  }

  lemma ThenOpened(n: Node, n0: Node, n1: Node)
    requires PeersValid(n) && HasDropped(n, n0) && NewOnes(n0, n1, InCall(n)) && NoOthers(n0, n1, InCall(n))
    ensures OpensMissing(n, n1) && OpensOnlyMissing(n, n1)
  {
    hide StillThere, StartsFor, InCall, Ids;
  }

  /** A roster that arrives during the call keeps a connection exactly when this side keeps its place and
      the admitted part of the list names the peer with the same session, or with none known; a kept
      record is untouched, and a dropped one loses its retry timer. */
  lemma RosterKeepsExactlyWhen(n: Node, list: seq<Member>, id: Id)
    requires NodeInv(n) && n.state == Active && Distinct(list) && id in n.peers
    ensures var n1 := Apply(n, SetRoster(list));
            var k := n.peers[id];
            var mine := Admitted(list, n.max);
            && (Connects(n1, id, k) <==>
                  && (n.selfId in Ids(list) ==> n.selfId in Ids(mine))
                  && exists m :: m in mine && m.id == id && Agree(m.sid, n.recs[k].sid))
            && k < |n1.recs|
            && n1.recs[k] == if Connects(n1, id, k) then n.recs[k] else n.recs[k].(retryArmed := false)
  {
    var n0 := n.(roster := list);
    AloneWithOthers(n);
    hide Core, KeysOk, Admitted, Ids, Reconcile, Distinct, OnlyTimersStop, KeepsExactly, OpensMissing, OpensOnlyMissing;
    if Waiting(n0) {
      WaitingDropsAll(n0);
    } else {
      ReconcileIs(n0);
    }
    KeptRecord(n0, Apply(n, SetRoster(list)), id, !Waiting(n0));
  }

  lemma KeptRecord(n: Node, n1: Node, id: Id, all: bool)
    requires PeersValid(n) && id in n.peers && OnlyTimersStop(n, n1) && KeepsExactly(n, n1, all)
    ensures var k := n.peers[id];
            && (Connects(n1, id, k) <==> all && StillThere(n, id))
            && n1.recs[k] == if Connects(n1, id, k) then n.recs[k] else n.recs[k].(retryArmed := false)
  {
    hide StillThere;
  }

  predicate NobodyIsSelf(n: Node) {
    PeersValid(n) && n.selfId !in n.peers && (n.peers != map[] ==> n.stream)
  }

  lemma AloneWithOthers(n: Node)
    requires NodeInv(n)
    ensures NobodyIsSelf(n)
  {
  }

  /** And it opens one to everybody else admitted: a new record of the listed session, on which nothing
      has happened yet, and which offers if and only if its owner's id is the smaller one. */
  lemma RosterOpensExactlyWhen(n: Node, list: seq<Member>)
    requires NodeInv(n) && n.state in {Active, Full} && n.stream && Distinct(list)
    ensures var n0, n1 := n.(roster := list), Apply(n, SetRoster(list));
            && OnlyTimersStop(n, n1) && OpensOnlyMissing(n0, n1) && n1.sent == n.sent
            && (if Waiting(n0) then n1.state == Full && n1.peers == map[] && |n1.recs| == |n.recs|
                else n1.state == Active && OpensMissing(n0, n1))
  {
    var n0 := n.(roster := list);
    assert NobodyIsSelf(n) by { AloneWithOthers(n); }
    ReconcileFields(n0);
    hide Core, KeysOk, Admitted, Ids, Reconcile, Distinct, KeepsExactly;
    if Waiting(n0) {
      WaitingDropsAll(n0);
    } else {
      ReconcileIs(n0);
    }
  }

  /** The same when the call begins: nobody is connected yet, so everybody else admitted is now. */
  lemma JoinOpens(n: Node)
    requires NodeInv(n) && Enabled(n, IceReady) && n.stream
    ensures var n1 := Apply(n, IceReady);
            && OnlyTimersStop(n, n1) && OpensOnlyMissing(n, n1) && n1.sent == n.sent && n1.joining == NoJoin
            && (if Waiting(n) then n1.state == Full && n1.peers == map[] && |n1.recs| == |n.recs|
                else n1.state == Active && OpensMissing(n, n1))
  {
    var n0 := n.(state := Active, joining := NoJoin);
    assert NobodyIsSelf(n) by { AloneWithOthers(n); }
    ReconcileFields(n0);
    hide Core, KeysOk, Admitted, Ids, Reconcile, Distinct, KeepsExactly;
    if Waiting(n0) {
      WaitingDropsAll(n0);
    } else {
      ReconcileIs(n0);
    }
  }

  // ------------------------------------------------ what a message leads to

  /** A message for this session, from somebody it is connected to. */
  predicate Heard(n: Node, m: Msg) {
    n.state == Active && m.to == n.selfId && m.from in n.peers && m.toSid in {"", n.sid}
  }

  lemma HeardMeans(n: Node, m: Msg)
    requires NodeInv(n) && Heard(n, m)
    ensures n.stream && m.from != n.selfId && m.from in Ids(InCall(n))
    ensures var k := n.peers[m.from];
            k < |n.recs| && n.recs[k].id == m.from && RecOk(n.selfId, n.sid, n.recs, k)
    ensures Less(m.from, n.selfId) <==> !Less(n.selfId, m.from)
  {
    LessTotal(m.from, n.selfId);
    if Less(m.from, n.selfId) && Less(n.selfId, m.from) {
      LessTransitive(m.from, n.selfId, m.from);
      LessTotal(m.from, m.from);
    }
  }

  /** A participant that is active but not on its own roster turns offers down. */
  predicate OffersMayCome(n: Node) {
    n.selfId in Ids(InCall(n))
  }

  /** An offer is heeded when it comes from a peer with the smaller id.  Seen before and answered, it is
      answered again; while its answer is being prepared, nothing happens; of another session, it gets a
      new connection; otherwise the present connection answers it. */
  lemma OfferHeard(n: Node, m: Msg)
    requires NodeInv(n) && m.Offer? && m.sid != ""
    ensures var n1 := Apply(n, Deliver(m));
            if !Heard(n, m) || !OffersMayCome(n) || !Less(m.from, n.selfId) then n1 == n
            else
              var k := n.peers[m.from];
              var p := n.recs[k];
              if p.remoteSid !in {"", m.sid} then BeginsAnew(n, n1, m)
              else if p.localSdp.Some? then
                n1 == n.(sent := n.sent + [Envelope(k, Answer(n.selfId, m.from, n.sid, m.sid, p.localSdp.value))])
              else if p.answering then n1 == n
              else
                n1 == n.(recs := n.recs[k := p.(answering := true, answerTo := m.sid, remoteSid := m.sid, remoteOffer := true)])
  {
    hide LogOk, InCall, Ids, ChainOk;
    if Heard(n, m) {
      HeardMeans(n, m);
      if OffersMayCome(n) && Less(m.from, n.selfId) && n.recs[n.peers[m.from]].remoteSid !in {"", m.sid} {
        BeginsAnewIs(n, m);
      }
    } else if n.state == Active && m.from != n.selfId && m.from !in n.peers {
      NotConnected(n, m);
    }
  }

  lemma NotConnected(n: Node, m: Msg)
    requires NodeInv(n) && n.state == Active && m.from != n.selfId && m.from !in n.peers && m.Offer?
    ensures OnOffer(n, m) == n
  {
  }

  /** The old connection is dropped, and a new one of the listed session starts by answering. */
  predicate BeginsAnew(n: Node, n1: Node, m: Msg)
    requires PeersValid(n)
  {
    && n1 == n.(recs := n1.recs, peers := n.peers[m.from := |n.recs|])
    && |n1.recs| == |n.recs| + 1 && OnlyTimersStop(n, n1)
    && var q := n1.recs[|n.recs|];
       && q.id == m.from && (exists x :: x in n.roster && x.id == m.from && x.sid == q.sid)
       && q.answering && q.answerTo == q.remoteSid == m.sid && q.remoteOffer
       && q.localSdp.None? && q.restarts == 0 && !q.making && !q.answered && q.tries == 0
  }

  lemma BeginsAnewIs(n: Node, m: Msg)
    requires NodeInv(n) && m.Offer? && Heard(n, m) && OffersMayCome(n) && Less(m.from, n.selfId) && m.sid != ""
    requires n.recs[n.peers[m.from]].remoteSid !in {"", m.sid}
    ensures BeginsAnew(n, Apply(n, Deliver(m)), m)
  {
    hide RecsOk, LogOk, InCall, Ids, ChainOk, SidOf, RecOk, OnOffer, Apply, KeysOk, BeginsAnew;
    HeardMeans(n, m);
    ListedSid(n, m.from);
    HeardGoesOn(n, m);
    var n2 := AddPeer(DropPeers(n, {m.from}), m.from, SidOf(InCall(n), m.from), 0, None);
    hide DropPeers, AddPeer, BeginAnswer;
    AnewBy(n, m);
    Replaced(n, m.from, SidOf(InCall(n), m.from), 0, None);
    BegunOnNewest(n, n2, m);
  }

  lemma HeardGoesOn(n: Node, m: Msg)
    requires Heard(n, m) && m.Offer? && m.from != n.selfId && m.sid != ""
    ensures Apply(n, Deliver(m)) == OnOffer(n, m)
  {
    hide OnOffer;
  }

  lemma AnewBy(n: Node, m: Msg)
    requires PeersValid(n) && m.Offer? && m.from in n.peers && !Less(n.selfId, m.from)
    requires m.from in Ids(InCall(n)) && n.selfId in Ids(InCall(n)) && n.stream
    requires n.recs[n.peers[m.from]].remoteSid !in {"", m.sid}
    ensures var n2 := AddPeer(DropPeers(n, {m.from}), m.from, SidOf(InCall(n), m.from), 0, None);
            OnOffer(n, m) == BeginAnswer(n2, |n.recs|, m.sid)
  {
    hide InCall, Ids, SidOf, BeginAnswer, Current;
  }

  /** One connection replaced by another. */
  predicate ReplacedBy(n: Node, n2: Node, id: Id, sid: string, restarts: nat) {
    && n2 == n.(recs := n2.recs, peers := n.peers[id := |n.recs|])
    && |n2.recs| == |n.recs| + 1 && OnlyTimersStop(n, n2)
    && StartsFor(n.selfId, n2.recs[|n.recs|], id, sid, restarts)
  }

  lemma Replaced(n: Node, id: Id, sid: string, restarts: nat, from: Option<nat>)
    requires PeersValid(n) && id in n.peers
    ensures var n2 := AddPeer(DropPeers(n, {id}), id, sid, restarts, from);
            ReplacedBy(n, n2, id, sid, restarts) && n2.recs[|n.recs|].rebuiltFrom == from
    ensures id !in DropPeers(n, {id}).peers
  {
    var n2 := AddPeer(DropPeers(n, {id}), id, sid, restarts, from);
    assert n2.peers == n.peers[id := |n.recs|];
  }

  lemma BegunOnNewest(n: Node, n2: Node, m: Msg)
    requires PeersValid(n) && m.from in n.peers && Less(m.from, n.selfId) && !Less(n.selfId, m.from)
    requires |n2.recs| == |n.recs| + 1 && ReplacedBy(n, n2, m.from, n2.recs[|n.recs|].sid, 0)
    requires exists x :: x in n.roster && x.id == m.from && x.sid == n2.recs[|n.recs|].sid
    ensures BeginsAnew(n, BeginAnswer(n2, |n.recs|, m.sid), m)
  {
  }

  lemma ListedSid(n: Node, id: Id)
    requires Distinct(n.roster) && id in Ids(InCall(n))
    ensures exists x :: x in n.roster && x.id == id && x.sid == SidOf(InCall(n), id)
  {
    AdmittedAreListed(n.roster, n.max);
    var j :| 0 <= j < |InCall(n)| && InCall(n)[j].id == id;
    var x := InCall(n)[j];
    FindIs(InCall(n), x);
    assert x in InCall(n);
  }

  /** The connection takes an answer it has not got yet from a peer with the larger id. */
  predicate Accepts(n: Node, m: Msg, k: nat)
    requires k < |n.recs|
  {
    m.Answer? && Heard(n, m) && n.peers[m.from] == k && Less(n.selfId, m.from) && !n.recs[k].answered
  }

  lemma AnswerHeard(n: Node, m: Msg)
    requires NodeInv(n) && m.Answer? && m.sid != ""
    ensures var n1 := Apply(n, Deliver(m));
            if Heard(n, m) && Accepts(n, m, n.peers[m.from]) then
              var k := n.peers[m.from];
              n1 == n.(recs := n.recs[k := n.recs[k].(
                         answered := true, remoteSid := m.sid, retryArmed := false, applying := true, accepted := Some(m))])
            else n1 == n
  {
    hide LogOk, InCall, Ids, ChainOk;
    if Heard(n, m) {
      HeardMeans(n, m);
    }
  }

  /** A failed connection is rebuilt while it is the present one of the call and has been rebuilt fewer
      times than allowed: with the session the roster lists, one rebuild further. */
  lemma FailureRebuilds(n: Node, k: nat)
    requires NodeInv(n) && k < |n.recs|
    ensures var n1, p := Apply(n, ConnectionFailed(k)), n.recs[k];
            if n.state == Active && Connects(n, p.id, k) && p.restarts < RESTART_LIMIT then
              exists x :: && x in n.roster && x.id == p.id && ReplacedBy(n, n1, p.id, x.sid, p.restarts + 1)
                          && n1.recs[|n.recs|].rebuiltFrom == Some(k)
            else n1 == n
  {
    var p := n.recs[k];
    if n.state == Active && Connects(n, p.id, k) && p.restarts < RESTART_LIMIT {
      assert p.id in Ids(InCall(n));
      var x := RosterEntry(n, p.id);
      hide InCall, Ids, SidOf, ReplacedBy, RecOk, Rebuild, LogOk, RecsOk;
      RebuiltIs(n, k, x);
    } else {
      hide InCall, Ids, SidOf, ReplacedBy, RecOk, LogOk, RecsOk, AddPeer, DropPeers;
    }
  }

  lemma RebuiltIs(n: Node, k: nat, x: Member)
    requires PeersValid(n) && k < |n.recs| && n.state == Active && Connects(n, n.recs[k].id, k)
    requires n.recs[k].restarts < RESTART_LIMIT && SidOf(n.roster, n.recs[k].id) == x.sid
    ensures var n1 := Rebuild(n, k);
            ReplacedBy(n, n1, n.recs[k].id, x.sid, n.recs[k].restarts + 1) && n1.recs[|n.recs|].rebuiltFrom == Some(k)
  {
    hide ReplacedBy, SidOf, AddPeer, DropPeers;
    Replaced(n, n.recs[k].id, x.sid, n.recs[k].restarts + 1, Some(k));
  }

  lemma RosterEntry(n: Node, id: Id) returns (x: Member)
    requires Distinct(n.roster) && id in Ids(InCall(n))
    ensures x in n.roster && x.id == id && SidOf(n.roster, id) == x.sid && SidOf(InCall(n), id) == x.sid
  {
    AdmittedAreListed(n.roster, n.max);
    var j :| 0 <= j < |InCall(n)| && InCall(n)[j].id == id;
    x := InCall(n)[j];
    FindIs(InCall(n), x);
    FindIs(n.roster, x);
  }

  // ------------------------------------------------ from flag to flag, over every step

  /** The steps that are not about one record or one message only stop timers. */
  lemma OthersOnlyStopTimers(n: Node, e: Event)
    requires NodeInv(n) && Enabled(n, e) && !OfRecord(e) && !e.Deliver?
    ensures var n1 := Apply(n, e);
            OnlyTimersStop(n, n1) && n1.sent == n.sent
  {
    AloneWithOthers(n);
    if e.SetRoster? || e.IceReady? {
      var n0 := if e.SetRoster? then n.(roster := e.list) else n.(state := Active, joining := NoJoin);
      ReconcileTimers(n0);
      hide Core, KeysOk, InCall, Ids, Reconcile;
    } else if e.ConnectionFailed? {
      FailureRebuilds(n, e.rec);
      hide Apply, InCall, Ids, StartsFor, Core, KeysOk;
    } else if e.Leave? {
      hide Core, KeysOk, InCall, Ids;
      assert n.peers - n.peers.Keys == map[];
    } else {
      hide Core, KeysOk, InCall, Ids;
    }
  }

  lemma ReconcileTimers(n: Node)
    requires NobodyIsSelf(n) && Distinct(n.roster)
    ensures var n1 := Reconcile(n);
            OnlyTimersStop(n, n1) && n1.sent == n.sent
  {
    ReconcileFields(n);
    hide KeepsExactly, OpensMissing, OpensOnlyMissing, InCall, Ids;
    if Waiting(n) {
      WaitingDropsAll(n);
    } else if n.stream {
      ReconcileIs(n);
    } else {
      assert n.peers == map[];
      assert AddMissing(DropPeers(n.(state := Active), Obsolete(n)), InCall(n)) == DropPeers(n.(state := Active), Obsolete(n));
      hide Obsolete;
    }
  }

  /** What a record says at one of its own steps. */
  lemma RecordSpeaks(n: Node, e: Event)
    requires Enabled(n, e) && OfRecord(e) && RecOk(n.selfId, n.sid, n.recs, e.rec)
    ensures var p, sent := n.recs[e.rec], Apply(n, e).sent;
            var present := Connects(n, p.id, e.rec);
            if (e.OfferMade? || e.RetryFires?) && present && !p.answered then
              && (e.RetryFires? ==> p.localSdp.Some?)
              && sent == n.sent + [Envelope(e.rec, Offer(n.selfId, p.id, n.sid, p.sid,
                                                         if e.OfferMade? then e.sdp else p.localSdp.value, p.tries + 1))]
            else if e.AnswerMade? && present then
              sent == n.sent + [Envelope(e.rec, Answer(n.selfId, p.id, n.sid, p.remoteSid, e.sdp))]
            else sent == n.sent
  {
    hide HandleSignal, Reconcile, Rebuild, DropPeers, ChainOk;
  }

  /** An offer of record `k` leaves when its description is ready or its timer fires while it is the
      present connection and has no answer; it names the session the record belongs to, and counts on. */
  lemma OfferLeavesExactlyWhen(n: Node, e: Event, k: nat)
    requires NodeInv(n) && Enabled(n, e) && k < |n.recs|
    ensures var p, sent := n.recs[k], Apply(n, e).sent;
            && (|sent| > |n.sent| && sent[|n.sent|].msg.Offer? && sent[|n.sent|].rec == k <==>
                  (e.OfferMade? || e.RetryFires?) && e.rec == k && Connects(n, p.id, k) && !p.answered)
            && (|sent| > |n.sent| && sent[|n.sent|].msg.Offer? && sent[|n.sent|].rec == k ==>
                  && (e.RetryFires? ==> p.localSdp.Some?)
                  && sent == n.sent + [Envelope(k, Offer(n.selfId, p.id, n.sid, p.sid,
                                                         if e.OfferMade? then e.sdp else p.localSdp.value, p.tries + 1))])
  {
    hide Apply, KeysOk, LogOk, PeersValid, Distinct, Waiting;
    if OfRecord(e) {
      assert RecOk(n.selfId, n.sid, n.recs, e.rec);
      RecordSpeaks(n, e);
    } else if e.Deliver? {
      MessageLeaves(n, e.msg);
    } else {
      OthersOnlyStopTimers(n, e);
    }
    hide *;
  }

  /** Nothing heard makes an offer leave, and at most one answer. */
  lemma MessageLeaves(n: Node, m: Msg)
    requires NodeInv(n) && m.sid != ""
    ensures var sent := Apply(n, Deliver(m)).sent;
            && (sent == n.sent
                || (|sent| == |n.sent| + 1 && sent[..|n.sent|] == n.sent && sent[|n.sent|].msg.Answer?))
  {
    if m.Offer? { OfferHeard(n, m); } else { AnswerHeard(n, m); }
    hide Apply, InCall, Ids, Core, KeysOk;
  }

  /** An answer of record `k` leaves when its description is ready and it is the present connection, or
      when the offer it answered comes again; it goes to the session that offered. */
  lemma AnswerLeavesExactlyWhen(n: Node, e: Event, k: nat)
    requires NodeInv(n) && Enabled(n, e) && k < |n.recs|
    ensures var p, sent := n.recs[k], Apply(n, e).sent;
            && (|sent| > |n.sent| && sent[|n.sent|].msg.Answer? && sent[|n.sent|].rec == k <==>
                  || (e.AnswerMade? && e.rec == k && Connects(n, p.id, k))
                  || (e.Deliver? && Again(n, e.msg, k)))
            && (|sent| > |n.sent| && sent[|n.sent|].msg.Answer? && sent[|n.sent|].rec == k ==>
                  && (e.Deliver? ==> p.localSdp.Some?)
                  && sent == n.sent + [Envelope(k, Answer(n.selfId, p.id, n.sid, p.remoteSid,
                                                         if e.AnswerMade? then e.sdp else p.localSdp.value))])
  {
    hide Apply, KeysOk, LogOk, PeersValid, Distinct, Waiting;
    if OfRecord(e) {
      assert RecOk(n.selfId, n.sid, n.recs, e.rec);
      RecordSpeaks(n, e);
      hide Core, RecOk;
    } else if e.Deliver? {
      AnsweredAgain(n, e.msg, k);
      hide Core, Again;
    } else {
      OthersOnlyStopTimers(n, e);
      hide Core, OnlyTimersStop;
    }
  }

  lemma AnsweredAgain(n: Node, m: Msg, k: nat)
    requires NodeInv(n) && m.sid != "" && k < |n.recs|
    ensures var p, sent := n.recs[k], Apply(n, Deliver(m)).sent;
            && (|sent| > |n.sent| && sent[|n.sent|].msg.Answer? && sent[|n.sent|].rec == k <==> Again(n, m, k))
            && (Again(n, m, k) ==> sent == n.sent + [Envelope(k, Answer(n.selfId, p.id, n.sid, p.remoteSid, p.localSdp.value))])
  {
    if m.Offer? { OfferHeard(n, m); } else { AnswerHeard(n, m); }
    hide Apply, InCall, Ids, RecsOk, LogOk, KeysOk, OnlyTimersStop;
  }

  /** An offer that record `k` has answered already, or is the answered one of. */
  predicate Again(n: Node, m: Msg, k: nat)
    requires k < |n.recs|
  {
    && m.Offer? && Heard(n, m) && OffersMayCome(n) && Less(m.from, n.selfId) && n.peers[m.from] == k
    && n.recs[k].remoteSid == m.sid && n.recs[k].localSdp.Some?
  }

  predicate Speaks(n: Node, e: Event, k: nat)
    requires k < |n.recs|
  {
    (e.OfferMade? || e.RetryFires?) && e.rec == k && Connects(n, n.recs[k].id, k) && !n.recs[k].answered
  }

  /** What its own step leaves of a record. */
  predicate Flags(n: Node, e: Event, q: Peer)
    requires OfRecord(e) && e.rec < |n.recs|
  {
    var p := n.recs[e.rec];
    && q.id == p.id && q.sid == p.sid && q.restarts == p.restarts && q.remoteSid == p.remoteSid
    && q.answerTo == p.answerTo && q.localOffer == p.localOffer && q.remoteOffer == p.remoteOffer
    && q.making == (p.making && !e.OfferMade? && !e.OfferFailed?)
    && q.sending == (Speaks(n, e, e.rec) || (p.sending && !e.OfferSent?))
    && q.tries == p.tries + (if Speaks(n, e, e.rec) then 1 else 0)
    && q.retryArmed == (if e.OfferSent? then e.ok && p.tries < MAX_OFFER_TRIES else p.retryArmed && !e.RetryFires?)
    && q.localSdp == (if e.OfferMade? || e.AnswerMade? then Some(e.sdp) else p.localSdp)
    && q.answering == (p.answering && !e.AnswerFailed? && !e.AnswerDone?)
    && q.applying == (p.applying && !e.AnswerApplied?)
    && q.answered == (e.AnswerMade? || (p.answered && !(e.AnswerApplied? && !e.ok)))
    && q.accepted == if e.AnswerApplied? && !e.ok then None else p.accepted
  }

  lemma OwnStep(n: Node, e: Event)
    requires Enabled(n, e) && OfRecord(e) && RecOk(n.selfId, n.sid, n.recs, e.rec)
    ensures var n1 := Apply(n, e);
            && |n1.recs| == |n.recs| && Flags(n, e, n1.recs[e.rec])
            && n1 == n.(recs := n.recs[e.rec := n1.recs[e.rec]], sent := n1.sent)
  {
    hide HandleSignal, Reconcile, Rebuild, DropPeers, ChainOk, OfferMadeStep, RetryStep, AnswerMadeStep;
    match e
    case OfferMade(rec, sdp) => OfferMadeFlags(n, rec, sdp);
    case RetryFires(rec) => RetryFlags(n, rec);
    case AnswerMade(rec, sdp) => AnswerMadeFlags(n, rec, sdp);
    case _ => hide RecOk;
  }

  lemma OfferMadeFlags(n: Node, rec: nat, sdp: string)
    requires Enabled(n, OfferMade(rec, sdp)) && RecOk(n.selfId, n.sid, n.recs, rec)
    ensures var n1 := OfferMadeStep(n, rec, sdp);
            && |n1.recs| == |n.recs| && Flags(n, OfferMade(rec, sdp), n1.recs[rec])
            && n1 == n.(recs := n.recs[rec := n1.recs[rec]], sent := n1.sent)
  {
    hide ChainOk;
  }

  lemma RetryFlags(n: Node, rec: nat)
    requires Enabled(n, RetryFires(rec)) && RecOk(n.selfId, n.sid, n.recs, rec)
    ensures var n1 := RetryStep(n, rec);
            && |n1.recs| == |n.recs| && Flags(n, RetryFires(rec), n1.recs[rec])
            && n1 == n.(recs := n.recs[rec := n1.recs[rec]], sent := n1.sent)
  {
    hide ChainOk;
  }

  lemma AnswerMadeFlags(n: Node, rec: nat, sdp: string)
    requires Enabled(n, AnswerMade(rec, sdp)) && RecOk(n.selfId, n.sid, n.recs, rec)
    ensures var n1 := AnswerMadeStep(n, rec, sdp);
            && |n1.recs| == |n.recs| && Flags(n, AnswerMade(rec, sdp), n1.recs[rec])
            && n1 == n.(recs := n.recs[rec := n1.recs[rec]], sent := n1.sent)
  {
    hide ChainOk;
  }

  /** A retry timer runs after a step exactly when the step was the sending of fewer than four offers
      that worked, or it ran before and neither fired nor was stopped by an answer or a drop. */
  lemma TimerRunsExactlyWhen(n: Node, e: Event, k: nat)
    requires NodeInv(n) && Enabled(n, e) && k < |n.recs|
    ensures var n1, p := Apply(n, e), n.recs[k];
            && k < |n1.recs|
            && (n1.recs[k].retryArmed <==>
                  || (e == OfferSent(k, true) && p.tries < MAX_OFFER_TRIES)
                  || (p.retryArmed && e != RetryFires(k) && !(e.Deliver? && Accepts(n, e.msg, k))
                      && (Current(n, k) ==> Current(n1, k))))
  {
    hide Apply, KeysOk, LogOk, PeersValid, Distinct, Waiting, ChainOk;
    if OfRecord(e) {
      assert RecOk(n.selfId, n.sid, n.recs, e.rec);
      OwnStep(n, e);
      hide NodeInv, Speaks;
    } else if e.Deliver? {
      hide Core, RecOk, Accepts, Begins;
      DeliverFlags(n, e.msg, k);
    } else {
      hide Core, RecOk;
      OthersOnlyStopTimers(n, e);
    }
  }

  /** A record counts as answered after a step exactly when its own answer got ready, when it took its
      peer's, or when it was before and the answer was not turned down now. */
  lemma AnsweredExactlyWhen(n: Node, e: Event, k: nat)
    requires NodeInv(n) && Enabled(n, e) && k < |n.recs|
    ensures var n1, p := Apply(n, e), n.recs[k];
            && k < |n1.recs|
            && (n1.recs[k].answered <==>
                  || (e.AnswerMade? && e.rec == k)
                  || (e.Deliver? && Accepts(n, e.msg, k))
                  || (p.answered && e != AnswerApplied(k, false)))
            && n1.recs[k].accepted == (if e.Deliver? && Accepts(n, e.msg, k) then Some(e.msg)
                                       else if e == AnswerApplied(k, false) then None else p.accepted)
  {
    hide Apply, KeysOk, LogOk, PeersValid, Distinct, Waiting, ChainOk;
    if OfRecord(e) {
      assert RecOk(n.selfId, n.sid, n.recs, e.rec);
      OwnStep(n, e);
      hide NodeInv, Speaks;
    } else if e.Deliver? {
      hide Core, RecOk, Accepts, Begins;
      DeliverFlags(n, e.msg, k);
    } else {
      hide Core, RecOk;
      OthersOnlyStopTimers(n, e);
    }
  }

  /** What a message heard leaves of a record that was there. */
  predicate Heeded(n: Node, m: Msg, n1: Node, k: nat)
    requires k < |n.recs|
  {
    && k < |n1.recs|
    && var p, q := n.recs[k], n1.recs[k];
       && q.sid == p.sid && q.tries == p.tries && q.localSdp == p.localSdp && q.making == p.making && q.sending == p.sending
       && q.answered == (p.answered || Accepts(n, m, k))
       && q.applying == (p.applying || Accepts(n, m, k))
       && q.accepted == (if Accepts(n, m, k) then Some(m) else p.accepted)
       && q.retryArmed == (p.retryArmed && !Accepts(n, m, k) && (Current(n, k) ==> Current(n1, k)))
       && q.answering == (p.answering || Begins(n, m, k))
       && q.remoteSid == (if Accepts(n, m, k) || Begins(n, m, k) then m.sid else p.remoteSid)
  }

  lemma DeliverFlags(n: Node, m: Msg, k: nat)
    requires NodeInv(n) && k < |n.recs| && m.sid != ""
    ensures Heeded(n, m, Apply(n, Deliver(m)), k)
  {
    var n1 := Apply(n, Deliver(m));
    if m.Answer? {
      AnswerHeard(n, m);
      hide Apply, NodeInv, OffersMayCome, Less;
    } else {
      OfferHeard(n, m);
      hide Apply, InCall, Ids, LogOk, KeysOk, RecOk, OffersMayCome, Less, Heeded;
      if !Heard(n, m) || !OffersMayCome(n) || !Less(m.from, n.selfId) || n1 == n {
        hide BeginsAnew, RecsOk;
        NothingHeeded(n, m, k);
      } else if BeginsAnew(n, n1, m) && n.recs[n.peers[m.from]].remoteSid !in {"", m.sid} {
        hide RecsOk, Core;
        AnewHeeded(n, m, n1, k);
      } else {
        hide BeginsAnew;
        PresentHeeded(n, m, n1, k);
      }
    }
  }

  lemma NothingHeeded(n: Node, m: Msg, k: nat)
    requires k < |n.recs| && m.Offer? && !Begins(n, m, k)
    ensures Heeded(n, m, n, k)
  {
  }

  lemma AnewHeeded(n: Node, m: Msg, n1: Node, k: nat)
    requires PeersValid(n) && k < |n.recs| && m.Offer? && Heard(n, m) && n.recs[n.peers[m.from]].remoteSid !in {"", m.sid}
    requires BeginsAnew(n, n1, m)
    ensures Heeded(n, m, n1, k)
  {
    hide OffersMayCome, Less, PeersValid;
    assert !Begins(n, m, k) && !Accepts(n, m, k);
    hide Begins, Accepts, Heard;
  }

  lemma PresentHeeded(n: Node, m: Msg, n1: Node, k: nat)
    requires k < |n.recs| && m.Offer? && Heard(n, m) && n.peers[m.from] < |n.recs|
    requires n1.peers == n.peers && (forall j: nat :: j < |n.recs| && j != n.peers[m.from] ==> !Begins(n, m, j))
    requires var p := n.recs[n.peers[m.from]];
             if Begins(n, m, n.peers[m.from]) then
               n1.recs == n.recs[n.peers[m.from] := p.(answering := true, answerTo := m.sid, remoteSid := m.sid, remoteOffer := true)]
             else n1.recs == n.recs
    ensures Heeded(n, m, n1, k)
  {
    hide Begins;
  }

  /** The present connection starts answering an offer. */
  predicate Begins(n: Node, m: Msg, k: nat)
    requires k < |n.recs|
  {
    && m.Offer? && Heard(n, m) && OffersMayCome(n) && Less(m.from, n.selfId) && n.peers[m.from] == k
    && n.recs[k].remoteSid in {"", m.sid} && n.recs[k].localSdp.None? && !n.recs[k].answering
  }

  /** The offer makes a present connection give way to one of another session. */
  predicate GivesWay(n: Node, m: Msg, k: nat)
    requires k < |n.recs|
  {
    && m.Offer? && Heard(n, m) && OffersMayCome(n) && Less(m.from, n.selfId) && n.peers[m.from] == k
    && n.recs[k].remoteSid !in {"", m.sid}
  }

  /** A connection ends exactly on leaving, when it fails and is rebuilt, when a roster drops it, or when
      its peer offers with another session. */
  lemma ConnectionEndsExactlyWhen(n: Node, e: Event, k: nat)
    requires NodeInv(n) && Enabled(n, e) && k < |n.recs| && Current(n, k)
    ensures var p := n.recs[k];
            && (!Current(Apply(n, e), k) <==>
                  || e.Leave?
                  || (e == ConnectionFailed(k) && p.restarts < RESTART_LIMIT)
                  || (e.Deliver? && GivesWay(n, e.msg, k))
                  || (e.SetRoster?
                      && !(&& (n.selfId in Ids(e.list) ==> n.selfId in Ids(Admitted(e.list, n.max)))
                           && exists m :: m in Admitted(e.list, n.max) && m.id == p.id && Agree(m.sid, p.sid))))
  {
    assert n.state == Active && n.stream && Connects(n, n.recs[k].id, k);
    hide NodeInv, Core, KeysOk, Waiting, Distinct, RecOk, Admitted, Ids, Apply, GivesWay, Enabled;
    if e.SetRoster? {
      RosterKeepsExactlyWhen(n, e.list, n.recs[k].id);
    } else if e.ConnectionFailed? {
      FailureEnds(n, e.rec, k);
    } else if e.Deliver? {
      MessageEnds(n, e.msg, k);
    } else {
      OtherEnds(n, e, k);
    }
  }

  lemma OtherEnds(n: Node, e: Event, k: nat)
    requires NodeInv(n) && Enabled(n, e) && k < |n.recs| && Current(n, k)
    requires !e.SetRoster? && !e.ConnectionFailed? && !e.Deliver?
    ensures Current(Apply(n, e), k) <==> !e.Leave?
  {
    if OfRecord(e) {
      assert RecOk(n.selfId, n.sid, n.recs, e.rec);
      OwnStep(n, e);
      hide NodeInv, Core, KeysOk, RecOk, Apply;
    } else {
      hide Core, InCall, Ids, Reconcile;
    }
  }

  lemma FailureEnds(n: Node, rec: nat, k: nat)
    requires NodeInv(n) && rec < |n.recs| && k < |n.recs| && Current(n, k) && n.state == Active
    ensures Current(Apply(n, ConnectionFailed(rec)), k) <==> !(rec == k && n.recs[k].restarts < RESTART_LIMIT)
  {
    FailureRebuilds(n, rec);
    hide NodeInv, Apply, StartsFor;
  }

  lemma MessageEnds(n: Node, m: Msg, k: nat)
    requires NodeInv(n) && k < |n.recs| && m.sid != "" && Current(n, k)
    ensures Current(Apply(n, Deliver(m)), k) <==> !GivesWay(n, m, k)
  {
    if m.Answer? {
      AnswerHeard(n, m);
      hide Apply, NodeInv, OffersMayCome, Less;
    } else {
      OfferHeard(n, m);
      hide Apply, InCall, Ids, Core, KeysOk, OffersMayCome, Less;
    }
  }

  /** In which state a step leaves the call: ended by leaving or a refused microphone, full or active by
      the roster of an ongoing call, and whatever came before overruled by a join that completes. */
  lemma StateAfter(n: Node, e: Event)
    requires Enabled(n, e)
    ensures var n1 := Apply(n, e);
            var ongoing := e.IceReady? || (e.SetRoster? && n.state in {Active, Full});
            var list := if e.SetRoster? then e.list else n.roster;
            var waits := n.selfId in Ids(list) && n.selfId !in Ids(Admitted(list, n.max));
            && (ongoing ==> n1.state == if waits then Full else Active)
            && (!ongoing ==> n1.state == if e.Leave? || e.MicFailed? then Ended
                                         else if e.StartJoin? && n.state == Idle then Joining else n.state)
            && n1.roster == list && n1.selfId == n.selfId && n1.sid == n.sid && n1.max == n.max
            && n1.stream == (e.MicOpened? || (n.stream && !(e.Leave? && n.state != Ended)))
            && n1.joining == (if e.StartJoin? && n.state == Idle then ForMic else if e.MicOpened? then ForIce
                              else if e.MicFailed? || e.IceReady? || e.IceUnavailable? then NoJoin else n.joining)
  {
    if e.IceReady? {
      ReconcileFields(n.(state := Active, joining := NoJoin));
      hide Reconcile, Admitted, Ids;
    } else if e.SetRoster? {
      ReconcileFields(n.(roster := e.list));
      hide Reconcile, Admitted, Ids;
    } else if OfRecord(e) || e.Deliver? || e.ConnectionFailed? {
      OnlyConnections(n, e);
      hide Apply, Admitted, Ids;
    } else {
      hide Admitted, Ids, Reconcile;
    }
  }

  /** What happens on one connection concerns the connections and what is sent. */
  lemma OnlyConnections(n: Node, e: Event)
    requires Enabled(n, e) && (OfRecord(e) || e.Deliver? || e.ConnectionFailed?)
    ensures var n1 := Apply(n, e);
            n1 == n.(recs := n1.recs, peers := n1.peers, sent := n1.sent)
  {
    hide Ids, Admitted, SidOf, IsOfferer, Current, InCall, Reconcile;
    if e.Deliver? {
      OfferOnlyConnections(n, e.msg);
      hide OnOffer;
    } else {
      hide HandleSignal;
    }
  }

  lemma OfferOnlyConnections(n: Node, m: Msg)
    ensures m.Offer? ==> var n1 := OnOffer(n, m);
            n1 == n.(recs := n1.recs, peers := n1.peers, sent := n1.sent)
  {
    hide Ids, SidOf, IsOfferer, Current, InCall;
  }

  // ------------------------------------------------ over whole runs

  /** Every connection belongs to the session the roster lists for its peer, as far as both are known. */
  predicate SessionsAgree(n: Node) {
    forall id, x :: id in n.peers && x in n.roster && x.id == id && n.peers[id] < |n.recs| ==>
      Agree(x.sid, n.recs[n.peers[id]].sid)
  }

  lemma OneEntry(r: seq<Member>, x: Member, y: Member)
    requires Distinct(r) && x in r && y in r && x.id == y.id
    ensures x == y
  {
    FindIs(r, x);
    FindIs(r, y);
  }

  lemma SessionsReconciled(n: Node, n1: Node)
    requires PeersValid(n) && Distinct(n.roster) && KeepsExactly(n, n1, true) && OpensMissing(n, n1) && OnlyTimersStop(n, n1)
    requires n1.peers.Keys == Ids(InCall(n)) - {n.selfId} && n1.roster == n.roster
    ensures SessionsAgree(n1)
  {
    AdmittedAreListed(n.roster, n.max);
    forall id, x | id in n1.peers && x in n1.roster && x.id == id && n1.peers[id] < |n1.recs|
      ensures Agree(x.sid, n1.recs[n1.peers[id]].sid)
    {
      hide OnlyTimersStop, KeepsExactly, OpensMissing, Distinct;
      assert id in Ids(InCall(n));
      var j :| 0 <= j < |InCall(n)| && InCall(n)[j].id == id;
      assert InCall(n)[j] in InCall(n);
      OneEntry(n.roster, InCall(n)[j], x);
      SessionReconciled(n, n1, x);
    }
  }

  lemma SessionReconciled(n: Node, n1: Node, x: Member)
    requires PeersValid(n) && Distinct(n.roster) && KeepsExactly(n, n1, true) && OpensMissing(n, n1) && OnlyTimersStop(n, n1)
    requires x in InCall(n) && x in n.roster && x.id in n1.peers && x.id != n.selfId && n1.peers[x.id] < |n1.recs|
    ensures Agree(x.sid, n1.recs[n1.peers[x.id]].sid)
  {
    if x.id in n.peers && StillThere(n, x.id) {
      var y :| y in InCall(n) && y.id == x.id && Agree(y.sid, n.recs[n.peers[x.id]].sid);
      AdmittedAreListed(n.roster, n.max);
      OneEntry(n.roster, x, y);
      assert Connects(n1, x.id, n.peers[x.id]);
    }
    hide InCall, Ids, Distinct;
  }

  lemma ReconcileSessions(n: Node)
    requires Core(n) && Distinct(n.roster) && (n.state == Active || n.state == Full) && NobodyIsSelf(n)
    ensures SessionsAgree(Reconcile(n))
  {
    ReconcileKeeps(n);
    ReconcileFields(n);
    var n1 := Reconcile(n);
    if n1.peers != map[] {
      ReconcileIs(n);
      hide Core, InCall, Ids, Reconcile, KeepsExactly, OpensMissing, OnlyTimersStop, Distinct;
      SessionsReconciled(n, n1);
    }
  }

  lemma SessionsStep(n: Node, e: Event)
    requires NodeInv(n) && SessionsAgree(n) && Enabled(n, e)
    ensures SessionsAgree(Apply(n, e))
  {
    hide Apply, NodeInv, SessionsAgree;
    if e.IceReady? || (e.SetRoster? && n.state in {Active, Full}) {
      RosterSessions(n, e);
    } else if e.Deliver? {
      DeliverSessions(n, e.msg);
    } else if e.ConnectionFailed? {
      RebuiltSessions(n, e.rec);
    } else if OfRecord(e) {
      RecordSessions(n, e);
    } else {
      LocalSessions(n, e);
    }
  }

  lemma RosterSessions(n: Node, e: Event)
    requires NodeInv(n) && SessionsAgree(n) && Enabled(n, e)
    requires e.IceReady? || (e.SetRoster? && n.state in {Active, Full})
    ensures SessionsAgree(Apply(n, e))
  {
    hide SessionsAgree, Reconcile, RecsOk, LogOk, PeersValid, Ids, Admitted, Distinct;
    AloneWithOthers(n);
    var n0 := if e.IceReady? then n.(state := Active, joining := NoJoin) else n.(roster := e.list);
    CoreFrame(n, n0);
    ReconcileSessions(n0);
  }

  lemma RecordSessions(n: Node, e: Event)
    requires NodeInv(n) && SessionsAgree(n) && Enabled(n, e) && OfRecord(e)
    ensures SessionsAgree(Apply(n, e))
  {
    hide Apply, KeysOk, LogOk, PeersValid, Distinct, Waiting;
    assert RecOk(n.selfId, n.sid, n.recs, e.rec);
    OwnStep(n, e);
    hide NodeInv, RecOk, Speaks;
  }

  lemma LocalSessions(n: Node, e: Event)
    requires NodeInv(n) && SessionsAgree(n) && Enabled(n, e)
    requires e.StartJoin? || e.MicOpened? || e.MicFailed? || e.IceUnavailable? || e.Leave?
             || (e.SetRoster? && n.state !in {Active, Full})
    ensures SessionsAgree(Apply(n, e))
  {
    assert e.SetRoster? ==> n.peers == map[];
    hide Core, KeysOk, InCall, Ids, Distinct;
  }

  lemma RebuiltSessions(n: Node, k: nat)
    requires NodeInv(n) && SessionsAgree(n) && k < |n.recs|
    ensures SessionsAgree(Apply(n, ConnectionFailed(k)))
  {
    hide Apply, RecsOk, LogOk, KeysOk;
    var n1 := Apply(n, ConnectionFailed(k));
    FailureRebuilds(n, k);
    if n1 != n {
      var x :| && x in n.roster && x.id == n.recs[k].id
               && ReplacedBy(n, n1, n.recs[k].id, x.sid, n.recs[k].restarts + 1)
               && n1.recs[|n.recs|].rebuiltFrom == Some(k);
      SessionsReplaced(n, n1, x);
    }
  }

  lemma SessionsReplaced(n: Node, n1: Node, x: Member)
    requires SessionsAgree(n) && PeersValid(n) && Distinct(n.roster) && x in n.roster && n1.roster == n.roster
    requires n1.peers == n.peers[x.id := |n.recs|] && OnlyTimersStop(n, n1) && |n1.recs| == |n.recs| + 1
    requires n1.recs[|n.recs|].sid == x.sid
    ensures SessionsAgree(n1)
  {
    forall id, y | id in n1.peers && y in n1.roster && y.id == id && n1.peers[id] < |n1.recs|
      ensures Agree(y.sid, n1.recs[n1.peers[id]].sid)
    {
      if id == x.id {
        OneEntry(n.roster, x, y);
      } else {
        assert Agree(y.sid, n.recs[n.peers[id]].sid);
      }
    }
  }

  lemma DeliverSessions(n: Node, m: Msg)
    requires NodeInv(n) && SessionsAgree(n) && m.sid != ""
    ensures SessionsAgree(Apply(n, Deliver(m)))
  {
    var n1 := Apply(n, Deliver(m));
    if m.Answer? {
      AnswerHeard(n, m);
    } else {
      OfferHeard(n, m);
      if n1.peers != n.peers {
        assert BeginsAnew(n, n1, m);
        var x :| x in n.roster && x.id == m.from && x.sid == n1.recs[|n.recs|].sid;
        hide Apply, InCall, Ids, Core, KeysOk;
        SessionsReplaced(n, n1, x);
      }
    }
    hide Apply, InCall, Ids, Core, KeysOk, Distinct;
  }

  /** In every reachable state each connection belongs to the session the roster lists for its peer. */
  lemma {:induction false} SessionsAgreeAlways(n: Node, es: seq<Event>)
    requires NodeInv(n) && SessionsAgree(n) && Legal(n, es)
    ensures SessionsAgree(After(n, es))
    decreases |es|
  {
    if es != [] {
      hide Apply, NodeInv, SessionsAgree;
      ApplyKeeps(n, es[0]);
      SessionsStep(n, es[0]);
      SessionsAgreeAlways(Apply(n, es[0]), es[1..]);
    }
  }

  lemma ListedSessionOnly(selfId: Id, sid: string, max: nat, es: seq<Event>, id: Id, x: Member)
    requires Legal(Fresh(selfId, sid, max), es)
    requires var n := After(Fresh(selfId, sid, max), es);
             id in n.peers && x in n.roster && x.id == id
    ensures var n := After(Fresh(selfId, sid, max), es);
            n.peers[id] < |n.recs| && n.recs[n.peers[id]].id == id && Agree(x.sid, n.recs[n.peers[id]].sid)
  {
    FreshOk(selfId, sid, max);
    RunKeeps(Fresh(selfId, sid, max), es);
    assert SessionsAgree(Fresh(selfId, sid, max));
    SessionsAgreeAlways(Fresh(selfId, sid, max), es);
    hide RecsOk, LogOk;
  }

  /** The offers of a record name the session it belongs to, and are numbered from one. */
  predicate Numbered(n: Node) {
    forall j :: 0 <= j < |n.sent| && n.sent[j].msg.Offer? && n.sent[j].rec < |n.recs| ==>
      && n.sent[j].msg.toSid == n.recs[n.sent[j].rec].sid
      && n.sent[j].msg.try == OfferCount(n.sent[..j + 1], n.sent[j].rec)
  }

  predicate SameSids(a: seq<Peer>, b: seq<Peer>) {
    |a| <= |b| && forall k :: 0 <= k < |a| ==> b[k].sid == a[k].sid
  }

  lemma SidsStay(n: Node, e: Event)
    requires NodeInv(n) && Enabled(n, e)
    ensures SameSids(n.recs, Apply(n, e).recs)
  {
    hide Apply, NodeInv, Enabled;
    var recs := Apply(n, e).recs;
    if n.recs != [] {
      SidStays(n, e, |n.recs| - 1);
    }
    forall k | 0 <= k < |n.recs| ensures recs[k].sid == n.recs[k].sid {
      SidStays(n, e, k);
    }
  }

  lemma SidStays(n: Node, e: Event, k: nat)
    requires NodeInv(n) && Enabled(n, e) && k < |n.recs|
    ensures k < |Apply(n, e).recs| && Apply(n, e).recs[k].sid == n.recs[k].sid
  {
    hide Apply, KeysOk, LogOk, PeersValid, Distinct, Waiting;
    if OfRecord(e) {
      assert RecOk(n.selfId, n.sid, n.recs, e.rec);
      OwnStep(n, e);
    } else if e.Deliver? {
      DeliverFlags(n, e.msg, k);
    } else {
      OthersOnlyStopTimers(n, e);
    }
    hide NodeInv, RecOk, Speaks, Accepts, Begins;
  }

  /** A step sends nothing, one answer, or one offer as said. */
  lemma WhatLeaves(n: Node, e: Event)
    requires NodeInv(n) && Enabled(n, e)
    ensures var sent := Apply(n, e).sent;
            || sent == n.sent
            || (|sent| == |n.sent| + 1 && sent[..|n.sent|] == n.sent && sent[|n.sent|].rec < |n.recs|
                && var last := sent[|n.sent|];
                   last.msg.Offer? ==>
                     last.msg.toSid == n.recs[last.rec].sid && last.msg.try == n.recs[last.rec].tries + 1)
  {
    hide Apply, KeysOk, LogOk, PeersValid, Distinct, Waiting;
    if OfRecord(e) {
      assert RecOk(n.selfId, n.sid, n.recs, e.rec);
      RecordSpeaks(n, e);
    } else if e.Deliver? {
      MessageLeaves(n, e.msg);
      HeardBy(n, e.msg);
    } else {
      OthersOnlyStopTimers(n, e);
    }
    hide NodeInv, RecOk, OnlyTimersStop;
  }

  lemma HeardBy(n: Node, m: Msg)
    requires NodeInv(n) && m.sid != ""
    ensures var sent := Apply(n, Deliver(m)).sent;
            |sent| > |n.sent| ==> sent[|n.sent|].rec < |n.recs|
  {
    if m.Offer? { OfferHeard(n, m); } else { AnswerHeard(n, m); }
    hide Apply, InCall, Ids, KeysOk, LogOk, RecsOk;
  }

  lemma SentIsKnown(n: Node)
    requires NodeInv(n)
    ensures Counted(n) && forall j :: 0 <= j < |n.sent| ==> n.sent[j].rec < |n.recs|
  {
    hide RecsOk, KeysOk, PeersValid, Counted, Waiting, Distinct;
    forall j | 0 <= j < |n.sent| ensures n.sent[j].rec < |n.recs| { assert SentOk(n, n.sent[j]); }
  }

  lemma NumberedStep(n: Node, e: Event)
    requires NodeInv(n) && Numbered(n) && Enabled(n, e)
    ensures Numbered(Apply(n, e))
  {
    hide Apply, NodeInv, Enabled, Counted, Numbered, OfferCount;
    var n1 := Apply(n, e);
    SentIsKnown(n);
    WhatLeaves(n, e);
    SidsStay(n, e);
    NumberedMore(n, n1);
  }

  lemma NumberedMore(n: Node, n1: Node)
    requires Numbered(n) && Counted(n) && (forall j :: 0 <= j < |n.sent| ==> n.sent[j].rec < |n.recs|)
    requires SameSids(n.recs, n1.recs)
    requires || n1.sent == n.sent
             || (|n1.sent| == |n.sent| + 1 && n1.sent[..|n.sent|] == n.sent && n1.sent[|n.sent|].rec < |n.recs|
                 && var last := n1.sent[|n.sent|];
                    last.msg.Offer? ==>
                      last.msg.toSid == n.recs[last.rec].sid && last.msg.try == n.recs[last.rec].tries + 1)
    ensures Numbered(n1)
  {
    forall j | 0 <= j < |n1.sent| && n1.sent[j].msg.Offer? && n1.sent[j].rec < |n1.recs|
      ensures n1.sent[j].msg.toSid == n1.recs[n1.sent[j].rec].sid
      ensures n1.sent[j].msg.try == OfferCount(n1.sent[..j + 1], n1.sent[j].rec)
    {
      if j < |n.sent| {
        assert n1.sent[j] == n1.sent[..|n.sent|][j] == n.sent[j];
        assert n1.sent[..j + 1] == n.sent[..j + 1];
      } else {
        assert n1.sent[..j + 1] == n1.sent;
        assert OfferCount(n.sent, n1.sent[j].rec) == n.recs[n1.sent[j].rec].tries;
      }
    }
  }

  /** In every run. */
  lemma {:induction false} OffersAreNumbered(n: Node, es: seq<Event>)
    requires NodeInv(n) && Numbered(n) && Legal(n, es)
    ensures Numbered(After(n, es))
    decreases |es|
  {
    if es != [] {
      hide Apply, NodeInv, Numbered;
      ApplyKeeps(n, es[0]);
      NumberedStep(n, es[0]);
      OffersAreNumbered(Apply(n, es[0]), es[1..]);
    }
  }

  /** The j-th message a participant has sent, if an offer: it goes to the session its connection belongs
      to, with a number that says how many offers of the connection there have been. */
  lemma OfferNames(selfId: Id, sid: string, max: nat, es: seq<Event>, j: nat)
    requires Legal(Fresh(selfId, sid, max), es)
    requires var n := After(Fresh(selfId, sid, max), es);
             j < |n.sent| && n.sent[j].msg.Offer?
    ensures var n := After(Fresh(selfId, sid, max), es);
            var x := n.sent[j];
            && x.rec < |n.recs| && x.msg.to == n.recs[x.rec].id && x.msg.toSid == n.recs[x.rec].sid
            && x.msg.try == OfferCount(n.sent[..j + 1], x.rec)
  {
    var n0, n := Fresh(selfId, sid, max), After(Fresh(selfId, sid, max), es);
    FreshOk(selfId, sid, max);
    RunKeeps(n0, es);
    assert Numbered(n0);
    OffersAreNumbered(n0, es);
    assert SentOk(n, n.sent[j]);
    hide NodeInv, After, Legal, OfferCount;
  }
}
