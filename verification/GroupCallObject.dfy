/** The `GroupCall` object itself: its fields updated in place, method by method and loop by loop, each
    method tied to the step of the state machine it carries out. */
module GroupCallObject {
  import opened Options
  import opened Roster
  import opened GroupCall

  class Call {
    const selfId: Id
    const sid: string
    const max: nat
    var state: CallState
    var joining: JoinWait
    var stream: bool
    var roster: seq<Member>
    var peers: map<Id, nat>
    var recs: seq<Peer>
    var sent: seq<Envelope>

    function Snap(): Node
      reads this
    {
      Node(selfId, sid, max, state, joining, stream, roster, peers, recs, sent)
    }

    /** The invariant of the participant; every method that a callback or the user reaches keeps it. */
    ghost predicate Valid()
      reads this
    {
      NodeInv(Snap())
    }

    constructor (selfId: Id, sid: string, max: nat)
      ensures Valid() && Snap() == Fresh(selfId, sid, max)
    {
      FreshOk(selfId, sid, max);
      this.selfId, this.sid, this.max := selfId, sid, max;
      state, joining, stream := Idle, NoJoin, false;
      roster, peers, recs, sent := [], map[], [], [];
    }

    /** `join()` up to `getUserMedia`. */
    method Join()
      requires Valid()
      modifies this
      ensures Valid() && Snap() == Apply(old(Snap()), StartJoin)
    {
      ApplyKeeps(Snap(), StartJoin);
      hide NodeInv;
      if state != Idle {
        return;
      }
      state := Joining;
      joining := ForMic;
    }

    /** `join()` resumed with the microphone, or without one. */
    method JoinWithMic(granted: bool)
      requires Valid()
      requires joining == ForMic
      modifies this
      ensures Valid() && Snap() == Apply(old(Snap()), if granted then MicOpened else MicFailed)
    {
      ApplyKeeps(Snap(), if granted then MicOpened else MicFailed);
      hide NodeInv;
      if granted {
        stream := true;
        joining := ForIce;
      } else {
        state := Ended;
        joining := NoJoin;
      }
    }

    /** `join()` resumed with the ICE servers. */
    method JoinWithIce()
      requires Valid()
      requires joining == ForIce
      modifies this
      ensures Valid() && Snap() == Apply(old(Snap()), IceReady)
    {
      ApplyKeeps(Snap(), IceReady);
      hide NodeInv;
      joining := NoJoin;
      state := Active;
      DoReconcile();
    }

    method DoLeave()
      requires Valid()
      modifies this
      ensures Valid() && Snap() == Apply(old(Snap()), Leave)
    {
      ApplyKeeps(Snap(), Leave);
      hide NodeInv;
      if state == Ended {
        return;
      }
      state := Ended;
      DropIgnoresStream(Snap(), peers.Keys);
      DropEach(peers.Keys);
      stream := false;
      assert Snap() == Apply(old(Snap()), Leave);
    }

    method RosterChanged(list: seq<Member>)
      requires Valid()
      requires Distinct(list)
      modifies this
      ensures Valid() && Snap() == Apply(old(Snap()), SetRoster(list))
    {
      ApplyKeeps(Snap(), SetRoster(list));
      hide NodeInv;
      roster := list;
      if state == Active || state == Full {
        DoReconcile();
      }
    }

    method DoReconcile()
      modifies this`state, this`peers, this`recs
      ensures Snap() == Reconcile(old(Snap()))
    {
      var inCall := Admitted(roster, max);
      if selfId !in Ids(inCall) && selfId in Ids(roster) {
        state := Full;
        DropEach(peers.Keys);
        return;
      }
      var gone := FindObsolete(inCall);
      state := Active;
      assert Snap() == old(Snap()).(state := Active);
      DropEach(gone);
      AddEach(inCall);
    }

    /** The first loop of `_reconcile`: whom to drop. */
    method FindObsolete(inCall: seq<Member>) returns (gone: set<Id>)
      requires inCall == InCall(Snap())
      ensures gone == Obsolete(Snap())
    {
      gone := {};
      var left := peers.Keys;
      while left != {}
        invariant left <= peers.Keys
        invariant gone == Obsolete(Snap()) - left
        decreases left
      {
        var id :| id in left;
        var m := SidOf(inCall, id);
        if id !in Ids(inCall)
           || (peers[id] < |recs| && m != "" && recs[peers[id]].sid != "" && m != recs[peers[id]].sid) {
          gone := gone + {id};
        }
        left := left - {id};
      }
    }

    /** The second loop of `_reconcile`: connect to whoever is missing. */
    method AddEach(want: seq<Member>)
      modifies this`peers, this`recs
      ensures Snap() == AddMissing(old(Snap()), want)
    {
      var k := 0;
      while k < |want|
        invariant 0 <= k <= |want|
        invariant AddMissing(Snap(), want[k..]) == AddMissing(old(Snap()), want)
      {
        assert want[k..][0] == want[k] && want[k..][1..] == want[k + 1..];
        if !stream {
          return;
        }
        if want[k].id != selfId && want[k].id !in peers {
          var rec := NewPeer(want[k].id, want[k].sid, 0, None);
        }
        k := k + 1;
      }
    }

    /** `_newPeer`, and the start of `_offer` where this side offers. */
    method NewPeer(id: Id, peerSid: string, restarts: nat, from: Option<nat>) returns (rec: nat)
      modifies this`peers, this`recs
      ensures Snap() == AddPeer(old(Snap()), id, peerSid, restarts, from)
      ensures rec == |old(recs)|
    {
      rec := |recs|;
      var offers := Less(selfId, id);
      recs := recs + [NewRecord(id, peerSid, restarts, from, offers)];
      peers := peers[id := rec];
    }

    method DropEach(ids: set<Id>)
      modifies this`peers, this`recs
      ensures Snap() == DropPeers(old(Snap()), ids)
    {
      var left := ids;
      DropNone(Snap());
      while left != {}
        invariant left <= ids
        invariant Snap() == DropPeers(old(Snap()), ids - left)
        decreases left
      {
        var id :| id in left;
        DropMore(old(Snap()), ids - left, id);
        DropPeer(id);
        assert ids - left + {id} == ids - (left - {id});
        left := left - {id};
      }
      assert ids - left == ids;
    }

    /** `_dropPeer`. */
    method DropPeer(id: Id)
      modifies this`peers, this`recs
      ensures Snap() == DropPeers(old(Snap()), {id})
    {
      if id !in peers {
        DropAbsent(Snap(), id);
        return;
      }
      var rec := peers[id];
      if rec < |recs| && recs[rec].id == id {
        recs := recs[rec := recs[rec].(retryArmed := false)];
      }
      peers := peers - {id};
      assert recs == DropPeers(old(Snap()), {id}).recs;
    }

    method DoHandleSignal(msg: Msg)
      requires Valid() && msg.sid != ""
      modifies this
      ensures Valid() && Snap() == Apply(old(Snap()), Deliver(msg))
    {
      ApplyKeeps(Snap(), Deliver(msg));
      hide NodeInv;
      if msg.to != selfId || msg.from == selfId || state != Active {
        return;
      }
      if msg.toSid != "" && msg.toSid != sid {
        return;
      }
      if msg.Offer? {
        DoOnOffer(msg);
      } else {
        DoOnAnswer(msg);
      }
    }

    method DoOnOffer(msg: Msg)
      requires msg.Offer?
      modifies this
      ensures Snap() == OnOffer(old(Snap()), msg)
    {
      var inCall := Admitted(roster, max);
      if Less(selfId, msg.from) || msg.from !in Ids(inCall) || selfId !in Ids(inCall) {
        return;
      }
      if msg.from in peers && peers[msg.from] < |recs| {
        var p := recs[peers[msg.from]];
        if p.remoteSid == msg.sid && p.localSdp.Some? {
          sent := sent + [Envelope(peers[msg.from], Answer(selfId, p.id, sid, msg.sid, p.localSdp.value))];
          return;
        }
        if p.remoteSid != "" && p.remoteSid != msg.sid {
          DropPeer(msg.from);
        }
      }
      if msg.from !in peers {
        if !stream {
          return;
        }
        var rec := NewPeer(msg.from, SidOf(inCall, msg.from), 0, None);
      }
      var rec := peers[msg.from];
      if rec < |recs| && !recs[rec].answering {
        recs := recs[rec := recs[rec].(answering := true, answerTo := msg.sid, remoteSid := msg.sid, remoteOffer := true)];
      }
    }

    method DoOnAnswer(msg: Msg)
      requires msg.Answer?
      modifies this
      ensures Snap() == OnAnswer(old(Snap()), msg)
    {
      if msg.from !in peers || peers[msg.from] >= |recs| {
        return;
      }
      var rec := peers[msg.from];
      if recs[rec].answered || !Less(selfId, msg.from) {
        return;
      }
      var p := recs[rec].(answered := true, remoteSid := msg.sid);
      if p.retryArmed {
        p := p.(retryArmed := false);
      }
      recs := recs[rec := p.(applying := true, accepted := Some(msg))];
    }

    /** `_offer` from the point where the description exists. */
    method SendOfferNow(rec: nat)
      requires rec < |recs| && recs[rec].localSdp.Some?
      modifies this`recs, this`sent
      ensures Snap() == SendOffer(old(Snap()), rec)
    {
      var p := recs[rec];
      if p.id !in peers || peers[p.id] != rec || p.answered {
        return;
      }
      p := p.(tries := p.tries + 1);
      recs := recs[rec := p.(sending := true)];
      sent := sent + [Envelope(rec, Offer(selfId, p.id, sid, p.sid, p.localSdp.value, p.tries))];
    }

    method OfferGathered(rec: nat, sdp: string)
      requires Valid()
      requires rec < |recs| && recs[rec].making
      modifies this`recs, this`sent
      ensures Valid() && Snap() == Apply(old(Snap()), OfferMade(rec, sdp))
    {
      ApplyKeeps(Snap(), OfferMade(rec, sdp));
      hide NodeInv;
      recs := recs[rec := recs[rec].(making := false, localSdp := Some(sdp))];
      SendOfferNow(rec);
    }

    method OfferWasSent(rec: nat, ok: bool)
      requires Valid()
      requires rec < |recs| && recs[rec].sending
      modifies this`recs
      ensures Valid() && Snap() == Apply(old(Snap()), OfferSent(rec, ok))
    {
      ApplyKeeps(Snap(), OfferSent(rec, ok));
      hide NodeInv;
      recs := recs[rec := recs[rec].(sending := false, retryArmed := ok && recs[rec].tries < MAX_OFFER_TRIES)];
    }

    method RetryTimer(rec: nat)
      requires Valid()
      requires rec < |recs| && recs[rec].retryArmed
      modifies this`recs, this`sent
      ensures Valid() && Snap() == Apply(old(Snap()), RetryFires(rec))
    {
      ApplyKeeps(Snap(), RetryFires(rec));
      hide NodeInv;
      recs := recs[rec := recs[rec].(retryArmed := false)];
      if recs[rec].localSdp.Some? {
        SendOfferNow(rec);
      }
    }

    method AnswerGathered(rec: nat, sdp: string)
      requires Valid()
      requires rec < |recs| && recs[rec].answering && recs[rec].localSdp.None?
      modifies this`recs, this`sent
      ensures Valid() && Snap() == Apply(old(Snap()), AnswerMade(rec, sdp))
    {
      ApplyKeeps(Snap(), AnswerMade(rec, sdp));
      hide NodeInv;
      recs := recs[rec := recs[rec].(localSdp := Some(sdp), answered := true)];
      var p := recs[rec];
      if p.id in peers && peers[p.id] == rec {
        sent := sent + [Envelope(rec, Answer(selfId, p.id, sid, p.answerTo, sdp))];
      }
    }

    /** The ends of the three awaits that only settle the record: a description that could not be made
        (`offering` tells whose), an answer that went out, an answer that was applied or rejected. */
    method DescriptionFailed(rec: nat, offering: bool)
      requires Valid()
      requires rec < |recs| && (if offering then recs[rec].making else recs[rec].answering && recs[rec].localSdp.None?)
      modifies this`recs
      ensures Valid() && Snap() == Apply(old(Snap()), if offering then OfferFailed(rec) else AnswerFailed(rec))
    {
      ApplyKeeps(Snap(), if offering then OfferFailed(rec) else AnswerFailed(rec));
      hide NodeInv;
      if offering {
        recs := recs[rec := recs[rec].(making := false)];
      } else {
        recs := recs[rec := recs[rec].(answering := false)];
      }
    }

    method AnswerWasSent(rec: nat)
      requires Valid()
      requires rec < |recs| && recs[rec].answering && recs[rec].localSdp.Some?
      modifies this`recs
      ensures Valid() && Snap() == Apply(old(Snap()), AnswerDone(rec))
    {
      ApplyKeeps(Snap(), AnswerDone(rec));
      hide NodeInv;
      recs := recs[rec := recs[rec].(answering := false)];
    }

    method AnswerWasApplied(rec: nat, ok: bool)
      requires Valid()
      requires rec < |recs| && recs[rec].applying
      modifies this`recs
      ensures Valid() && Snap() == Apply(old(Snap()), AnswerApplied(rec, ok))
    {
      ApplyKeeps(Snap(), AnswerApplied(rec, ok));
      hide NodeInv;
      var p := recs[rec].(applying := false);
      if !ok {
        p := p.(answered := false, accepted := None);
      }
      recs := recs[rec := p];
    }

    /** `_onConn` with the state "failed": rebuild once more from scratch. */
    method ConnectionLost(rec: nat)
      requires Valid()
      requires rec < |recs|
      modifies this`peers, this`recs
      ensures Valid() && Snap() == Apply(old(Snap()), ConnectionFailed(rec))
    {
      ApplyKeeps(Snap(), ConnectionFailed(rec));
      hide NodeInv, Rebuild;
      RebuildOnce(rec);
    }

    method RebuildOnce(rec: nat)
      requires rec < |recs|
      modifies this`peers, this`recs
      ensures Snap() == Rebuild(old(Snap()), rec)
    {
      hide AddPeer, DropPeers, SidOf, Less;
      var p := recs[rec];
      if state == Active && p.id in peers && peers[p.id] == rec && p.restarts < RESTART_LIMIT {
        DropPeer(p.id);
        var next := NewPeer(p.id, SidOf(roster, p.id), p.restarts + 1, Some(rec));
      }
    }
  }

  lemma DropIgnoresStream(n: Node, gone: set<Id>)
    ensures DropPeers(n.(stream := false), gone) == DropPeers(n, gone).(stream := false)
  {
    assert DropPeers(n.(stream := false), gone).recs == DropPeers(n, gone).recs;
  }

  lemma DropNone(n: Node)
    ensures DropPeers(n, {}) == n
  {
    assert n.peers - {} == n.peers;
    assert DropPeers(n, {}).recs == n.recs;
  }

  lemma DropAbsent(n: Node, id: Id)
    requires id !in n.peers
    ensures DropPeers(n, {id}) == n
  {
    assert n.peers - {id} == n.peers;
    assert DropPeers(n, {id}).recs == n.recs;
  }

  /** Dropping one more connection after some others is dropping them all. */
  lemma DropMore(n: Node, gone: set<Id>, id: Id)
    ensures DropPeers(DropPeers(n, gone), {id}) == DropPeers(n, gone + {id})
  {
    assert n.peers - gone - {id} == n.peers - (gone + {id});
    assert DropPeers(DropPeers(n, gone), {id}).recs == DropPeers(n, gone + {id}).recs;
  }
}
