/** Answers that come too early (app/js/group-call.js): an answer names the session it is for but not the
    connection, so a connection that was rebuilt and is still preparing its offer can take one that an
    earlier connection asked for. */
module GroupCallStale {
  import opened Options
  import opened Roster
  import opened GroupCall
  import Mesh = GroupCallMesh

  // ------------------------------------------------ what it does to the connection

  /** The record counts as answered, is an offering one, and has said nothing more. */
  ghost predicate StillSilent(n: Node, n1: Node, rec: nat)
    requires rec < |n.recs|
  {
    && rec < |n1.recs| && n1.recs[rec].id == n.recs[rec].id
    && n1.recs[rec].answered && n1.recs[rec].localOffer
    && Spoken(n1.sent, rec) == Spoken(n.sent, rec)
  }

  predicate Answered(n: Node, rec: nat) {
    rec < |n.recs| && n.recs[rec].answered && n.recs[rec].localOffer
  }

  lemma SilentStep(n: Node, e: Event, rec: nat)
    requires NodeInv(n) && Enabled(n, e) && Answered(n, rec) && e != AnswerApplied(rec, false)
    ensures StillSilent(n, Apply(n, e), rec)
  {
    assert RecOk(n.selfId, n.sid, n.recs, rec);
    if e.SetRoster? {
      if n.state in {Active, Full} { ReconcileSilent(n.(roster := e.list), rec); }
    } else if e.IceReady? {
      ReconcileSilent(n.(state := Active, joining := NoJoin), rec);
    } else if e.Deliver? {
      DeliverSilent(n, e.msg, rec);
    } else if e.OfferMade? {
      OfferMadeSilent(n, e.rec, e.sdp, rec);
    } else if e.RetryFires? {
      RetrySilent(n, e.rec, rec);
    } else if e.AnswerMade? {
      assert RecOk(n.selfId, n.sid, n.recs, e.rec);
      AnswerMadeSilent(n, e.rec, e.sdp, rec);
    } else {
      OtherSilent(n, e, rec);
    }
  }

  lemma OtherSilent(n: Node, e: Event, rec: nat)
    requires Enabled(n, e) && Answered(n, rec) && e != AnswerApplied(rec, false)
    requires !e.SetRoster? && !e.IceReady? && !e.Deliver? && !e.OfferMade? && !e.RetryFires? && !e.AnswerMade?
    ensures StillSilent(n, Apply(n, e), rec)
  {
    hide Spoken, InCall, Ids, SidOf, Reconcile, HandleSignal;
  }

  lemma ReconcileSilent(n: Node, rec: nat)
    requires Answered(n, rec)
    ensures StillSilent(n, Reconcile(n), rec)
  {
    hide Spoken;
    if !Waiting(n) {
      AddSilent(DropPeers(n.(state := Active), Obsolete(n)), InCall(n), rec);
    }
  }

  lemma {:induction false} AddSilent(n: Node, want: seq<Member>, rec: nat)
    requires Answered(n, rec)
    ensures StillSilent(n, AddMissing(n, want), rec)
    decreases |want|
  {
    hide Spoken;
    if want != [] && n.stream {
      if want[0].id == n.selfId || want[0].id in n.peers {
        AddSilent(n, want[1..], rec);
      } else {
        AddSilent(AddPeer(n, want[0].id, want[0].sid, 0, None), want[1..], rec);
      }
    }
  }

  lemma OfferMadeSilent(n: Node, at: nat, sdp: string, rec: nat)
    requires at < |n.recs| && Answered(n, rec)
    ensures StillSilent(n, OfferMadeStep(n, at, sdp), rec)
  {
    hide Current, Spoken;
    var n1 := OfferMadeStep(n, at, sdp);
    if n1.sent != n.sent {
      SpokenPush(n.sent, n1.sent[|n.sent|], rec);
    }
  }

  lemma RetrySilent(n: Node, at: nat, rec: nat)
    requires at < |n.recs| && Answered(n, rec)
    ensures StillSilent(n, RetryStep(n, at), rec)
  {
    hide Current, Spoken;
    var n1 := RetryStep(n, at);
    if n1.sent != n.sent {
      SpokenPush(n.sent, n1.sent[|n.sent|], rec);
    }
  }

  lemma AnswerMadeSilent(n: Node, at: nat, sdp: string, rec: nat)
    requires at < |n.recs| && Answered(n, rec) && at != rec
    ensures StillSilent(n, AnswerMadeStep(n, at, sdp), rec)
  {
    hide Current, Spoken;
    var n1 := AnswerMadeStep(n, at, sdp);
    if n1.sent != n.sent {
      SpokenPush(n.sent, n1.sent[|n.sent|], rec);
    }
  }

  lemma DeliverSilent(n: Node, msg: Msg, rec: nat)
    requires NodeInv(n) && Answered(n, rec)
    ensures StillSilent(n, HandleSignal(n, msg), rec)
  {
    assert RecOk(n.selfId, n.sid, n.recs, rec);
    hide Spoken;
    if HandleSignal(n, msg) != n {
      if msg.Offer? {
        assert msg.from in n.peers ==> n.recs[n.peers[msg.from]].id == msg.from;
        OfferSilent(n, msg, rec);
      }
    }
  }

  lemma OfferSilent(n: Node, msg: Msg, rec: nat)
    requires msg.Offer? && Answered(n, rec) && IsOfferer(n.selfId, n.recs[rec].id)
    requires PeersValid(n)
    ensures StillSilent(n, OnOffer(n, msg), rec)
  {
    if !IsOfferer(n.selfId, msg.from) {
      assert msg.from != n.recs[rec].id;
      assert msg.from in n.peers ==> n.peers[msg.from] != rec;
      OtherOfferKeeps(n, msg, rec);
      OnOfferSays(n, msg, rec);
      hide Spoken, OnOffer;
      var n1 := OnOffer(n, msg);
      if n1.sent != n.sent {
        SpokenPush(n.sent, n1.sent[|n.sent|], rec);
      }
    }
  }

  lemma OtherOfferKeeps(n: Node, msg: Msg, rec: nat)
    requires msg.Offer? && Answered(n, rec) && (msg.from in n.peers ==> n.peers[msg.from] != rec)
    ensures var n1 := OnOffer(n, msg);
            Answered(n1, rec) && n1.recs[rec].id == n.recs[rec].id
  {
    OthersAreDropped(n, msg.from, rec);
    hide InCall, Ids, SidOf, Current, DropPeers;
  }

  lemma OthersAreDropped(n: Node, id: Id, rec: nat)
    requires rec < |n.recs|
    ensures var n1 := DropPeers(n, {id});
            && |n1.recs| == |n.recs| && n1.recs[rec] == n.recs[rec].(retryArmed := n1.recs[rec].retryArmed)
            && n1.stream == n.stream && n1.selfId == n.selfId && id !in n1.peers
  {
    hide Current;
  }

  /** At most one message, and that from the record that now stands for the sender of the offer. */
  lemma OnOfferSays(n: Node, msg: Msg, rec: nat)
    requires msg.Offer? && (msg.from in n.peers ==> n.peers[msg.from] != rec)
    ensures var n1 := OnOffer(n, msg);
            n1.sent == n.sent || (|n1.sent| == |n.sent| + 1 && n1.sent[..|n.sent|] == n.sent && n1.sent[|n.sent|].rec != rec)
  {
    hide InCall, Ids, SidOf, Current;
  }

  /** A connection that took an answer before its offer went out never sends that offer: not in any
      continuation in which the browser does not turn the answer down. */
  lemma {:induction false} EarlyAnswerSilencesOffer(n: Node, es: seq<Event>, rec: nat)
    requires NodeInv(n) && Legal(n, es) && Answered(n, rec)
    requires forall k :: 0 <= k < |es| ==> es[k] != AnswerApplied(rec, false)
    ensures StillSilent(n, After(n, es), rec)
    decreases |es|
  {
    if es != [] {
      assert es[0] != AnswerApplied(rec, false);
      ApplyKeeps(n, es[0]);
      SilentStep(n, es[0], rec);
      hide Apply, NodeInv, Spoken;
      EarlyAnswerSilencesOffer(Apply(n, es[0]), es[1..], rec);
    }
  }

  /** When the answer is settled before the description is there, exactly: the offer goes out if and only
      if the answer was turned down. */
  lemma OfferAfterSettling(n: Node, rec: nat, ok: bool, sdp: string)
    requires rec < |n.recs| && Current(n, rec) && n.recs[rec].making && n.recs[rec].applying && n.recs[rec].answered
    ensures var n1 := Apply(n, AnswerApplied(rec, ok));
            && Enabled(n1, OfferMade(rec, sdp))
            && (Apply(n1, OfferMade(rec, sdp)).sent != n.sent <==> !ok)
  {
  }

  // ------------------------------------------------ only after an earlier connection offered

  /** A current connection that is still preparing its offer and has no answer. */
  predicate Preparing(n: Node, j: nat) {
    n.state == Active && Current(n, j) && n.recs[j].making && !n.recs[j].answered
  }

  /** An earlier connection of this session to the same peer has sent an offer. */
  predicate OfferedBefore(n: Node, j: nat)
    requires j < |n.recs|
  {
    exists i :: 0 <= i < j && n.recs[i].id == n.recs[j].id && n.recs[i].tries > 0
  }

  /** The current connection to a peer is the latest one. */
  predicate NewestCurrent(n: Node) {
    forall k :: 0 <= k < |n.recs| && n.recs[k].id in n.peers ==> k <= n.peers[n.recs[k].id]
  }

  /** An answer that a connection took was asked for by it or by an earlier one. */
  predicate AskedFor(n: Node, j: nat)
    requires j < |n.recs|
  {
    n.recs[j].accepted.Some? ==> exists i :: 0 <= i <= j && n.recs[i].id == n.recs[j].id && n.recs[i].tries > 0
  }

  ghost predicate AllAskedFor(sys: Mesh.System) {
    forall k :: k in sys ==> NewestCurrent(sys[k]) && forall j :: 0 <= j < |sys[k].recs| ==> AskedFor(sys[k], j)
  }

  lemma NewestStep(n: Node, e: Event)
    requires NodeInv(n) && NewestCurrent(n) && Enabled(n, e)
    ensures NewestCurrent(Apply(n, e))
  {
    if e.SetRoster? {
      if n.state in {Active, Full} { NewestReconcile(n.(roster := e.list)); }
    } else if e.IceReady? {
      NewestReconcile(n.(state := Active, joining := NoJoin));
    } else if e.Deliver? {
      NewestDeliver(n, e.msg);
    } else {
      NewestOther(n, e);
    }
  }

  lemma NewestReconcile(n: Node)
    requires NewestCurrent(n)
    ensures NewestCurrent(Reconcile(n))
  {
    NewestDrop(n.(state := Full), n.peers.Keys);
    NewestDrop(n.(state := Active), Obsolete(n));
    if !Waiting(n) {
      NewestAdd(DropPeers(n.(state := Active), Obsolete(n)), InCall(n));
    }
  }

  lemma NewestDrop(n: Node, gone: set<Id>)
    requires NewestCurrent(n)
    ensures NewestCurrent(DropPeers(n, gone))
  {
  }

  lemma {:induction false} NewestAdd(n: Node, want: seq<Member>)
    requires NewestCurrent(n)
    ensures NewestCurrent(AddMissing(n, want))
    decreases |want|
  {
    if want != [] && n.stream {
      if want[0].id == n.selfId || want[0].id in n.peers {
        NewestAdd(n, want[1..]);
      } else {
        NewestAdd(AddPeer(n, want[0].id, want[0].sid, 0, None), want[1..]);
      }
    }
  }

  lemma NewestDeliver(n: Node, msg: Msg)
    requires NewestCurrent(n)
    ensures NewestCurrent(HandleSignal(n, msg))
  {
    if HandleSignal(n, msg) != n {
      if msg.Offer? {
        NewestOffer(n, msg);
      } else {
        hide NewestCurrent;
        assert SamePlaces(n, OnAnswer(n, msg));
        AsNewest(n, OnAnswer(n, msg));
      }
    }
  }

  lemma AsNewest(n: Node, n1: Node)
    requires NewestCurrent(n) && SamePlaces(n, n1)
    ensures NewestCurrent(n1)
  {
  }

  lemma NewestOffer(n: Node, msg: Msg)
    requires NewestCurrent(n) && msg.Offer?
    ensures NewestCurrent(OnOffer(n, msg))
  {
    NewestDrop(n, {msg.from});
    hide NewestCurrent, InCall, Ids, SidOf, DropPeers, AddPeer, BeginAnswer;
    var n1 := if msg.from in n.peers && n.peers[msg.from] < |n.recs| && n.recs[n.peers[msg.from]].remoteSid !in {"", msg.sid}
              then DropPeers(n, {msg.from}) else n;
    if OnOffer(n, msg).recs == n.recs && OnOffer(n, msg).peers == n.peers {
      AsNewest(n, OnOffer(n, msg));
    } else if OnOffer(n, msg) != n1 {
      var n2 := if msg.from in n1.peers then n1 else AddPeer(n1, msg.from, SidOf(InCall(n), msg.from), 0, None);
      NewestAfterAdd(n1, msg.from, SidOf(InCall(n), msg.from));
      NewestBegin(n2, n2.peers[msg.from], msg.sid);
    }
  }

  lemma NewestAfterAdd(n: Node, id: Id, sid: string)
    requires NewestCurrent(n)
    ensures NewestCurrent(AddPeer(n, id, sid, 0, None)) && id in AddPeer(n, id, sid, 0, None).peers
  {
  }

  lemma NewestBegin(n: Node, rec: nat, sid: string)
    requires NewestCurrent(n)
    ensures NewestCurrent(BeginAnswer(n, rec, sid))
  {
  }

  lemma NewestOther(n: Node, e: Event)
    requires NewestCurrent(n) && Enabled(n, e) && !e.SetRoster? && !e.IceReady? && !e.Deliver?
    ensures NewestCurrent(Apply(n, e))
  {
    if e.ConnectionFailed? {
      NewestRebuild(n, e.rec);
    } else if OfRecord(e) {
      NewestRecord(n, e);
    } else {
      hide InCall, Ids, SidOf, Reconcile, HandleSignal, DropPeers, Rebuild, OfferMadeStep, RetryStep, AnswerMadeStep;
      if e.Leave? {
        NewestDrop(n.(state := Ended, stream := false), n.peers.Keys);
      }
    }
  }

  lemma NewestRebuild(n: Node, rec: nat)
    requires NewestCurrent(n) && rec < |n.recs|
    ensures NewestCurrent(Rebuild(n, rec))
  {
    NewestDrop(n, {n.recs[rec].id});
    hide DropPeers, SidOf;
  }

  predicate SamePlaces(n: Node, n1: Node) {
    n1.peers == n.peers && |n1.recs| == |n.recs| && forall k :: 0 <= k < |n.recs| ==> n1.recs[k].id == n.recs[k].id
  }

  lemma OfferMadeStays(n: Node, rec: nat, sdp: string)
    requires rec < |n.recs|
    ensures SamePlaces(n, OfferMadeStep(n, rec, sdp))
  {
    hide Current;
  }

  lemma RetryStays(n: Node, rec: nat)
    requires rec < |n.recs|
    ensures SamePlaces(n, RetryStep(n, rec))
  {
    hide Current;
  }

  lemma AnswerMadeStays(n: Node, rec: nat, sdp: string)
    requires rec < |n.recs|
    ensures SamePlaces(n, AnswerMadeStep(n, rec, sdp))
  {
    hide Current;
  }

  lemma NewestRecord(n: Node, e: Event)
    requires NewestCurrent(n) && Enabled(n, e) && OfRecord(e)
    ensures NewestCurrent(Apply(n, e))
  {
    hide OfferMadeStep, RetryStep, AnswerMadeStep;
    match e
    case OfferMade(rec, sdp) => OfferMadeStays(n, rec, sdp);
    case RetryFires(rec) => RetryStays(n, rec);
    case AnswerMade(rec, sdp) => AnswerMadeStays(n, rec, sdp);
    case _ =>
  }

  lemma AskedLater(n: Node, n1: Node, j: nat)
    requires Grown(n.recs, n1.recs) && j < |n.recs|
    requires exists i :: 0 <= i <= j && n.recs[i].id == n.recs[j].id && n.recs[i].tries > 0
    ensures AskedFor(n1, j)
  {
    var i :| 0 <= i <= j && n.recs[i].id == n.recs[j].id && n.recs[i].tries > 0;
    assert Later(n.recs[i], n1.recs[i]) && Later(n.recs[j], n1.recs[j]);
  }

  /** An answer is taken by the current connection, so the offer it answers was made by that one or by
      an earlier one. */
  lemma AnswerWasAsked(sys: Mesh.System, k: Mesh.Session, m: Msg, j: nat)
    requires Mesh.SysInv(sys) && k in sys && NewestCurrent(sys[k]) && Mesh.WasSent(sys, m)
    requires m.Answer? && m.to == k.id && m.toSid in {"", k.sid}
    requires m.from in sys[k].peers && sys[k].peers[m.from] == j
    ensures j < |sys[k].recs| && exists i :: 0 <= i <= j && sys[k].recs[i].id == sys[k].recs[j].id && sys[k].recs[i].tries > 0
  {
    var n := sys[k];
    Mesh.SentMeaning(sys, m);
    assert Mesh.Offered(sys, k, m.from);
    var x :| 0 <= x < |n.sent| && n.sent[x].msg.Offer? && n.sent[x].msg.to == m.from;
    assert SentOk(n, n.sent[x]);
    var i := n.sent[x].rec;
    assert n.recs[i].id == m.from && n.recs[i].tries > 0;
  }

  /** A record holds an answer because it held it before, or because it is the current one of the sender
      of a message that just came in. */
  predicate HeldOrTaken(n: Node, e: Event, b: Peer, j: nat) {
    || (j < |n.recs| && n.recs[j].accepted == b.accepted)
    || (e.Deliver? && e.msg.Answer? && e.msg.to == n.selfId && e.msg.toSid in {"", n.sid}
        && e.msg.from in n.peers && n.peers[e.msg.from] == j)
  }

  lemma AnswersAreTaken(n: Node, e: Event, j: nat)
    requires NodeInv(n) && Enabled(n, e) && j < |Apply(n, e).recs| && Apply(n, e).recs[j].accepted.Some?
    ensures HeldOrTaken(n, e, Apply(n, e).recs[j], j)
  {
    if e.Deliver? {
      DeliverTakes(n, e.msg, j);
    } else {
      hide NodeInv, Apply, Enabled;
      Mesh.RecordsLearn(n, e, j);
    }
  }

  lemma DeliverTakes(n: Node, m: Msg, j: nat)
    requires m.sid != "" && j < |HandleSignal(n, m).recs| && HandleSignal(n, m).recs[j].accepted.Some?
    ensures HeldOrTaken(n, Deliver(m), HandleSignal(n, m).recs[j], j)
  {
    hide HandleSignal;
    Mesh.DeliverLearns(n, m, j);
  }

  lemma AskedStep(sys: Mesh.System, s: Mesh.Step, j: nat)
    requires Mesh.SysInv(sys) && AllAskedFor(sys) && Mesh.CanStep(sys, s) && s.Do?
    requires j < |Apply(sys[s.who], s.event).recs|
    ensures AskedFor(Apply(sys[s.who], s.event), j)
  {
    var n := sys[s.who];
    assert NodeInv(n) && NewestCurrent(n) && n.selfId == s.who.id && n.sid == s.who.sid;
    assert j < |n.recs| ==> AskedFor(n, j);
    hide NodeInv, Mesh.SysInv, Apply, Enabled, Grown, NewestCurrent, Mesh.WasSent, AllAskedFor;
    var n1 := Apply(n, s.event);
    if n1.recs[j].accepted.Some? {
      ApplyKeeps(n, s.event);
      AnswersAreTaken(n, s.event, j);
      if !(j < |n.recs| && n.recs[j].accepted == n1.recs[j].accepted) {
        AnswerWasAsked(sys, s.who, s.event.msg, j);
      }
      hide HeldOrTaken;
      AskedLater(n, n1, j);
    }
  }

  lemma NextAsked(sys: Mesh.System, s: Mesh.Step)
    requires Mesh.SysInv(sys) && AllAskedFor(sys) && Mesh.CanStep(sys, s)
    ensures AllAskedFor(Mesh.Next(sys, s))
  {
    var sys1 := Mesh.Next(sys, s);
    if s.Do? {
      NewestStep(sys[s.who], s.event);
    }
    hide NodeInv, Apply, Enabled, NewestCurrent, AskedFor;
    forall k, j | k in sys1 && 0 <= j < |sys1[k].recs| ensures AskedFor(sys1[k], j) {
      if s.Do? && k == s.who {
        AskedStep(sys, s, j);
      } else {
        assert AskedFor(sys[k], j);
      }
    }
    assert s.Spawn? ==> NewestCurrent(sys1[s.who]) by { NobodyYet(s.who.id, s.who.sid, if s.Spawn? then s.max else 0); }
  }

  lemma NobodyYet(id: Id, sid: string, max: nat)
    ensures NewestCurrent(Fresh(id, sid, max))
  {
  }

  lemma {:induction false} RunAsked(sys: Mesh.System, steps: seq<Mesh.Step>)
    requires Mesh.SysInv(sys) && AllAskedFor(sys) && Mesh.Legal(sys, steps)
    ensures AllAskedFor(Mesh.After(sys, steps))
    decreases |steps|
  {
    if steps != [] {
      hide Mesh.SysInv, Mesh.CanStep, AllAskedFor;
      Mesh.NextKeeps(sys, steps[0]);
      NextAsked(sys, steps[0]);
      RunAsked(Mesh.Next(sys, steps[0]), steps[1..]);
    }
  }

  /** In every run of any number of sessions: a connection that holds an answer while it prepares its
      offer has one that was asked for by an earlier connection. */
  lemma TakenMeansOfferedBefore(steps: seq<Mesh.Step>, k: Mesh.Session, j: nat)
    requires Mesh.Legal(map[], steps) && k in Mesh.After(map[], steps) && j < |Mesh.After(map[], steps)[k].recs|
    requires var p := Mesh.After(map[], steps)[k].recs[j]; p.making && p.accepted.Some?
    ensures OfferedBefore(Mesh.After(map[], steps)[k], j)
  {
    Mesh.RunKeepsSystem(map[], steps);
    RunAsked(map[], steps);
    var n := Mesh.After(map[], steps)[k];
    assert AskedFor(n, j) && RecOk(n.selfId, n.sid, n.recs, j);
    var i :| 0 <= i <= j && n.recs[i].id == n.recs[j].id && n.recs[i].tries > 0;
    assert i != j;
  }

  /** Delivered now, the message becomes the answer of connection j. */
  predicate Takes(n: Node, m: Msg, j: nat) {
    m.Answer? && m.sid != "" && j < |HandleSignal(n, m).recs| && HandleSignal(n, m).recs[j].accepted == Some(m)
  }

  ghost predicate WithoutStepOf(steps: seq<Mesh.Step>, k: Mesh.Session) {
    forall x :: 0 <= x < |steps| ==> steps[x].who != k
  }

  /** The others alone can bring about an answer that the connection takes as it stands. */
  ghost predicate CanTake(sys: Mesh.System, k: Mesh.Session, j: nat)
    requires k in sys
  {
    exists more: seq<Mesh.Step>, m: Msg ::
      Mesh.Legal(sys, more) && WithoutStepOf(more, k) && Mesh.WasSent(Mesh.After(sys, more), m) && Takes(sys[k], m, j)
  }

  lemma {:induction false} MeshConcat(sys: Mesh.System, a: seq<Mesh.Step>, b: seq<Mesh.Step>)
    requires Mesh.Legal(sys, a) && Mesh.Legal(Mesh.After(sys, a), b)
    ensures Mesh.Legal(sys, a + b) && Mesh.After(sys, a + b) == Mesh.After(Mesh.After(sys, a), b)
    decreases |a|
  {
    if a == [] {
      assert a + b == b;
    } else {
      assert (a + b)[0] == a[0] && (a + b)[1..] == a[1..] + b;
      hide Mesh.CanStep, Mesh.Next;
      MeshConcat(Mesh.Next(sys, a[0]), a[1..], b);
    }
  }

  lemma {:induction false} OthersLeave(sys: Mesh.System, steps: seq<Mesh.Step>, k: Mesh.Session)
    requires Mesh.Legal(sys, steps) && WithoutStepOf(steps, k) && k in sys
    ensures k in Mesh.After(sys, steps) && Mesh.After(sys, steps)[k] == sys[k]
    decreases |steps|
  {
    if steps != [] {
      assert steps[0].who != k;
      assert forall x :: 0 <= x < |steps[1..]| ==> steps[1..][x] == steps[x + 1];
      OthersLeave(Mesh.Next(sys, steps[0]), steps[1..], k);
    }
  }

  /** One step more. */
  lemma MeshStep(sys: Mesh.System, s: Mesh.Step)
    requires Mesh.CanStep(sys, s)
    ensures Mesh.Legal(sys, [s]) && Mesh.After(sys, [s]) == Mesh.Next(sys, s)
  {
    assert [s][1..] == [];
    assert Mesh.Legal(Mesh.Next(sys, s), [s][1..]);
  }

  /** A preparing connection can take an answer only if an earlier one has offered. */
  lemma CanTakeOnlyAfterOffer(steps: seq<Mesh.Step>, k: Mesh.Session, j: nat)
    requires Mesh.Legal(map[], steps) && k in Mesh.After(map[], steps)
    requires Preparing(Mesh.After(map[], steps)[k], j) && CanTake(Mesh.After(map[], steps), k, j)
    ensures OfferedBefore(Mesh.After(map[], steps)[k], j)
  {
    var sys := Mesh.After(map[], steps);
    var more, m :| Mesh.Legal(sys, more) && WithoutStepOf(more, k) && Mesh.WasSent(Mesh.After(sys, more), m) && Takes(sys[k], m, j);
    var sys1 := Mesh.After(sys, more);
    OthersLeave(sys, more, k);
    var last := Mesh.Do(k, Deliver(m));
    MeshConcat(map[], steps, more);
    MeshStep(sys1, last);
    MeshConcat(map[], steps + more, [last]);
    TakingKeeps(sys[k], m, j);
    hide Mesh.Legal, Mesh.After, HandleSignal;
    var all := (steps + more) + [last];
    assert Mesh.After(map[], all)[k] == Apply(sys[k], Deliver(m));
    TakenMeansOfferedBefore(all, k, j);
  }

  /** Taking an answer changes nothing else about the records. */
  lemma TakingKeeps(n: Node, m: Msg, j: nat)
    requires Preparing(n, j) && Takes(n, m, j)
    ensures var n1 := HandleSignal(n, m);
            && n1.recs[j].making && n1.recs[j].accepted.Some?
            && (j < |n1.recs| && OfferedBefore(n1, j) ==> OfferedBefore(n, j))
  {
    hide Current;
  }

  // ------------------------------------------------ and then indeed

  /** In the call with the microphone open, and not alone in it. */
  predicate Ready(n: Node) {
    n.state == Active && n.stream && n.max >= 2
  }

  /** Somebody can answer this offer: a session it may be meant for that is ready or not begun. */
  ghost predicate Answerable(sys: Mesh.System, m: Msg) {
    exists q: Mesh.Session :: MayAnswer(sys, m, q)
  }

  predicate MayAnswer(sys: Mesh.System, m: Msg, q: Mesh.Session) {
    q.id == m.to && q.sid != "" && m.toSid in {"", q.sid} && (q in sys ==> Ready(sys[q]))
  }

  /** A participant with this roster is in a call of exactly the two. */
  lemma Couple(n: Node, other: Id)
    requires NodeInv(n) && Ready(n) && other != n.selfId
    ensures var r := [Member(other, "", 0), Member(n.selfId, "", 0)];
            var n1 := Apply(n, SetRoster(r));
            && Enabled(n, SetRoster(r)) && NodeInv(n1)
            && n1.state == Active && n1.stream && n1.selfId == n.selfId && n1.sid == n.sid
            && other in Ids(InCall(n1)) && n1.selfId in Ids(InCall(n1)) && other in n1.peers
  {
    var r := [Member(other, "", 0), Member(n.selfId, "", 0)];
    assert Distinct(r) && Enabled(n, SetRoster(r));
    ApplyKeeps(n, SetRoster(r));
    BothAdmitted(r, n.max);
    var n0 := n.(roster := r);
    assert InCall(n0) == Admitted(r, n.max) && !Waiting(n0);
    ReconcileFields(n0);
    assert Apply(n, SetRoster(r)) == Reconcile(n0);
    hide Core, Reconcile, Admitted, Apply, Waiting, Ids, Distinct;
  }

  lemma BothAdmitted(r: seq<Member>, max: nat)
    requires |r| == 2 && max >= 2
    ensures Ids(Admitted(r, max)) == {r[0].id, r[1].id}
  {
    InOrderMultiset(r);
    var a := Admitted(r, max);
    assert a == InOrder(r);
    forall x | x in r ensures x.id in Ids(a) {
      assert x in multiset(r) && x in multiset(a);
      var k :| 0 <= k < |a| && a[k] == x;
    }
    assert r[0] in r && r[1] in r;
    forall k | 0 <= k < |a| ensures a[k].id in {r[0].id, r[1].id} {
      assert a[k] in multiset(a) && a[k] in multiset(r);
    }
  }

  predicate AnswersTo(m: Msg, answer: Msg) {
    answer.Answer? && answer.from == m.to && answer.to == m.from && answer.toSid == m.sid
  }

  /** It has sent an answer to this offer. */
  ghost predicate HasAnswered(n: Node, m: Msg) {
    exists x :: 0 <= x < |n.sent| && AnswersTo(m, n.sent[x].msg) && n.sent[x].msg.sid == n.sid
  }

  lemma LastAnswers(n: Node, m: Msg)
    requires n.sent != [] && AnswersTo(m, n.sent[|n.sent| - 1].msg) && n.sent[|n.sent| - 1].msg.sid == n.sid
    ensures HasAnswered(n, m)
  {
  }

  predicate Asks(n: Node, m: Msg) {
    m.Offer? && m.to == n.selfId && m.from != n.selfId && !IsOfferer(n.selfId, m.from)
    && m.sid != "" && m.toSid in {"", n.sid}
  }

  /** Its current record is preparing the answer. */
  predicate IsAnswering(n: Node, m: Msg) {
    m.from in n.peers
    && var rec := n.peers[m.from];
       Current(n, rec) && n.recs[rec].answering && n.recs[rec].localSdp.None?
       && n.recs[rec].answerTo == m.sid && n.recs[rec].id == m.from
  }

  /** In such a call an offer is answered at once, or is being answered by the current record. */
  lemma OfferTaken(n: Node, m: Msg)
    requires NodeInv(n) && n.state == Active && n.stream && Asks(n, m)
    requires m.from in Ids(InCall(n)) && n.selfId in Ids(InCall(n)) && m.from in n.peers
    ensures var n1 := Apply(n, Deliver(m));
            NodeInv(n1) && n1.selfId == n.selfId && (HasAnswered(n1, m) || IsAnswering(n1, m))
  {
    var k := n.peers[m.from];
    assert k < |n.recs| && n.recs[k].id == m.from && RecOk(n.selfId, n.sid, n.recs, k);
    ReachesOnOffer(n, m);
    ApplyKeeps(n, Deliver(m));
    Mesh.SentGrows(n, Deliver(m));
    hide *;
    if n.recs[k].remoteSid == m.sid && n.recs[k].localSdp.Some? {
      AnswersAgain(n, m);
    } else if n.recs[k].remoteSid in {"", m.sid} {
      BeginsToAnswer(n, m);
    } else {
      BeginsAnew(n, m);
    }
  }

  lemma ReachesOnOffer(n: Node, m: Msg)
    requires n.state == Active && Asks(n, m)
    ensures Enabled(n, Deliver(m)) && Apply(n, Deliver(m)) == OnOffer(n, m)
  {
  }

  lemma AnswersAgain(n: Node, m: Msg)
    requires Asks(n, m) && m.from in Ids(InCall(n)) && n.selfId in Ids(InCall(n))
    requires m.from in n.peers && n.peers[m.from] < |n.recs| && n.recs[n.peers[m.from]].id == m.from
    requires var p := n.recs[n.peers[m.from]]; p.remoteSid == m.sid && p.localSdp.Some?
    ensures HasAnswered(OnOffer(n, m), m)
  {
    hide InCall, Ids, SidOf;
    LastAnswers(OnOffer(n, m), m);
  }

  lemma BeginsToAnswer(n: Node, m: Msg)
    requires Asks(n, m) && m.from in Ids(InCall(n)) && n.selfId in Ids(InCall(n))
    requires m.from in n.peers && n.peers[m.from] < |n.recs| && n.recs[n.peers[m.from]].id == m.from
    requires RecOk(n.selfId, n.sid, n.recs, n.peers[m.from])
    requires var p := n.recs[n.peers[m.from]]; p.remoteSid in {"", m.sid} && !(p.remoteSid == m.sid && p.localSdp.Some?)
    ensures IsAnswering(OnOffer(n, m), m)
  {
    hide InCall, Ids, SidOf;
    assert OnOffer(n, m) == BeginAnswer(n, n.peers[m.from], m.sid);
  }

  lemma BeginsAnew(n: Node, m: Msg)
    requires Asks(n, m) && m.from in Ids(InCall(n)) && n.selfId in Ids(InCall(n)) && n.stream
    requires m.from in n.peers && n.peers[m.from] < |n.recs|
    requires n.recs[n.peers[m.from]].remoteSid !in {"", m.sid}
    ensures IsAnswering(OnOffer(n, m), m)
  {
    hide InCall, Ids, SidOf;
    var n0 := AddPeer(DropPeers(n, {m.from}), m.from, SidOf(InCall(n), m.from), 0, None);
    assert OnOffer(n, m) == BeginAnswer(n0, |n.recs|, m.sid);
  }

  lemma ReadyTakesUp(n: Node, m: Msg) returns (es: seq<Event>)
    requires NodeInv(n) && Ready(n) && Asks(n, m)
    ensures Legal(n, es)
    ensures var n2 := After(n, es);
            n2.selfId == n.selfId && (HasAnswered(n2, m) || IsAnswering(n2, m))
    ensures forall x :: 0 <= x < |es| && es[x].Deliver? ==> es[x].msg == m
  {
    hide *;
    var first := SetRoster([Member(m.from, "", 0), Member(n.selfId, "", 0)]);
    AddressedHere(n, m);
    Couple(n, m.from);
    var n1 := Apply(n, first);
    SameAsked(n, n1, m);
    AlwaysDelivers(n1, m);
    OfferTaken(n1, m);
    TwoEvents(n, first, Deliver(m));
    es := [first, Deliver(m)];
  }

  /** So a ready participant can be brought to answer any offer that reaches it. */
  lemma Answers(n: Node, m: Msg) returns (es: seq<Event>)
    requires NodeInv(n) && Ready(n) && Asks(n, m)
    ensures Legal(n, es) && HasAnswered(After(n, es), m)
    ensures forall x :: 0 <= x < |es| && es[x].Deliver? ==> es[x].msg == m
  {
    AddressedHere(n, m);
    es := ReadyTakesUp(n, m);
    hide Apply, NodeInv, Ready, Asks, HasAnswered, Legal, After, InCall, Ids;
    var n2 := After(n, es);
    if !HasAnswered(n2, m) {
      var last := AnswerMade(n2.peers[m.from], "answer");
      AnswerGoesOut(n2, m, n2.peers[m.from]);
      OneMore(n, es, last);
      es := es + [last];
    }
  }

  lemma AddressedHere(n: Node, m: Msg)
    requires Asks(n, m)
    ensures m.to == n.selfId && m.from != n.selfId
  {
  }

  lemma SameAsked(n: Node, n1: Node, m: Msg)
    requires Asks(n, m) && n1.selfId == n.selfId && n1.sid == n.sid
    ensures Asks(n1, m)
  {
  }

  lemma AlwaysDelivers(n: Node, m: Msg)
    requires Asks(n, m)
    ensures Enabled(n, Deliver(m))
  {
  }

  lemma AnswerGoesOut(n: Node, m: Msg, rec: nat)
    requires Current(n, rec) && n.recs[rec].answering && n.recs[rec].localSdp.None?
    requires n.recs[rec].answerTo == m.sid && n.recs[rec].id == m.from && m.to == n.selfId
    ensures Enabled(n, AnswerMade(rec, "answer")) && HasAnswered(Apply(n, AnswerMade(rec, "answer")), m)
  {
    LastAnswers(Apply(n, AnswerMade(rec, "answer")), m);
  }

  lemma TwoEvents(n: Node, a: Event, b: Event)
    requires Enabled(n, a) && Enabled(Apply(n, a), b)
    ensures Legal(n, [a, b]) && After(n, [a, b]) == Apply(Apply(n, a), b)
  {
    hide Apply, Enabled;
    RunOfOne(Apply(n, a), b);
    assert [a, b][1..] == [b];
  }

  lemma {:induction false} OneMore(n: Node, es: seq<Event>, e: Event)
    requires Legal(n, es) && Enabled(After(n, es), e)
    ensures Legal(n, es + [e]) && After(n, es + [e]) == Apply(After(n, es), e)
    decreases |es|
  {
    hide Apply, Enabled;
    if es == [] {
      RunOfOne(n, e);
      assert es + [e] == [e];
    } else {
      assert (es + [e])[0] == es[0] && (es + [e])[1..] == es[1..] + [e];
      OneMore(Apply(n, es[0]), es[1..], e);
    }
  }

  /** The events of one session as steps of the whole. */
  function StepsOf(q: Mesh.Session, es: seq<Event>): seq<Mesh.Step> {
    if es == [] then [] else [Mesh.Do(q, es[0])] + StepsOf(q, es[1..])
  }

  /** The events of one session run in the whole, if the messages it hears were sent. */
  lemma {:induction false} StepsAreSteps(sys: Mesh.System, q: Mesh.Session, es: seq<Event>)
    requires q in sys && Legal(sys[q], es)
    requires forall x :: 0 <= x < |es| && es[x].Deliver? ==> Mesh.WasSent(sys, es[x].msg)
    ensures Mesh.Legal(sys, StepsOf(q, es)) && Mesh.After(sys, StepsOf(q, es)) == sys[q := After(sys[q], es)]
    ensures forall x :: 0 <= x < |StepsOf(q, es)| ==> StepsOf(q, es)[x].who == q
    decreases |es|
  {
    if es == [] {
      assert sys[q := sys[q]] == sys;
    } else {
      var s := Mesh.Do(q, es[0]);
      assert Mesh.CanStep(sys, s);
      var next := Mesh.Next(sys, s);
      Mesh.SentGrows(sys[q], es[0]);
      assert Mesh.Extends(sys, next);
      hide Apply, Enabled, Mesh.WasSent;
      forall x | 0 <= x < |es[1..]| && es[1..][x].Deliver? ensures Mesh.WasSent(next, es[1..][x].msg) {
        assert es[1..][x] == es[x + 1];
        Mesh.SentLater(sys, next, es[x + 1].msg);
      }
      StepsAreSteps(next, q, es[1..]);
      assert StepsOf(q, es)[0] == s && StepsOf(q, es)[1..] == StepsOf(q, es[1..]);
      assert next[q := After(sys[q], es)] == sys[q := After(sys[q], es)];
    }
  }

  /** A session joins an empty call. */
  function Joined(id: Id, sid: string): Node {
    Apply(Apply(Apply(Fresh(id, sid, 2), StartJoin), MicOpened), IceReady)
  }

  lemma JoinedIsReady(id: Id, sid: string)
    ensures var n := Fresh(id, sid, 2);
            && Legal(n, [StartJoin, MicOpened, IceReady]) && After(n, [StartJoin, MicOpened, IceReady]) == Joined(id, sid)
            && NodeInv(Joined(id, sid)) && Ready(Joined(id, sid))
            && Joined(id, sid).selfId == id && Joined(id, sid).sid == sid
  {
    var n := Fresh(id, sid, 2);
    FreshOk(id, sid, 2);
    var n1 := Apply(n, StartJoin);
    ApplyKeeps(n, StartJoin);
    var n2 := Apply(n1, MicOpened);
    ApplyKeeps(n1, MicOpened);
    ApplyKeeps(n2, IceReady);
    var n3 := n2.(state := Active, joining := NoJoin);
    ReconcileFields(n3);
    assert !Waiting(n3) by { assert Ids([]) == {}; }
    TwoEvents(n, StartJoin, MicOpened);
    OneMore(n, [StartJoin, MicOpened], IceReady);
    assert [StartJoin, MicOpened] + [IceReady] == [StartJoin, MicOpened, IceReady];
    hide Reconcile, NodeInv, Waiting;
  }

  /** Some steps of q, and of q alone, that make it ready. */
  lemma MakeReady(sys: Mesh.System, m: Msg, q: Mesh.Session) returns (more: seq<Mesh.Step>)
    requires Mesh.SysInv(sys) && MayAnswer(sys, m, q) && Mesh.WasSent(sys, m)
    ensures Mesh.Legal(sys, more) && forall x :: 0 <= x < |more| ==> more[x].who == q
    ensures var sys1 := Mesh.After(sys, more);
            q in sys1 && NodeInv(sys1[q]) && Ready(sys1[q]) && sys1[q].selfId == q.id && sys1[q].sid == q.sid
            && Mesh.WasSent(sys1, m) && sys1 == sys[q := sys1[q]]
  {
    if q in sys {
      more := [];
      assert sys == sys[q := sys[q]];
    } else {
      more := BeginReady(sys, m, q);
    }
  }

  lemma Spawned(sys: Mesh.System, m: Msg, q: Mesh.Session)
    requires q !in sys && q.sid != "" && Mesh.WasSent(sys, m)
    ensures var sys0 := sys[q := Fresh(q.id, q.sid, 2)];
            && Mesh.Legal(sys, [Mesh.Spawn(q, 2)]) && Mesh.After(sys, [Mesh.Spawn(q, 2)]) == sys0
            && Mesh.WasSent(sys0, m)
  {
    MeshStep(sys, Mesh.Spawn(q, 2));
    var sys0 := Mesh.Next(sys, Mesh.Spawn(q, 2));
    assert Mesh.Extends(sys, sys0);
    Mesh.SentLater(sys, sys0, m);
  }

  lemma BeginReady(sys: Mesh.System, m: Msg, q: Mesh.Session) returns (more: seq<Mesh.Step>)
    requires q !in sys && q.sid != "" && Mesh.WasSent(sys, m)
    ensures Mesh.Legal(sys, more) && forall x :: 0 <= x < |more| ==> more[x].who == q
    ensures Mesh.After(sys, more) == sys[q := Joined(q.id, q.sid)]
    ensures Mesh.WasSent(sys[q := Joined(q.id, q.sid)], m)
    ensures NodeInv(Joined(q.id, q.sid)) && Ready(Joined(q.id, q.sid))
    ensures Joined(q.id, q.sid).selfId == q.id && Joined(q.id, q.sid).sid == q.sid
  {
    hide Joined, NodeInv, Ready, Mesh.Legal, Mesh.After, Mesh.WasSent, Legal, After;
    Spawned(sys, m, q);
    JoinedIsReady(q.id, q.sid);
    var sys0 := sys[q := Fresh(q.id, q.sid, 2)];
    var es := [StartJoin, MicOpened, IceReady];
    StepsAreSteps(sys0, q, es);
    MeshConcat(sys, [Mesh.Spawn(q, 2)], StepsOf(q, es));
    more := [Mesh.Spawn(q, 2)] + StepsOf(q, es);
    var sys1 := sys[q := Joined(q.id, q.sid)];
    assert sys0[q := Joined(q.id, q.sid)] == sys1 && sys1 == sys0[q := sys1[q]];
    StillSent(sys0, sys1, q, m);
  }

  /** What others sent stays sent; an offer to q is not q's own. */
  lemma StillSent(sys: Mesh.System, sys1: Mesh.System, q: Mesh.Session, m: Msg)
    requires q in sys && sys[q].sent == [] && q in sys1 && sys1 == sys[q := sys1[q]] && Mesh.WasSent(sys, m)
    ensures Mesh.WasSent(sys1, m)
  {
    var k, j :| k in sys && 0 <= j < |sys[k].sent| && sys[k].sent[j].msg == m;
    assert k != q;
    assert sys1[k].sent[j].msg == m;
  }

  lemma AnsweredWasSent(sys: Mesh.System, q: Mesh.Session, m: Msg) returns (answer: Msg)
    requires q in sys && HasAnswered(sys[q], m)
    ensures Mesh.WasSent(sys, answer) && AnswersTo(m, answer) && answer.sid == sys[q].sid
  {
    var x :| 0 <= x < |sys[q].sent| && AnswersTo(m, sys[q].sent[x].msg) && sys[q].sent[x].msg.sid == sys[q].sid;
    answer := sys[q].sent[x].msg;
  }

  /** Whoever may answer an offer can be brought to. */
  lemma AnswerComes(sys: Mesh.System, m: Msg, q: Mesh.Session) returns (more: seq<Mesh.Step>, answer: Msg)
    requires Mesh.SysInv(sys) && MayAnswer(sys, m, q) && Mesh.WasSent(sys, m)
    requires m.Offer? && m.from != m.to && IsOfferer(m.from, m.to) && m.sid != ""
    ensures Mesh.Legal(sys, more) && forall x :: 0 <= x < |more| ==> more[x].who == q
    ensures Mesh.WasSent(Mesh.After(sys, more), answer) && AnswersTo(m, answer) && answer.sid == q.sid
  {
    var ready := MakeReady(sys, m, q);
    LessTotal(m.from, m.to);
    hide NodeInv, Ready, Mesh.SysInv, Mesh.Legal, Mesh.After, Legal, After, Mesh.WasSent, HasAnswered;
    var sys1 := Mesh.After(sys, ready);
    var es := Answers(sys1[q], m);
    StepsAreSteps(sys1, q, es);
    MeshConcat(sys, ready, StepsOf(q, es));
    more := ready + StepsOf(q, es);
    SameId(sys1[q], es);
    answer := AnsweredWasSent(Mesh.After(sys, more), q, m);
  }

  lemma {:induction false} SameId(n: Node, es: seq<Event>)
    requires Legal(n, es)
    ensures After(n, es).selfId == n.selfId && After(n, es).sid == n.sid
    decreases |es|
  {
    if es != [] {
      Mesh.SentGrows(n, es[0]);
      hide Apply, Enabled;
      SameId(Apply(n, es[0]), es[1..]);
    }
  }

  /** All offers of this session to the peer of connection j can still be answered. */
  ghost predicate PeerIsThere(sys: Mesh.System, k: Mesh.Session, j: nat)
    requires k in sys && j < |sys[k].recs|
  {
    forall x :: 0 <= x < |sys[k].sent| && sys[k].sent[x].msg.Offer? && sys[k].sent[x].msg.to == sys[k].recs[j].id
      ==> Answerable(sys, sys[k].sent[x].msg)
  }

  lemma {:induction false} OfferCountHas(sent: seq<Envelope>, rec: nat) returns (x: nat)
    requires OfferCount(sent, rec) > 0
    ensures x < |sent| && sent[x].rec == rec && sent[x].msg.Offer?
  {
    var last := |sent| - 1;
    if sent[last].rec == rec && sent[last].msg.Offer? {
      x := last;
    } else {
      x := OfferCountHas(sent[..last], rec);
    }
  }

  lemma OfferOf(n: Node, j: nat) returns (x: nat)
    requires NodeInv(n) && j < |n.recs| && OfferedBefore(n, j)
    ensures x < |n.sent| && n.sent[x].msg.Offer? && n.sent[x].msg.to == n.recs[j].id && n.sent[x].msg.from == n.selfId
    ensures n.sent[x].msg.sid == n.sid && IsOfferer(n.selfId, n.recs[j].id) && n.recs[j].id != n.selfId
  {
    var i :| 0 <= i < |n.recs| && i != j && n.recs[i].id == n.recs[j].id && n.recs[i].tries > 0;
    x := OfferCountHas(n.sent, i);
    assert SentOk(n, n.sent[x]);
    assert RecOk(n.selfId, n.sid, n.recs, i);
  }

  /** A preparing connection takes an answer to an offer of this session to its peer. */
  lemma AnswerIsTaken(n: Node, j: nat, m: Msg, answer: Msg)
    requires Preparing(n, j) && IsOfferer(n.selfId, n.recs[j].id) && n.recs[j].id != n.selfId
    requires m.from == n.selfId && m.sid == n.sid && m.to == n.recs[j].id
    requires AnswersTo(m, answer) && answer.sid != ""
    ensures Takes(n, answer, j)
  {
  }

  lemma CanTakeAfterOffer(steps: seq<Mesh.Step>, k: Mesh.Session, j: nat)
    requires Mesh.Legal(map[], steps) && k in Mesh.After(map[], steps)
    requires Preparing(Mesh.After(map[], steps)[k], j)
    requires PeerIsThere(Mesh.After(map[], steps), k, j) && OfferedBefore(Mesh.After(map[], steps)[k], j)
    ensures CanTake(Mesh.After(map[], steps), k, j)
  {
    var sys := Mesh.After(map[], steps);
    Mesh.RunKeepsSystem(map[], steps);
    var n := sys[k];
    assert NodeInv(n) && n.selfId == k.id && n.sid == k.sid && k.sid != "";
    var x := OfferOf(n, j);
    var m := n.sent[x].msg;
    assert Mesh.WasSent(sys, m);
    var q: Mesh.Session :| MayAnswer(sys, m, q);
    hide NodeInv, Mesh.SysInv, Current, HandleSignal;
    var more, answer := AnswerComes(sys, m, q);
    AnswerIsTaken(n, j, m, answer);
    assert WithoutStepOf(more, k);
  }

  /** The exact condition, over all runs: while the peer is there to answer, a connection that prepares its
      offer can take an answer if and only if an earlier connection of the session has offered. */
  lemma CanTakeExactlyWhen(steps: seq<Mesh.Step>, k: Mesh.Session, j: nat)
    requires Mesh.Legal(map[], steps) && k in Mesh.After(map[], steps)
    requires Preparing(Mesh.After(map[], steps)[k], j) && PeerIsThere(Mesh.After(map[], steps), k, j)
    ensures CanTake(Mesh.After(map[], steps), k, j) <==> OfferedBefore(Mesh.After(map[], steps)[k], j)
  {
    hide Mesh.Legal, Mesh.After, CanTake, OfferedBefore, PeerIsThere;
    if CanTake(Mesh.After(map[], steps), k, j) {
      CanTakeOnlyAfterOffer(steps, k, j);
    } else if OfferedBefore(Mesh.After(map[], steps)[k], j) {
      CanTakeAfterOffer(steps, k, j);
    }
  }

  // ------------------------------------------------ and such a run

  const CALLER := Mesh.Session([1], "s")
  const CALLEE := Mesh.Session([2], "t")
  const BOTH := [Member([1], "s", 0), Member([2], "t", 0)]

  /** What the caller offers first. */
  const FIRST_OFFER := Offer([1], [2], "s", "t", "sdp", 1)

  lemma JoinedAlone()
    ensures Joined([1], "s") == Node([1], "s", 2, Active, NoJoin, true, [], map[], [], [])
  {
    var n := Node([1], "s", 2, Active, NoJoin, true, [], map[], [], []);
    assert Ids([]) == {} && InCall(n) == [] && Obsolete(n) == {};
    assert n.peers - {} == n.peers;
    assert Reconcile(n) == n;
  }

  lemma BothInCall()
    ensures Distinct(BOTH) && Admitted(BOTH, 2) == BOTH && Ids(BOTH) == {[1], [2]}
    ensures IsOfferer([1], [2])
  {
    assert Less([1], [2]);
    assert Ordered(BOTH);
    InOrderIs(BOTH, BOTH);
    assert BOTH[0].id == [1] && BOTH[1].id == [2];
    forall x | x in {[1], [2]} ensures x in Ids(BOTH) {
      var k := if x == [1] then 0 else 1;
      assert BOTH[k].id == x;
    }
  }

  /** The caller sees the callee and prepares an offer. */
  function Met(): Node {
    Node([1], "s", 2, Active, NoJoin, true, BOTH, map[[2] := 0], [NewRecord([2], "t", 0, None, true)], [])
  }

  lemma Meets()
    ensures Enabled(Joined([1], "s"), SetRoster(BOTH)) && Apply(Joined([1], "s"), SetRoster(BOTH)) == Met()
  {
    JoinedAlone();
    BothInCall();
    var n := Joined([1], "s").(roster := BOTH);
    assert Obsolete(n) == {} && n.peers - {} == n.peers && DropPeers(n, {}) == n;
    hide Admitted, Ids, Obsolete, DropPeers;
    assert BOTH[1..][0] == BOTH[1] && BOTH[1..][1..] == [];
    var n1 := AddPeer(n, [2], "t", 0, None);
    assert AddMissing(n1, []) == n1 && AddMissing(n, BOTH[1..]) == n1 && AddMissing(n, BOTH) == n1;
    assert n1 == Met();
  }

  /** And then sends it. */
  function Called(): Node {
    Node([1], "s", 2, Active, NoJoin, true, BOTH, map[[2] := 0],
         [NewRecord([2], "t", 0, None, true).(making := false, localSdp := Some("sdp"), tries := 1, sending := true)],
         [Envelope(0, FIRST_OFFER)])
  }

  lemma Calls()
    ensures Enabled(Met(), OfferMade(0, "sdp")) && Apply(Met(), OfferMade(0, "sdp")) == Called()
  {
  }

  /** The caller's events up to its offer. */
  const OPENING := [StartJoin, MicOpened, IceReady] + [SetRoster(BOTH)] + [OfferMade(0, "sdp")]

  lemma OpeningRun()
    ensures var es := [StartJoin, MicOpened, IceReady] + [SetRoster(BOTH)] + [OfferMade(0, "sdp")];
            Legal(Fresh([1], "s", 2), es) && After(Fresh([1], "s", 2), es) == Called()
  {
    hide *;
    var n := Fresh([1], "s", 2);
    JoinedIsReady([1], "s");
    Meets();
    Calls();
    var es := [StartJoin, MicOpened, IceReady];
    OneMore(n, es, SetRoster(BOTH));
    OneMore(n, es + [SetRoster(BOTH)], OfferMade(0, "sdp"));
  }

  lemma Opening()
    ensures Legal(Fresh([1], "s", 2), OPENING) && After(Fresh([1], "s", 2), OPENING) == Called()
  {
    OpeningRun();
    hide Legal, After, Fresh, Called;
  }

  /** Then the answer arrives, the connection fails and is rebuilt. */
  function Rebuilt(answer: Msg): Node {
    var first := Called().recs[0].(
      answered := true, remoteSid := answer.sid, applying := true, accepted := Some(answer));
    Called().(peers := map[[2] := 1], recs := [first, NewRecord([2], "t", 1, Some(0), true)])
  }

  lemma Rebuilds(answer: Msg)
    requires AnswersTo(FIRST_OFFER, answer) && answer.sid != ""
    ensures Legal(Called(), [Deliver(answer), ConnectionFailed(0)])
    ensures After(Called(), [Deliver(answer), ConnectionFailed(0)]) == Rebuilt(answer)
    ensures Preparing(Rebuilt(answer), 1)
  {
    BothInCall();
    var n := Called();
    var n1 := Apply(n, Deliver(answer));
    assert n1 == n.(recs := [Rebuilt(answer).recs[0]]);
    LosesFirst(answer);
    hide Apply, Enabled;
    TwoEvents(n, Deliver(answer), ConnectionFailed(0));
  }

  lemma LosesFirst(answer: Msg)
    ensures var n1 := Called().(recs := [Rebuilt(answer).recs[0]]);
            Enabled(n1, ConnectionFailed(0)) && Apply(n1, ConnectionFailed(0)) == Rebuilt(answer)
  {
    var n1 := Called().(recs := [Rebuilt(answer).recs[0]]);
    var n2 := DropPeers(n1, {[2]});
    assert Current(n1, 0) && n2.recs == n1.recs && n2.peers == map[];
    assert BOTH[1..][0] == BOTH[1] && SidOf(BOTH, [2]) == "t";
    assert IsOfferer([1], [2]);
  }

  /** A second copy of the answer arrives while the new connection prepares its offer. */
  lemma TakesCopy(answer: Msg)
    requires AnswersTo(FIRST_OFFER, answer) && answer.sid != ""
    ensures var n := Apply(Rebuilt(answer), Deliver(answer));
            && Answered(n, 1) && n.recs[1].making && n.recs[1].accepted == Some(answer)
            && Spoken(n.sent, 1) == []
  {
    BothInCall();
    var n := Apply(Rebuilt(answer), Deliver(answer));
    assert n.sent == [Envelope(0, FIRST_OFFER)];
    assert n.sent[..0] == [];
  }

  /** All of it for the caller. */
  function Ending(answer: Msg): seq<Event> {
    [Deliver(answer), ConnectionFailed(0)] + [Deliver(answer)]
  }

  /** A run of two sessions in which the rebuilt connection takes a second copy of the answer that its
      predecessor asked for, and so never says a word: not in any continuation of the caller's events in
      which the browser does not turn that answer down. */
  lemma StaleAnswerHappens() returns (steps: seq<Mesh.Step>, answer: Msg)
    ensures Mesh.Legal(map[], steps) && CALLER in Mesh.After(map[], steps)
    ensures var n := Mesh.After(map[], steps)[CALLER];
            && Answered(n, 1) && n.recs[1].making && n.recs[1].accepted == Some(answer)
            && forall es :: Legal(n, es) && AnswerApplied(1, false) !in es ==> Spoken(After(n, es).sent, 1) == []
  {
    var first, m := CallIsAnswered();
    answer := m;
    var sys := Mesh.After(map[], first);
    Rebuilds(answer);
    TakesCopy(answer);
    AlwaysArrives(Rebuilt(answer), answer);
    hide Apply, Enabled, Called, Rebuilt, Mesh.After, Mesh.Legal, Answered;
    OneMore(Called(), [Deliver(answer), ConnectionFailed(0)], Deliver(answer));
    StepsAreSteps(sys, CALLER, Ending(answer));
    MeshConcat(map[], first, StepsOf(CALLER, Ending(answer)));
    steps := first + StepsOf(CALLER, Ending(answer));
    var n := Mesh.After(map[], steps)[CALLER];
    assert NodeInv(n) by { Mesh.RunKeepsSystem(map[], steps); }
    forall es | Legal(n, es) && AnswerApplied(1, false) !in es ensures Spoken(After(n, es).sent, 1) == [] {
      EarlyAnswerSilencesOffer(n, es, 1);
    }
  }

  lemma AlwaysArrives(n: Node, m: Msg)
    requires m.sid != ""
    ensures Enabled(n, Deliver(m))
  {
  }

  /** The caller offers and the callee answers. */
  lemma CallIsAnswered() returns (steps: seq<Mesh.Step>, answer: Msg)
    ensures Mesh.Legal(map[], steps) && CALLER in Mesh.After(map[], steps) && Mesh.After(map[], steps)[CALLER] == Called()
    ensures Mesh.WasSent(Mesh.After(map[], steps), answer) && AnswersTo(FIRST_OFFER, answer) && answer.sid == "t"
  {
    var start := [Mesh.Spawn(CALLER, 2)];
    var sys0: Mesh.System := map[][CALLER := Fresh([1], "s", 2)];
    MeshStep(map[], start[0]);
    Opening();
    hide Apply, Enabled, Called, Fresh;
    StepsAreSteps(sys0, CALLER, OPENING);
    MeshConcat(map[], start, StepsOf(CALLER, OPENING));
    var opening := start + StepsOf(CALLER, OPENING);
    var sys1 := Mesh.After(map[], opening);
    assert sys1[CALLER] == Called();
    OfferIsOut(sys1);
    Mesh.RunKeepsSystem(map[], opening);
    var more, m := AnswerComes(sys1, FIRST_OFFER, CALLEE);
    answer := m;
    OthersLeave(sys1, more, CALLER);
    MeshConcat(map[], opening, more);
    steps := opening + more;
  }

  lemma OfferIsOut(sys: Mesh.System)
    requires CALLER in sys && sys[CALLER] == Called()
    ensures Mesh.WasSent(sys, FIRST_OFFER)
  {
    assert sys[CALLER].sent[0].msg == FIRST_OFFER;
  }
}
