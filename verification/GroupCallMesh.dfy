/** Any number of participants of one group call, each joining as often as it likes, over a network
    that delays, duplicates, reorders and loses: a message once sent may arrive at its addressee any
    number of times, at any later moment.  Rosters are arbitrary. */
module GroupCallMesh {
  import opened Options
  import opened Roster
  import opened GroupCall

  /** One join session of one participant. */
  datatype Session = Session(id: Id, sid: string)

  type System = map<Session, Node>

  datatype Step = Spawn(who: Session, max: nat) | Do(who: Session, event: Event)

  ghost predicate WasSent(sys: System, m: Msg) {
    exists k, j :: k in sys && 0 <= j < |sys[k].sent| && sys[k].sent[j].msg == m
  }

  ghost predicate CanStep(sys: System, s: Step) {
    match s
    case Spawn(who, _) => who !in sys && who.sid != ""
    case Do(who, e) => who in sys && (e.Deliver? ==> WasSent(sys, e.msg)) && Enabled(sys[who], e)
  }

  function Next(sys: System, s: Step): System
    requires s.Do? ==> s.who in sys && Enabled(sys[s.who], s.event)
  {
    match s
    case Spawn(who, max) => sys[who := Fresh(who.id, who.sid, max)]
    case Do(who, e) => sys[who := Apply(sys[who], e)]
  }

  ghost predicate Legal(sys: System, steps: seq<Step>)
    decreases |steps|
  {
    steps == [] || (CanStep(sys, steps[0]) && Legal(Next(sys, steps[0]), steps[1..]))
  }

  ghost function After(sys: System, steps: seq<Step>): System
    requires Legal(sys, steps)
    decreases |steps|
  {
    if steps == [] then sys else After(Next(sys, steps[0]), steps[1..])
  }

  /** The session sent an offer to `to`. */
  ghost predicate Offered(sys: System, from: Session, to: Id) {
    from in sys && exists j :: 0 <= j < |sys[from].sent| && sys[from].sent[j].msg.Offer? && sys[from].sent[j].msg.to == to
  }

  /** Where a record's remote session came from. */
  ghost predicate Caused(sys: System, who: Session, p: Peer) {
    && (p.remoteOffer && p.remoteSid != "" ==> Offered(sys, Session(p.id, p.remoteSid), who.id))
    && (match p.accepted
        case None => true
        case Some(m) => WasSent(sys, m) && m.to == who.id && m.toSid == who.sid && Offered(sys, who, m.from))
  }

  ghost predicate SysInv(sys: System) {
    forall k :: k in sys ==>
      && k.sid != "" && sys[k].selfId == k.id && sys[k].sid == k.sid
      && NodeInv(sys[k])
      && forall j :: 0 <= j < |sys[k].recs| ==> Caused(sys, k, sys[k].recs[j])
  }

  // ------------------------------------------------ logs only grow

  ghost predicate Extends(a: System, b: System) {
    forall k :: k in a ==> k in b && a[k].sent <= b[k].sent
  }

  lemma SentGrows(n: Node, e: Event)
    requires Enabled(n, e)
    ensures n.sent <= Apply(n, e).sent
    ensures Apply(n, e).selfId == n.selfId && Apply(n, e).sid == n.sid
  {
    hide InCall, Ids, SidOf, Current, AddMissing;
    if e.SetRoster? {
      ReconcileFields(n.(roster := e.list));
    } else if e.IceReady? {
      ReconcileFields(n.(state := Active, joining := NoJoin));
    }
  }

  lemma CausedLater(a: System, b: System, who: Session, p: Peer)
    requires Extends(a, b) && Caused(a, who, p)
    ensures Caused(b, who, p)
  {
    OfferedLater(a, b, Session(p.id, p.remoteSid), who.id);
    if p.accepted.Some? {
      OfferedLater(a, b, who, p.accepted.value.from);
      SentLater(a, b, p.accepted.value);
    }
  }

  lemma OfferedLater(a: System, b: System, from: Session, to: Id)
    requires Extends(a, b)
    ensures Offered(a, from, to) ==> Offered(b, from, to)
  {
    if Offered(a, from, to) {
      var j :| 0 <= j < |a[from].sent| && a[from].sent[j].msg.Offer? && a[from].sent[j].msg.to == to;
      assert b[from].sent[j] == a[from].sent[j];
    }
  }

  lemma SentLater(a: System, b: System, m: Msg)
    requires Extends(a, b)
    ensures WasSent(a, m) ==> WasSent(b, m)
  {
    if WasSent(a, m) {
      var k, j :| k in a && 0 <= j < |a[k].sent| && a[k].sent[j].msg == m;
      assert b[k].sent[j] == a[k].sent[j];
    }
  }

  // ------------------------------------------------ what a message in the network means

  /** A message in the network was sent by the session it names, in the direction of its pair; an
      answer answers an offer which the addressed session had sent. */
  lemma SentMeaning(sys: System, m: Msg)
    requires SysInv(sys) && WasSent(sys, m)
    ensures Session(m.from, m.sid) in sys && m.sid != ""
    ensures m.Offer? ==> IsOfferer(m.from, m.to) && Offered(sys, Session(m.from, m.sid), m.to)
    ensures m.Answer? ==> IsOfferer(m.to, m.from) && m.toSid != "" && Offered(sys, Session(m.to, m.toSid), m.from)
  {
    var k, j :| k in sys && 0 <= j < |sys[k].sent| && sys[k].sent[j].msg == m;
    var n := sys[k];
    assert k == Session(m.from, m.sid) && SentOk(n, n.sent[j]) by {
      assert SentOk(n, n.sent[j]);
    }
    var rec := n.sent[j].rec;
    assert RecOk(n.selfId, n.sid, n.recs, rec);
    assert Caused(sys, k, n.recs[rec]);
    LessTotal(n.selfId, n.recs[rec].id);
  }

  // ------------------------------------------------ one step

  /** How a step can make a record know a remote session: only by what was delivered to it. */
  lemma RecordsLearn(n: Node, e: Event, j: nat)
    requires NodeInv(n) && Enabled(n, e) && j < |Apply(n, e).recs|
    ensures var p := Apply(n, e).recs[j];
            var known := j < |n.recs|;
            && (p.remoteOffer && p.remoteSid != "" ==>
                  || (known && n.recs[j].remoteOffer && n.recs[j].remoteSid == p.remoteSid && n.recs[j].id == p.id)
                  || (e.Deliver? && e.msg.Offer? && e.msg.to == n.selfId && e.msg.from == p.id && e.msg.sid == p.remoteSid))
            && (p.accepted.Some? ==>
                  || (known && n.recs[j].accepted == p.accepted)
                  || (e.Deliver? && p.accepted == Some(e.msg) && e.msg.Answer? && e.msg.to == n.selfId
                      && e.msg.toSid in {"", n.sid} && IsOfferer(n.selfId, e.msg.from)))
  {
    if e.Deliver? {
      DeliverLearns(n, e.msg, j);
      if e.msg.from in n.peers {
        var k := n.peers[e.msg.from];
        assert n.recs[k].id == e.msg.from && RecOk(n.selfId, n.sid, n.recs, k);
      }
    } else if e.SetRoster? {
      if n.state in {Active, Full} { ReconcileLearns(n.(roster := e.list), j); }
    } else if e.IceReady? {
      ReconcileLearns(n.(state := Active, joining := NoJoin), j);
    } else {
      hide Core, InCall, Ids, Grown;
      OtherLearns(n, e, j);
    }
  }

  /** The knowledge part of a record. */
  predicate SameKnowledge(a: Peer, b: Peer) {
    a.id == b.id && a.remoteOffer == b.remoteOffer && a.remoteSid == b.remoteSid
    && (b.accepted == a.accepted || b.accepted == None)
  }

  predicate Ignorant(p: Peer) {
    !p.remoteOffer && p.accepted == None
  }

  predicate Learns(a: seq<Peer>, b: seq<Peer>, j: nat)
    requires j < |b|
  {
    if j < |a| then SameKnowledge(a[j], b[j]) else Ignorant(b[j])
  }

  lemma ReconcileLearns(n: Node, j: nat)
    requires j < |Reconcile(n).recs|
    ensures Learns(n.recs, Reconcile(n).recs, j)
  {
    var n0 := DropPeers(n.(state := Active), Obsolete(n));
    if !Waiting(n) {
      AddLearns(n0, InCall(n), j);
    }
  }

  lemma {:induction false} AddLearns(n: Node, want: seq<Member>, j: nat)
    requires j < |AddMissing(n, want).recs|
    ensures Learns(n.recs, AddMissing(n, want).recs, j)
    decreases |want|
  {
    if want != [] && n.stream {
      if want[0].id == n.selfId || want[0].id in n.peers {
        AddLearns(n, want[1..], j);
      } else {
        AddLearns(AddPeer(n, want[0].id, want[0].sid, 0, None), want[1..], j);
      }
    }
  }

  lemma OtherLearns(n: Node, e: Event, j: nat)
    requires Enabled(n, e) && !e.Deliver? && !e.SetRoster? && !e.IceReady? && j < |Apply(n, e).recs|
    ensures Learns(n.recs, Apply(n, e).recs, j)
  {
    hide InCall, Ids, SidOf, Reconcile, HandleSignal;
    if e.ConnectionFailed? {
      RebuildLearns(n, e.rec, j);
    } else if OfRecord(e) {
      RecordLearns(n, e, j);
    }
  }

  lemma RebuildLearns(n: Node, rec: nat, j: nat)
    requires rec < |n.recs| && j < |Rebuild(n, rec).recs|
    ensures Learns(n.recs, Rebuild(n, rec).recs, j)
  {
  }

  lemma RecordLearns(n: Node, e: Event, j: nat)
    requires Enabled(n, e) && OfRecord(e) && j < |Apply(n, e).recs|
    ensures Learns(n.recs, Apply(n, e).recs, j)
  {
    hide OfferMadeStep, RetryStep, AnswerMadeStep;
    if e.OfferMade? || e.RetryFires? || e.AnswerMade? {
      SendingLearns(n, e.rec, if e.RetryFires? then "" else e.sdp);
    }
  }

  lemma SendingLearns(n: Node, rec: nat, sdp: string)
    requires rec < |n.recs|
    ensures forall j :: 0 <= j < |OfferMadeStep(n, rec, sdp).recs| ==> Learns(n.recs, OfferMadeStep(n, rec, sdp).recs, j)
    ensures forall j :: 0 <= j < |RetryStep(n, rec).recs| ==> Learns(n.recs, RetryStep(n, rec).recs, j)
    ensures forall j :: 0 <= j < |AnswerMadeStep(n, rec, sdp).recs| ==> Learns(n.recs, AnswerMadeStep(n, rec, sdp).recs, j)
  {
    hide Current;
  }

  /** What `_onOffer` leaves in a record: nothing new, or the session the offer came from. */
  predicate FromOffer(n: Node, b: seq<Peer>, j: nat, msg: Msg)
    requires j < |b|
  {
    && b[j].remoteOffer && b[j].remoteSid == msg.sid
    && (if j < |n.recs| then
          b[j].id == n.recs[j].id && b[j].accepted == n.recs[j].accepted && msg.from in n.peers && n.peers[msg.from] == j
        else b[j].id == msg.from && b[j].accepted == None)
  }

  lemma OfferLearns(n: Node, msg: Msg, j: nat)
    requires msg.Offer? && j < |OnOffer(n, msg).recs|
    ensures Learns(n.recs, OnOffer(n, msg).recs, j) || FromOffer(n, OnOffer(n, msg).recs, j, msg)
  {
    hide InCall, Ids, SidOf, Current, Learns, FromOffer, BeginAnswer;
    var n1 := if msg.from in n.peers && n.peers[msg.from] < |n.recs| && n.recs[n.peers[msg.from]].remoteSid !in {"", msg.sid}
              then DropPeers(n, {msg.from}) else n;
    var n2 := if msg.from in n1.peers then n1 else AddPeer(n1, msg.from, SidOf(InCall(n), msg.from), 0, None);
    if j < |n.recs| {
      LearnsNothing(n.recs, j);
    }
    if OnOffer(n, msg) == BeginAnswer(n2, n2.peers[msg.from], msg.sid) {
      BeginLearns(n, n1, n2, msg, j);
    } else {
      assert OnOffer(n, msg).recs == n.recs || OnOffer(n, msg).recs == n1.recs;
      DropLearns(n, {msg.from}, j);
    }
  }

  lemma DropLearns(n: Node, gone: set<Id>, j: nat)
    requires j < |n.recs|
    ensures Learns(n.recs, DropPeers(n, gone).recs, j)
  {
  }

  lemma BeginLearns(n: Node, n1: Node, n2: Node, msg: Msg, j: nat)
    requires n1 == n || n1 == DropPeers(n, {msg.from})
    requires n2 == if msg.from in n1.peers then n1 else AddPeer(n1, msg.from, SidOf(InCall(n), msg.from), 0, None)
    requires j < |BeginAnswer(n2, n2.peers[msg.from], msg.sid).recs|
    ensures var b := BeginAnswer(n2, n2.peers[msg.from], msg.sid).recs;
            Learns(n.recs, b, j) || FromOffer(n, b, j, msg)
  {
    hide InCall, Ids, SidOf, Current;
  }

  predicate FromAnswer(n: Node, b: seq<Peer>, j: nat, msg: Msg)
    requires j < |b|
  {
    && j < |n.recs| && IsOfferer(n.selfId, msg.from)
    && b[j].accepted == Some(msg) && msg.from in n.peers && n.peers[msg.from] == j
    && b[j].id == n.recs[j].id && b[j].remoteOffer == n.recs[j].remoteOffer
  }

  lemma AnswerLearns(n: Node, msg: Msg, j: nat)
    requires msg.Answer? && j < |OnAnswer(n, msg).recs|
    ensures Learns(n.recs, OnAnswer(n, msg).recs, j) || FromAnswer(n, OnAnswer(n, msg).recs, j, msg)
  {
    hide InCall, Ids, SidOf, Current;
  }

  lemma DeliverLearns(n: Node, msg: Msg, j: nat)
    requires j < |HandleSignal(n, msg).recs|
    ensures var b := HandleSignal(n, msg).recs;
            || Learns(n.recs, b, j)
            || (msg.Offer? && msg.to == n.selfId && FromOffer(n, b, j, msg))
            || (msg.Answer? && msg.to == n.selfId && msg.toSid in {"", n.sid} && FromAnswer(n, b, j, msg))
  {
    hide OnOffer, OnAnswer, Learns, FromOffer, FromAnswer;
    if HandleSignal(n, msg) == n {
      LearnsNothing(n.recs, j);
    } else if msg.Offer? {
      OfferLearns(n, msg, j);
    } else {
      AnswerLearns(n, msg, j);
    }
  }

  lemma LearnsNothing(a: seq<Peer>, j: nat)
    requires j < |a|
    ensures Learns(a, a, j)
  {
  }

  lemma StepCaused(sys: System, s: Step, j: nat)
    requires SysInv(sys) && CanStep(sys, s) && s.Do? && j < |Next(sys, s)[s.who].recs|
    ensures Caused(Next(sys, s), s.who, Next(sys, s)[s.who].recs[j])
  {
    var n, n1 := sys[s.who], Apply(sys[s.who], s.event);
    var sys1 := Next(sys, s);
    SentGrows(n, s.event);
    assert Extends(sys, sys1);
    var p := n1.recs[j];
    RecordsLearn(n, s.event, j);
    hide NodeInv, Apply, Enabled;
    if s.event.Deliver? {
      SentMeaning(sys, s.event.msg);
      SentLater(sys, sys1, s.event.msg);
    }
    if j < |n.recs| {
      assert Caused(sys, s.who, n.recs[j]);
      CausedLater(sys, sys1, s.who, n.recs[j]);
    }
    if s.event.Deliver? && s.event.msg.Offer? {
      OfferedLater(sys, sys1, Session(s.event.msg.from, s.event.msg.sid), s.event.msg.to);
    } else if s.event.Deliver? {
      OfferedLater(sys, sys1, Session(s.event.msg.to, s.event.msg.toSid), s.event.msg.from);
    }
  }

  lemma NextKeeps(sys: System, s: Step)
    requires SysInv(sys) && CanStep(sys, s)
    ensures SysInv(Next(sys, s))
  {
    var sys1 := Next(sys, s);
    match s {
      case Spawn(who, max) => FreshOk(who.id, who.sid, max);
      case Do(who, e) => ApplyKeeps(sys[who], e); SentGrows(sys[who], e);
    }
    assert Extends(sys, sys1);
    hide NodeInv, Apply, Enabled, Caused;
    forall k, j | k in sys1 && 0 <= j < |sys1[k].recs| ensures Caused(sys1, k, sys1[k].recs[j]) {
      if s.Do? && k == s.who {
        StepCaused(sys, s, j);
      } else {
        CausedLater(sys, sys1, k, sys[k].recs[j]);
      }
    }
  }

  lemma {:induction false} RunKeepsSystem(sys: System, steps: seq<Step>)
    requires SysInv(sys) && Legal(sys, steps)
    ensures SysInv(After(sys, steps))
    decreases |steps|
  {
    if steps != [] {
      hide SysInv, CanStep;
      NextKeeps(sys, steps[0]);
      RunKeepsSystem(Next(sys, steps[0]), steps[1..]);
    }
  }

  // ------------------------------------------------ the theorems

  /** Glare freedom over all runs: of two participants only the smaller id ever offers and only the
      larger one ever answers, and every answer answers an offer the addressed session had sent. */
  lemma GlareFree(steps: seq<Step>, m: Msg)
    requires Legal(map[], steps) && WasSent(After(map[], steps), m)
    ensures m.Offer? ==> Less(m.from, m.to)
    ensures m.Answer? ==> Less(m.to, m.from) && Offered(After(map[], steps), Session(m.to, m.toSid), m.from)
  {
    RunKeepsSystem(map[], steps);
    SentMeaning(After(map[], steps), m);
  }

  /** No connection ever gets both a local and a remote offer, and an accepted answer was addressed to
      this very session, by the peer of the connection, after this session had sent that peer an offer. */
  lemma OneOfferPerConnection(steps: seq<Step>, k: Session, j: nat)
    requires Legal(map[], steps) && k in After(map[], steps) && j < |After(map[], steps)[k].recs|
    ensures var sys := After(map[], steps);
            var p := sys[k].recs[j];
            && !(p.localOffer && p.remoteOffer)
            && (p.accepted.Some? ==>
                  && p.accepted.value.toSid == k.sid && p.accepted.value.from == p.id
                  && Offered(sys, k, p.id))
  {
    RunKeepsSystem(map[], steps);
    var n := After(map[], steps)[k];
    assert RecOk(n.selfId, n.sid, n.recs, j);
    assert Caused(After(map[], steps), k, n.recs[j]);
    LessTotal(n.selfId, n.recs[j].id);
  }

  /** Symmetry: two active participants whose rosters are permutations of each other and hold them both
      are connected to each other, exactly one of them offers, both belong to the same mesh, and that has
      at most max(max-1)/2 links. */
  lemma MeshSymmetric(a: Node, b: Node)
    requires NodeInv(a) && NodeInv(b) && a.state == Active && b.state == Active && a.stream && b.stream
    requires multiset(a.roster) == multiset(b.roster) && a.max == b.max && a.selfId != b.selfId
    requires a.selfId in Ids(a.roster) && b.selfId in Ids(b.roster)
    ensures b.selfId in a.peers && a.selfId in b.peers
    ensures IsOfferer(a.selfId, b.selfId) != IsOfferer(b.selfId, a.selfId)
    ensures a.peers.Keys + {a.selfId} == b.peers.Keys + {b.selfId}
    ensures 2 * |Links(a.peers.Keys + {a.selfId})| <= a.max * (a.max - 1)
  {
    hide Core, Distinct, Less, Links, Admitted, Ids;
    AdmissionAgreement(a.roster, b.roster, a.max);
    LessTotal(a.selfId, b.selfId);
    assert Ids(a.roster) == Ids(b.roster) by {
      SameIds(a.roster, b.roster);
      SameIds(b.roster, a.roster);
    }
    var ids := Ids(InCall(a));
    assert a.peers.Keys + {a.selfId} == ids;
    MeshSize(InCall(a), a.max);
  }

  lemma SameIds(r1: seq<Member>, r2: seq<Member>)
    requires multiset(r1) == multiset(r2)
    ensures Ids(r1) <= Ids(r2)
  {
    forall id | id in Ids(r1) ensures id in Ids(r2) {
      var k :| 0 <= k < |r1| && r1[k].id == id;
      assert r1[k] in multiset(r2);
    }
  }

  lemma MeshSize(r: seq<Member>, max: nat)
    requires |r| <= max
    ensures 2 * |Links(Ids(r))| <= max * (max - 1)
  {
    IdsBound(r);
    LinkCount(Ids(r));
    Squares(|Ids(r)|, max);
  }

  lemma Squares(n: nat, max: nat)
    requires n <= max
    ensures n * (n - 1) <= max * (max - 1)
  {
    if n > 0 {
      assert n * (n - 1) <= max * (n - 1) <= max * (max - 1);
    } else if max > 0 {
      assert 0 <= max * (max - 1);
    }
  }
}
