/** Any number of whole sessions, each with both its halves, over a network that loses, repeats and
    reorders: an offer or answer that comes in was sent by some session's call, over whichever transport;
    joins, leaves and heartbeats are arbitrary. */
module GroupCallNet {
  import opened Options
  import opened Roster
  import Call = GroupCall
  import Host = GroupCallHost
  import Mesh = GroupCallMesh
  import Sig = GroupCallSignal
  import Stale = GroupCallStale

  type Net = map<Mesh.Session, Host.Session>

  datatype Step = Begin(who: Mesh.Session, rt: bool, max: nat) | Do(who: Mesh.Session, step: Host.Step)

  /** The calls alone. */
  function Calls(net: Net): Mesh.System {
    map k | k in net :: net[k].call
  }

  /** What comes in as an offer or answer was sent. */
  ghost predicate Carried(net: Net, h: Host.Step) {
    h.Hear? && h.m.kind in {Sig.Offer, Sig.Answer} ==> Mesh.WasSent(Calls(net), Host.BodyOf(h.m, h.toSid, h.sdp))
  }

  ghost predicate CanStep(net: Net, s: Step) {
    match s
    case Begin(who, _, _) => who !in net && who.sid != ""
    case Do(who, h) => who in net && Host.Enabled(net[who], h) && Carried(net, h)
  }

  function Next(net: Net, s: Step): Net
    requires s.Do? ==> s.who in net && Host.Enabled(net[s.who], s.step)
  {
    match s
    case Begin(who, rt, max) => net[who := Host.Begin(who.id, who.sid, rt, max)]
    case Do(who, h) => net[who := Host.Apply(net[who], h)]
  }

  ghost predicate Legal(net: Net, steps: seq<Step>)
    decreases |steps|
  {
    steps == [] || (CanStep(net, steps[0]) && Legal(Next(net, steps[0]), steps[1..]))
  }

  ghost function After(net: Net, steps: seq<Step>): Net
    requires Legal(net, steps)
    decreases |steps|
  {
    if steps == [] then net else After(Next(net, steps[0]), steps[1..])
  }

  // ------------------------------------------------ whole sessions behave as the calls of a mesh

  lemma CallsOf(net: Net, who: Mesh.Session, s: Host.Session)
    ensures Calls(net[who := s]) == Calls(net)[who := s.call]
  {
  }

  lemma StepRefines(net: Net, s: Step) returns (ms: seq<Mesh.Step>)
    requires CanStep(net, s)
    ensures Mesh.Legal(Calls(net), ms) && Mesh.After(Calls(net), ms) == Calls(Next(net, s))
    ensures forall x :: 0 <= x < |ms| ==> ms[x].who == s.who
  {
    match s
    case Begin(who, rt, max) =>
      CallsOf(net, who, Host.Begin(who.id, who.sid, rt, max));
      ms := [Mesh.Spawn(who, max)];
      Stale.MeshStep(Calls(net), Mesh.Spawn(who, max));
    case Do(who, h) =>
      CallsOf(net, who, Host.Apply(net[who], h));
      var e := Host.StepIsEvent(net[who], h);
      hide Host.Apply, Host.Enabled, Call.Apply, Call.Enabled, Mesh.WasSent;
      if e.Some? {
        ms := [Mesh.Do(who, e.value)];
        Stale.MeshStep(Calls(net), Mesh.Do(who, e.value));
      } else {
        ms := [];
        assert Calls(net)[who := net[who].call] == Calls(net);
      }
  }

  /** Every run of whole sessions is, for their calls, a run of the mesh: what holds in all runs of the
      mesh holds here. */
  lemma {:induction false} RunRefines(net: Net, steps: seq<Step>) returns (ms: seq<Mesh.Step>)
    requires Legal(net, steps)
    ensures Mesh.Legal(Calls(net), ms) && Mesh.After(Calls(net), ms) == Calls(After(net, steps))
    ensures forall x :: 0 <= x < |ms| ==> exists y :: 0 <= y < |steps| && steps[y].who == ms[x].who
    decreases |steps|
  {
    if steps == [] {
      ms := [];
    } else {
      hide CanStep, Next, Calls;
      var first := StepRefines(net, steps[0]);
      var rest := RunRefines(Next(net, steps[0]), steps[1..]);
      Stale.MeshConcat(Calls(net), first, rest);
      ms := first + rest;
      forall x | 0 <= x < |ms| ensures exists y :: 0 <= y < |steps| && steps[y].who == ms[x].who {
        if x < |first| {
          assert ms[x] == first[x] && steps[0].who == ms[x].who;
        } else {
          assert ms[x] == rest[x - |first|];
          var y :| 0 <= y < |steps[1..]| && steps[1..][y].who == rest[x - |first|].who;
          assert steps[y + 1].who == ms[x].who;
        }
      }
    }
  }

  /** Both halves of a session know who they are. */
  ghost predicate NetInv(net: Net) {
    Mesh.SysInv(Calls(net)) && forall k :: k in net ==> net[k].signal.selfId == k.id
  }

  lemma SameSignalId(s: Host.Session, h: Host.Step)
    requires Host.Enabled(s, h)
    ensures Host.Apply(s, h).signal.selfId == s.signal.selfId
  {
    hide Call.Apply, Call.HandleSignal, Call.Enabled, Sig.Ingest, Sig.IsRoster;
    match h
    case Hear(m, via, now, _, _) => Sig.StepIdentity(s.signal, Sig.Receive(m, via, now));
    case Timed(x) => Sig.StepIdentity(s.signal, x);
    case _ =>
  }

  lemma {:induction false} SignalIds(net: Net, steps: seq<Step>)
    requires Legal(net, steps) && forall k :: k in net ==> net[k].signal.selfId == k.id
    ensures forall k :: k in After(net, steps) ==> After(net, steps)[k].signal.selfId == k.id
    decreases |steps|
  {
    if steps != [] {
      if steps[0].Do? {
        SameSignalId(net[steps[0].who], steps[0].step);
      }
      hide Host.Apply, Host.Enabled, Carried;
      SignalIds(Next(net, steps[0]), steps[1..]);
    }
  }

  lemma RunKeepsNet(steps: seq<Step>)
    requires Legal(map[], steps)
    ensures NetInv(After(map[], steps))
  {
    var ms := RunRefines(map[], steps);
    assert Calls(map[]) == map[];
    Mesh.RunKeepsSystem(map[], ms);
    SignalIds(map[], steps);
  }

  /** Glare freedom for whole sessions. */
  lemma GlareFree(steps: seq<Step>, m: Call.Msg)
    requires Legal(map[], steps) && Mesh.WasSent(Calls(After(map[], steps)), m)
    ensures m.Offer? ==> Less(m.from, m.to)
    ensures m.Answer? ==> Less(m.to, m.from) && Mesh.Offered(Calls(After(map[], steps)), Mesh.Session(m.to, m.toSid), m.from)
  {
    var ms := RunRefines(map[], steps);
    assert Calls(map[]) == map[];
    hide Legal, After, Calls, Mesh.WasSent, Mesh.Offered;
    Mesh.GlareFree(ms, m);
  }

  // ------------------------------------------------ when a connection can take a stale answer

  ghost predicate WithoutStepOf(steps: seq<Step>, k: Mesh.Session) {
    forall x :: 0 <= x < |steps| ==> steps[x].who != k
  }

  /** With this step, allowed now, connection j comes to hold an answer of session q. */
  ghost predicate TakesThere(net: Net, k: Mesh.Session, h: Host.Step, j: nat, q: Mesh.Session) {
    && CanStep(net, Do(k, h))
    && Host.Holds(Next(net, Do(k, h))[k].call, j, Host.AnswerOf(q.id, q.sid))
  }

  lemma TakesThereIs(net: Net, k: Mesh.Session, h: Host.Step, j: nat, q: Mesh.Session)
    requires k in net
    ensures TakesThere(net, k, h, j, q) <==>
            && Host.Enabled(net[k], h) && Carried(net, h)
            && Host.Holds(Host.Apply(net[k], h).call, j, Host.AnswerOf(q.id, q.sid))
  {
    hide Host.Enabled, Host.Apply, Host.Holds, Carried;
  }

  /** The others alone can bring about an answer of session q that connection j takes as it stands. */
  ghost predicate CanTakeFrom(net: Net, k: Mesh.Session, j: nat, q: Mesh.Session)
    requires k in net
  {
    exists more: seq<Step>, h: Host.Step ::
      Legal(net, more) && WithoutStepOf(more, k) && TakesThere(After(net, more), k, h, j, q)
  }

  /** The signalling half still lets an answer of session q through: it has joined, knows the peer in no
      other session, and has not heard an answer of this one over both transports. */
  predicate Admits(s: Host.Session, q: Mesh.Session) {
    && s.signal.joined && (q.id in s.signal.members ==> s.signal.members[q.id].sid == q.sid)
    && Host.Unheard(s, Host.AnswerOf(q.id, q.sid)) > 0
  }

  lemma Preparing(s: Host.Session, j: nat)
    requires Call.NodeInv(s.call) && Stale.Preparing(s.call, j)
    ensures var p := s.call.recs[j];
            && p.accepted.None? && p.id in s.call.peers && s.call.peers[p.id] == j
            && p.id != s.call.selfId && Call.IsOfferer(s.call.selfId, p.id)
  {
    assert Call.RecOk(s.call.selfId, s.call.sid, s.call.recs, j);
  }

  /** Only an answer of that session makes it hold one, and only if it is let through. */
  lemma TakesWhatIsAdmitted(s: Host.Session, h: Host.Step, j: nat, q: Mesh.Session)
    requires Call.NodeInv(s.call) && Stale.Preparing(s.call, j) && Host.Enabled(s, h)
    requires Host.Holds(Host.Apply(s, h).call, j, Host.AnswerOf(q.id, q.sid))
    ensures Admits(s, q) && h.Hear? && h.m.kind == Sig.Answer && Stale.Takes(s.call, Host.BodyOf(h.m, h.toSid, h.sdp), j)
  {
    Preparing(s, j);
    var e := Host.StepIsEvent(s, h);
    assert e.Some?;
    hide Call.NodeInv, Host.Apply, Call.Apply, Call.Enabled, Stale.Preparing;
    HoldsByDelivery(s.call, e.value, j, q);
    HandedOverIsAdmitted(s, h, q);
  }

  lemma HoldsByDelivery(n: Call.Node, e: Call.Event, j: nat, q: Mesh.Session)
    requires Call.NodeInv(n) && Call.Enabled(n, e) && j < |n.recs| && n.recs[j].accepted.None?
    requires Host.Holds(Call.Apply(n, e), j, Host.AnswerOf(q.id, q.sid))
    ensures e.Deliver? && e.msg.Answer? && e.msg.from == q.id && e.msg.sid == q.sid && Stale.Takes(n, e.msg, j)
  {
    hide Call.NodeInv, Call.Apply, Call.Enabled;
    Mesh.RecordsLearn(n, e, j);
    DeliveryTakes(n, e.msg, j);
  }

  lemma DeliveryTakes(n: Call.Node, m: Call.Msg, j: nat)
    requires Call.Enabled(n, Call.Deliver(m)) && m.Answer? && j < |Call.Apply(n, Call.Deliver(m)).recs|
    requires Call.Apply(n, Call.Deliver(m)).recs[j].accepted == Some(m)
    ensures Stale.Takes(n, m, j)
  {
    hide Call.HandleSignal;
  }

  lemma HandedOverIsAdmitted(s: Host.Session, h: Host.Step, q: Mesh.Session)
    requires Host.Enabled(s, h) && h.Hear? && h.m.kind == Sig.Answer && h.m.sender == q.id && h.m.sid == q.sid
    requires Host.HandsOver(s, h, Host.TopicOf(h.m))
    ensures Admits(s, q)
  {
    Sig.DeliversExactlyWhen(s.signal, h.m, h.via, h.now);
    hide Sig.Ingest;
    assert Sig.KeyOf(h.m, h.via) == Host.KeyOf(Host.AnswerOf(q.id, q.sid), h.via);
    assert h.via.Rt? || h.via.Update?;
  }

  lemma CanTakeOnlyWhen(steps: seq<Step>, k: Mesh.Session, j: nat, q: Mesh.Session)
    requires Legal(map[], steps) && k in After(map[], steps) && Stale.Preparing(After(map[], steps)[k].call, j)
    requires CanTakeFrom(After(map[], steps), k, j, q)
    ensures Admits(After(map[], steps)[k], q) && Stale.OfferedBefore(After(map[], steps)[k].call, j)
  {
    var net := After(map[], steps);
    RunKeepsNet(steps);
    var more, h :| Legal(net, more) && WithoutStepOf(more, k) && TakesThere(After(net, more), k, h, j, q);
    OthersLeave(net, more, k);
    TakesThereIs(After(net, more), k, h, j, q);
    assert Call.NodeInv(net[k].call) by { assert k in Calls(net); }
    TakesWhatIsAdmitted(net[k], h, j, q);
    var ms := RunRefines(map[], steps);
    assert Calls(map[]) == map[];
    var others := RunRefines(net, more);
    var m := Host.BodyOf(h.m, h.toSid, h.sdp);
    assert Mesh.WasSent(Calls(After(net, more)), m);
    hide Legal, After, Host.Apply, Host.Enabled, Call.NodeInv, NetInv, Stale.Takes, Stale.Preparing, Stale.OfferedBefore;
    assert Stale.WithoutStepOf(others, k);
    assert Calls(net)[k] == net[k].call;
    assert Stale.CanTake(Calls(net), k, j);
    Stale.CanTakeOnlyAfterOffer(ms, k, j);
  }

  // ------------------------------------------------ and then indeed

  /** An answer of q to this session. */
  predicate IsFor(c: Call.Msg, k: Mesh.Session, q: Mesh.Session) {
    c.Answer? && c.from == q.id && c.sid == q.sid && c.to == k.id && c.toSid in {"", k.sid}
  }

  ghost predicate AnswerSent(net: Net, k: Mesh.Session, q: Mesh.Session) {
    exists c :: Mesh.WasSent(Calls(net), c) && IsFor(c, k, q)
  }

  lemma HearsAnswer(s: Host.Session, k: Mesh.Session, j: nat, q: Mesh.Session, c: Call.Msg) returns (h: Host.Step)
    requires Call.NodeInv(s.call) && Stale.Preparing(s.call, j) && s.call.recs[j].id == q.id
    requires s.signal.selfId == s.call.selfId == k.id && s.call.sid == k.sid
    requires Admits(s, q) && IsFor(c, k, q) && q.sid != ""
    ensures h.Hear? && Host.BodyOf(h.m, h.toSid, h.sdp) == c
    ensures Host.Enabled(s, h) && Host.Holds(Host.Apply(s, h).call, j, Host.AnswerOf(q.id, q.sid))
  {
    Preparing(s, j);
    var m := Sig.Msg(Sig.Answer, q.id, q.sid, k.id, 0, 0, 0, false);
    var via := if Host.KeyOf(Host.AnswerOf(q.id, q.sid), Sig.Rt) !in s.signal.seenSig then Sig.Rt else Sig.Update;
    h := Host.Hear(m, via, 0, c.toSid, c.sdp);
    hide Host.Apply, Call.NodeInv, Host.Holds;
    Host.TakenExactlyWhen(s, m, via, 0, c.toSid, c.sdp);
  }

  /** Session q is in the call with this one, has the microphone, and an offer to it still gets through. */
  ghost predicate CanAnswer(net: Net, k: Mesh.Session, q: Mesh.Session) {
    && k in net && q in net && net[q].call.state == Call.Active && net[q].call.stream
    && k.id in Ids(Call.InCall(net[q].call)) && q.id in Ids(Call.InCall(net[q].call))
    && exists x, via :: 0 <= x < |net[k].call.sent| && GetsThrough(net[q], k, q, net[k].call.sent[x].msg, via)
  }

  predicate GetsThrough(s: Host.Session, k: Mesh.Session, q: Mesh.Session, o: Call.Msg, via: Sig.Via) {
    && o.Offer? && o.to == q.id && o.toSid in {"", q.sid}
    && s.signal.joined && (k.id in s.signal.members ==> s.signal.members[k.id].sid == k.sid)
    && Sig.SignalKey(k.id, k.sid, Sig.Offer, o.try, via) !in s.signal.seenSig
  }

  lemma HearsOffer(s: Host.Session, k: Mesh.Session, q: Mesh.Session, o: Call.Msg, via: Sig.Via) returns (h: Host.Step)
    requires GetsThrough(s, k, q, o, via) && o.from == k.id && o.sid == k.sid && k.sid != "" && k.id != q.id
    requires s.signal.selfId == q.id
    ensures h.Hear? && Host.BodyOf(h.m, h.toSid, h.sdp) == o && Host.Enabled(s, h)
    ensures Host.Apply(s, h).call == Call.HandleSignal(s.call, o)
  {
    var m := Sig.Msg(Sig.Offer, k.id, k.sid, q.id, o.try, 0, 0, false);
    h := Host.Hear(m, via, 0, o.toSid, o.sdp);
    Sig.DeliversExactlyWhen(s.signal, m, via, 0);
    hide Sig.Ingest, Call.HandleSignal;
  }

  lemma DoIs(net: Net, who: Mesh.Session, h: Host.Step)
    requires who in net && Host.Enabled(net[who], h) && Carried(net, h)
    ensures Legal(net, [Do(who, h)]) && After(net, [Do(who, h)]) == net[who := Host.Apply(net[who], h)]
  {
    hide Host.Apply, Host.Enabled, Carried;
    var s := Do(who, h);
    assert [s][1..] == [];
    assert Legal(Next(net, s), [s][1..]);
  }

  /** q hears the offer and answers, at once or with one more step of its own. */
  lemma AnswersOffer(s: Host.Session, o: Call.Msg, h: Host.Step) returns (last: Option<Host.Step>)
    requires Call.NodeInv(s.call) && s.call.state == Call.Active && s.call.stream && Stale.Asks(s.call, o)
    requires o.from in Ids(Call.InCall(s.call)) && s.call.selfId in Ids(Call.InCall(s.call))
    requires Host.Enabled(s, h) && Host.Apply(s, h).call == Call.HandleSignal(s.call, o)
    ensures var s1 := Host.Apply(s, h);
            match last
            case None => Stale.HasAnswered(s1.call, o) && s1.call.selfId == s.call.selfId
            case Some(a) => a.Act? && Host.Enabled(s1, a) && Stale.HasAnswered(Host.Apply(s1, a).call, o)
  {
    IsConnected(s.call, o.from);
    Stale.OfferTaken(s.call, o);
    Stale.ReachesOnOffer(s.call, o);
    Delivered(s.call, o);
    var s1 := Host.Apply(s, h);
    hide Call.NodeInv, Call.InCall, Ids, Call.HandleSignal, Call.Apply, Stale.HasAnswered, Host.Apply;
    if Stale.HasAnswered(s1.call, o) {
      last := None;
    } else {
      var rec := s1.call.peers[o.from];
      Stale.AddressedHere(s.call, o);
      Stale.AnswerGoesOut(s1.call, o, rec);
      ActIs(s1, rec);
      last := Some(Host.Act(Call.AnswerMade(rec, "answer")));
    }
  }

  lemma IsConnected(n: Call.Node, id: Id)
    requires Call.NodeInv(n) && n.state == Call.Active && n.stream && id in Ids(Call.InCall(n)) && id != n.selfId
    ensures id in n.peers
  {
    hide Call.Core, Call.InCall, Ids, Distinct;
  }

  lemma Delivered(n: Call.Node, o: Call.Msg)
    requires o.sid != ""
    ensures Call.Enabled(n, Call.Deliver(o)) && Call.Apply(n, Call.Deliver(o)) == Call.HandleSignal(n, o)
  {
  }

  lemma ActIs(s: Host.Session, rec: nat)
    requires Call.Enabled(s.call, Call.AnswerMade(rec, "answer"))
    ensures var a := Host.Act(Call.AnswerMade(rec, "answer"));
            Host.Enabled(s, a) && Host.Apply(s, a).call == Call.Apply(s.call, Call.AnswerMade(rec, "answer"))
  {
    Host.ActIs(s, Call.AnswerMade(rec, "answer"));
  }

  lemma AnswerIsSent(net: Net, k: Mesh.Session, q: Mesh.Session, o: Call.Msg)
    requires q in net && Stale.HasAnswered(net[q].call, o) && net[q].call.sid == q.sid
    requires o.from == k.id && o.sid == k.sid && o.to == q.id
    ensures AnswerSent(net, k, q)
  {
    var n := net[q].call;
    var x :| 0 <= x < |n.sent| && Stale.AnswersTo(o, n.sent[x].msg) && n.sent[x].msg.sid == n.sid;
    assert Calls(net)[q].sent[x].msg == n.sent[x].msg;
    assert Mesh.WasSent(Calls(net), n.sent[x].msg);
    assert IsFor(n.sent[x].msg, k, q);
  }

  lemma OwnSteps(net: Net, q: Mesh.Session, h: Host.Step, last: Option<Host.Step>) returns (more: seq<Step>)
    requires q in net && Host.Enabled(net[q], h) && Carried(net, h)
    requires last.Some? ==> last.value.Act? && Host.Enabled(Host.Apply(net[q], h), last.value)
    ensures Legal(net, more) && forall x :: 0 <= x < |more| ==> more[x].who == q
    ensures var s1 := Host.Apply(net[q], h);
            After(net, more) == net[q := if last.Some? then Host.Apply(s1, last.value) else s1]
  {
    hide Host.Apply, Host.Enabled, Legal, After;
    DoIs(net, q, h);
    more := [Do(q, h)];
    if last.Some? {
      var net1 := net[q := Host.Apply(net[q], h)];
      assert Carried(net1, last.value);
      DoIs(net1, q, last.value);
      NetConcat(net, more, [Do(q, last.value)]);
      more := more + [Do(q, last.value)];
      assert net1[q := Host.Apply(net1[q], last.value)] == net[q := Host.Apply(net1[q], last.value)];
    }
  }

  /** Whoever can answer can be brought to, by its own steps. */
  lemma AnswerComes(net: Net, k: Mesh.Session, q: Mesh.Session) returns (more: seq<Step>)
    requires NetInv(net) && CanAnswer(net, k, q)
    ensures Legal(net, more) && WithoutStepOf(more, k) && AnswerSent(After(net, more), k, q)
  {
    var x, via :| 0 <= x < |net[k].call.sent| && GetsThrough(net[q], k, q, net[k].call.sent[x].msg, via);
    var o := net[k].call.sent[x].msg;
    OfferIsGood(net, k, q, x);
    var h := HearsOffer(net[q], k, q, o, via);
    hide Host.Apply, Host.Enabled, Call.NodeInv, Call.InCall, Ids, GetsThrough, Stale.HasAnswered, NetInv, Legal, After,
      Stale.Asks, Call.HandleSignal, Mesh.WasSent, AnswerSent, Calls;
    var last := AnswersOffer(net[q], o, h);
    more := OwnSteps(net, q, h, last);
    SidsStay(net, more, q);
    AnswerIsSent(After(net, more), k, q, o);
  }

  /** What is known of an offer that this session has sent. */
  lemma OfferIsGood(net: Net, k: Mesh.Session, q: Mesh.Session, x: nat)
    requires NetInv(net) && k in net && q in net && x < |net[k].call.sent|
    requires var o := net[k].call.sent[x].msg; o.Offer? && o.to == q.id && o.toSid in {"", q.sid}
    ensures var o := net[k].call.sent[x].msg;
            && o.from == k.id && o.sid == k.sid && k.sid != "" && k.id != q.id && q.sid != ""
            && net[q].signal.selfId == q.id && net[q].call.selfId == q.id && net[q].call.sid == q.sid
            && Call.NodeInv(net[q].call) && Stale.Asks(net[q].call, o) && Mesh.WasSent(Calls(net), o)
  {
    var n := net[k].call;
    assert k in Calls(net) && q in Calls(net) && Calls(net)[k] == n && Calls(net)[q] == net[q].call;
    assert Call.SentOk(n, n.sent[x]) && Call.RecOk(n.selfId, n.sid, n.recs, n.sent[x].rec);
    LessTotal(k.id, q.id);
    hide Call.NodeInv;
    assert Calls(net)[k].sent[x].msg == n.sent[x].msg;
  }

  lemma {:induction false} NetConcat(net: Net, a: seq<Step>, b: seq<Step>)
    requires Legal(net, a) && Legal(After(net, a), b)
    ensures Legal(net, a + b) && After(net, a + b) == After(After(net, a), b)
    decreases |a|
  {
    if a == [] {
      assert a + b == b;
    } else {
      assert (a + b)[0] == a[0] && (a + b)[1..] == a[1..] + b;
      hide CanStep, Next;
      NetConcat(Next(net, a[0]), a[1..], b);
    }
  }

  lemma {:induction false} SidsStay(net: Net, steps: seq<Step>, q: Mesh.Session)
    requires Legal(net, steps) && q in net
    ensures q in After(net, steps) && After(net, steps)[q].call.sid == net[q].call.sid
    decreases |steps|
  {
    if steps != [] {
      if steps[0].Do? && steps[0].who == q {
        var e := Host.StepIsEvent(net[q], steps[0].step);
        hide Host.Apply, Host.Enabled, Call.Apply, Call.Enabled;
        if e.Some? {
          Mesh.SentGrows(net[q].call, e.value);
        }
      }
      hide Host.Apply, Host.Enabled, Carried;
      SidsStay(Next(net, steps[0]), steps[1..], q);
    }
  }

  lemma {:induction false} OthersLeave(net: Net, steps: seq<Step>, k: Mesh.Session)
    requires Legal(net, steps) && WithoutStepOf(steps, k) && k in net
    ensures k in After(net, steps) && After(net, steps)[k] == net[k]
    decreases |steps|
  {
    if steps != [] {
      hide Host.Apply, Host.Enabled, Carried;
      assert steps[0].who != k;
      assert forall x :: 0 <= x < |steps[1..]| ==> steps[1..][x] == steps[x + 1];
      OthersLeave(Next(net, steps[0]), steps[1..], k);
    }
  }

  /** An answer of q is on its way, or q can give one. */
  ghost predicate Available(net: Net, k: Mesh.Session, q: Mesh.Session) {
    AnswerSent(net, k, q) || CanAnswer(net, k, q)
  }

  lemma KnowsItself(net: Net, k: Mesh.Session)
    requires NetInv(net) && k in net
    ensures Call.NodeInv(net[k].call) && net[k].signal.selfId == net[k].call.selfId == k.id && net[k].call.sid == k.sid
  {
    assert k in Calls(net) && Calls(net)[k] == net[k].call;
    hide Call.NodeInv;
  }

  lemma CanTakeWhen(steps: seq<Step>, k: Mesh.Session, j: nat, q: Mesh.Session)
    requires Legal(map[], steps) && k in After(map[], steps) && Stale.Preparing(After(map[], steps)[k].call, j)
    requires After(map[], steps)[k].call.recs[j].id == q.id
    requires Available(After(map[], steps), k, q) && Admits(After(map[], steps)[k], q)
    ensures CanTakeFrom(After(map[], steps), k, j, q)
  {
    var net := After(map[], steps);
    assert j < |net[k].call.recs|;
    hide Call.NodeInv, NetInv, Host.Apply, Host.Enabled, Stale.Preparing, Admits, Host.Holds, Mesh.WasSent, Legal, After,
      CanAnswer, Calls;
    RunKeepsNet(steps);
    KnowsItself(net, k);
    var more: seq<Step>;
    if AnswerSent(net, k, q) {
      more := NoSteps(net, k);
    } else {
      more := AnswerComes(net, k, q);
    }
    var c :| Mesh.WasSent(Calls(After(net, more)), c) && IsFor(c, k, q);
    SenderHasName(steps, more, c);
    var h := HearsAnswer(net[k], k, j, q, c);
    assert Carried(After(net, more), h);
    OthersLeave(net, more, k);
    TakesThereIs(After(net, more), k, h, j, q);
  }

  lemma NoSteps(net: Net, k: Mesh.Session) returns (more: seq<Step>)
    ensures Legal(net, more) && WithoutStepOf(more, k) && After(net, more) == net
  {
    more := [];
  }

  lemma SenderHasName(steps: seq<Step>, more: seq<Step>, c: Call.Msg)
    requires Legal(map[], steps) && Legal(After(map[], steps), more)
    requires Mesh.WasSent(Calls(After(After(map[], steps), more)), c)
    ensures c.sid != ""
  {
    NetConcat(map[], steps, more);
    RunKeepsNet(steps + more);
    hide Legal, After, Mesh.WasSent, Mesh.SysInv, Calls;
    Mesh.SentMeaning(Calls(After(map[], steps + more)), c);
  }

  /** The exact condition in whole sessions, over all runs of any number of them: while an answer of
      session q is there to be had, a connection that prepares its offer to that peer can take it if and
      only if an earlier connection of this session to the peer has offered, and the signalling still
      lets an answer of q through. */
  lemma CanTakeExactlyWhen(steps: seq<Step>, k: Mesh.Session, j: nat, q: Mesh.Session)
    requires Legal(map[], steps) && k in After(map[], steps) && Stale.Preparing(After(map[], steps)[k].call, j)
    requires After(map[], steps)[k].call.recs[j].id == q.id
    requires Stale.OfferedBefore(After(map[], steps)[k].call, j) ==> Available(After(map[], steps), k, q)
    ensures CanTakeFrom(After(map[], steps), k, j, q) <==>
            Stale.OfferedBefore(After(map[], steps)[k].call, j) && Admits(After(map[], steps)[k], q)
  {
    assert j < |After(map[], steps)[k].call.recs|;
    hide Legal, After, CanTakeFrom, Stale.OfferedBefore, Admits, Available, Stale.Preparing;
    if CanTakeFrom(After(map[], steps), k, j, q) {
      CanTakeOnlyWhen(steps, k, j, q);
    } else if Stale.OfferedBefore(After(map[], steps)[k].call, j) && Admits(After(map[], steps)[k], q) {
      CanTakeWhen(steps, k, j, q);
    }
  }
}
