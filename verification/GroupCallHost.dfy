/** One session of a group call with both its halves (app/js/group-call-host.js): the call hears of an
    offer or answer only what the signalling layer hands it, and of the roster only its listing. */
module GroupCallHost {
  import opened Options
  import opened Roster
  import Call = GroupCall
  import Mesh = GroupCallMesh
  import Sig = GroupCallSignal
  import Stale = GroupCallStale

  datatype Session = Session(signal: Sig.Signal, call: Call.Node)

  datatype Step =
    | Hear(m: Sig.Msg, via: Sig.Via, now: int, toSid: string, sdp: string)
    | Timed(step: Sig.Step)
    | Show(list: seq<Member>, now: int, connected: set<Id>)
    | Act(event: Call.Event)

  function Begin(selfId: Id, sid: string, rt: bool, max: nat): Session {
    Session(Sig.Fresh(selfId, sid, rt, false), Call.Fresh(selfId, sid, max))
  }

  /** The part of a message that the call reads. */
  function BodyOf(m: Sig.Msg, toSid: string, sdp: string): Call.Msg {
    if m.kind == Sig.Offer then Call.Offer(m.sender, m.to, m.sid, toSid, sdp, m.attempt)
    else Call.Answer(m.sender, m.to, m.sid, toSid, sdp)
  }

  /** Answers are not numbered; sessions have a name. */
  predicate Enabled(s: Session, step: Step) {
    match step
    case Hear(m, _, _, _, _) => m.sid != "" && (m.kind == Sig.Answer ==> m.attempt == 0)
    case Timed(x) => !x.Receive?
    case Show(list, now, connected) => Sig.IsRoster(list, s.signal, now, connected)
    case Act(e) => !e.SetRoster? && !e.Deliver? && Call.Enabled(s.call, e)
  }

  function Apply(s: Session, step: Step): Session
    requires Enabled(s, step)
  {
    match step
    case Hear(m, via, now, toSid, sdp) =>
      var o := Sig.Ingest(s.signal, m, via, now);
      Session(o.state, if o.delivered then Call.HandleSignal(s.call, BodyOf(m, toSid, sdp)) else s.call)
    case Timed(x) => s.(signal := Sig.Apply(s.signal, x))
    case Show(list, _, _) =>
      Sig.RosterIsUnique(list, list, s.signal, step.now, step.connected);
      s.(call := Call.Apply(s.call, Call.SetRoster(list)))
    case Act(e) => s.(call := Call.Apply(s.call, e))
  }

  ghost predicate Legal(s: Session, steps: seq<Step>)
    decreases |steps|
  {
    steps == [] || (Enabled(s, steps[0]) && Legal(Apply(s, steps[0]), steps[1..]))
  }

  ghost function After(s: Session, steps: seq<Step>): Session
    requires Legal(s, steps)
    decreases |steps|
  {
    if steps == [] then s else After(Apply(s, steps[0]), steps[1..])
  }

  // ------------------------------------------------ how much of a peer session is heard

  /** What the de-duplication goes by, apart from the transport. */
  datatype Topic = Topic(peer: Id, sid: string, kind: Sig.Kind, attempt: nat)

  function KeyOf(t: Topic, via: Sig.Via): Sig.SignalKey {
    Sig.SignalKey(t.peer, t.sid, t.kind, t.attempt, via)
  }

  function TopicOf(m: Sig.Msg): Topic {
    Topic(m.sender, m.sid, m.kind, m.attempt)
  }

  /** The step hands a message on this topic to the call. */
  predicate HandsOver(s: Session, step: Step, t: Topic) {
    step.Hear? && TopicOf(step.m) == t && Sig.Ingest(s.signal, step.m, step.via, step.now).delivered
  }

  ghost function HandedOver(s: Session, steps: seq<Step>, t: Topic): nat
    requires Legal(s, steps)
    decreases |steps|
  {
    if steps == [] then 0
    else (if HandsOver(s, steps[0], t) then 1 else 0) + HandedOver(Apply(s, steps[0]), steps[1..], t)
  }

  /** The transports over which nothing on this topic came yet. */
  function Unheard(s: Session, t: Topic): nat {
    (if KeyOf(t, Sig.Rt) in s.signal.seenSig then 0 else 1) + (if KeyOf(t, Sig.Update) in s.signal.seenSig then 0 else 1)
  }

  lemma SeenGrows(s: Session, step: Step)
    requires Enabled(s, step)
    ensures s.signal.seenSig <= Apply(s, step).signal.seenSig
  {
    hide Call.HandleSignal, Call.Apply, Sig.IsRoster, Call.Enabled;
  }

  lemma HearsOnce(s: Session, step: Step, t: Topic)
    requires Enabled(s, step)
    ensures s.signal.seenSig <= Apply(s, step).signal.seenSig
    ensures HandsOver(s, step, t) ==> Unheard(Apply(s, step), t) < Unheard(s, t)
  {
    SeenGrows(s, step);
    if HandsOver(s, step, t) {
      HeardIsSeen(s.signal, step.m, step.via, step.now);
      hide Call.HandleSignal, Sig.Ingest, Sig.IsRoster, Call.Enabled, Call.Apply;
      assert KeyOf(t, step.via) == Sig.KeyOf(step.m, step.via);
      assert step.via.Rt? || step.via.Update?;
    }
  }

  lemma HeardIsSeen(s: Sig.Signal, m: Sig.Msg, via: Sig.Via, now: int)
    requires Sig.Ingest(s, m, via, now).delivered
    ensures Sig.KeyOf(m, via) !in s.seenSig && Sig.KeyOf(m, via) in Sig.Ingest(s, m, via, now).state.seenSig
  {
  }

  /** On one topic of one peer session the call hears at most two messages, one per transport, however
      often they arrive and however often connections are rebuilt. */
  lemma {:induction false} HeardAtMostTwice(s: Session, steps: seq<Step>, t: Topic)
    requires Legal(s, steps)
    ensures HandedOver(s, steps, t) + Unheard(After(s, steps), t) <= Unheard(s, t) <= 2
    decreases |steps|
  {
    if steps != [] {
      HearsOnce(s, steps[0], t);
      HeardAtMostTwice(Apply(s, steps[0]), steps[1..], t);
    }
  }

  // ------------------------------------------------ and so answers run out

  /** Record j holds an answer of this peer session. */
  predicate Holds(n: Call.Node, j: nat, t: Topic) {
    j < |n.recs| && n.recs[j].accepted.Some? && n.recs[j].accepted.value.from == t.peer && n.recs[j].accepted.value.sid == t.sid
  }

  function AnswerOf(peer: Id, sid: string): Topic {
    Topic(peer, sid, Sig.Answer, 0)
  }

  /** The node moves by events of its own. */
  ghost predicate Moves(s: Session, step: Step, e: Call.Event)
    requires Enabled(s, step)
  {
    Call.Enabled(s.call, e) && Apply(s, step).call == Call.Apply(s.call, e)
  }

  lemma StepIsEvent(s: Session, step: Step) returns (e: Option<Call.Event>)
    requires Enabled(s, step)
    ensures e.None? ==> Apply(s, step).call == s.call
    ensures e.Some? ==> Moves(s, step, e.value)
    ensures e.Some? && e.value.Deliver? ==>
              && step.Hear? && HandsOver(s, step, TopicOf(step.m)) && step.m.kind in {Sig.Offer, Sig.Answer}
              && e.value.msg == BodyOf(step.m, step.toSid, step.sdp)
  {
    match step
    case Hear(m, via, now, toSid, sdp) =>
      e := if Sig.Ingest(s.signal, m, via, now).delivered then Some(Call.Deliver(BodyOf(m, toSid, sdp))) else None;
    case Timed(x) => e := None;
    case Show(list, now, connected) =>
      Sig.RosterIsUnique(list, list, s.signal, now, connected);
      e := Some(Call.SetRoster(list));
    case Act(x) => e := Some(x);
  }

  lemma StepKeeps(s: Session, step: Step)
    requires Call.NodeInv(s.call) && Enabled(s, step)
    ensures Call.NodeInv(Apply(s, step).call) && Call.Grown(s.call.recs, Apply(s, step).call.recs)
  {
    var e := StepIsEvent(s, step);
    if e.Some? {
      hide Apply, Call.Apply, Call.NodeInv, Call.Enabled;
      Call.ApplyKeeps(s.call, e.value);
    } else {
      hide Apply, Call.NodeInv;
      assert Call.Grown(s.call.recs, s.call.recs);
    }
  }

  /** Once an answer of a session was heard over both transports, no connection takes one any more. */
  lemma NoThirdStep(s: Session, step: Step, t: Topic, j: nat)
    requires Call.NodeInv(s.call) && Enabled(s, step) && t == AnswerOf(t.peer, t.sid) && Unheard(s, t) == 0
    requires Holds(Apply(s, step).call, j, t)
    ensures Holds(s.call, j, t)
  {
    HearsOnce(s, step, t);
    var e := StepIsEvent(s, step);
    if e.Some? {
      hide Apply, Call.Apply, Call.NodeInv, Call.Enabled;
      Mesh.RecordsLearn(s.call, e.value, j);
    }
  }

  lemma {:induction false} NoThirdAnswer(s: Session, steps: seq<Step>, t: Topic, j: nat)
    requires Call.NodeInv(s.call) && Legal(s, steps) && t == AnswerOf(t.peer, t.sid) && Unheard(s, t) == 0
    ensures Holds(After(s, steps).call, j, t) ==> Holds(s.call, j, t)
    decreases |steps|
  {
    if steps != [] {
      HearsOnce(s, steps[0], t);
      StepKeeps(s, steps[0]);
      NoThirdAnswer(Apply(s, steps[0]), steps[1..], t, j);
      if Holds(Apply(s, steps[0]).call, j, t) {
        NoThirdStep(s, steps[0], t, j);
      }
    }
  }

  /** In any run of a whole session: once two answers of a peer session have reached the call, no
      connection that is set up or rebuilt afterwards is ever answered by that session. */
  lemma AfterTwoAnswers(selfId: Id, sid: string, rt: bool, max: nat, steps: seq<Step>, more: seq<Step>, t: Topic, j: nat)
    requires Legal(Begin(selfId, sid, rt, max), steps) && Legal(After(Begin(selfId, sid, rt, max), steps), more)
    requires t == AnswerOf(t.peer, t.sid) && HandedOver(Begin(selfId, sid, rt, max), steps, t) == 2
    requires j >= |After(Begin(selfId, sid, rt, max), steps).call.recs|
    ensures !Holds(After(After(Begin(selfId, sid, rt, max), steps), more).call, j, t)
  {
    var s := Begin(selfId, sid, rt, max);
    HeardAtMostTwice(s, steps, t);
    Call.FreshOk(selfId, sid, max);
    RunKeeps(s, steps);
    hide Call.NodeInv;
    NoThirdAnswer(After(s, steps), more, t, j);
  }

  lemma {:induction false} RunKeeps(s: Session, steps: seq<Step>)
    requires Call.NodeInv(s.call) && Legal(s, steps)
    ensures Call.NodeInv(After(s, steps).call)
    decreases |steps|
  {
    if steps != [] {
      StepKeeps(s, steps[0]);
      RunKeeps(Apply(s, steps[0]), steps[1..]);
    }
  }

  /** When an answer that comes in is taken by the current connection, exactly: it is the first of its
      session over this transport, the session has joined, and the peer is not known in another one. */
  lemma TakenExactlyWhen(s: Session, m: Sig.Msg, via: Sig.Via, now: int, toSid: string, sdp: string)
    requires Enabled(s, Hear(m, via, now, toSid, sdp)) && m.kind == Sig.Answer && m.to == s.signal.selfId == s.call.selfId
    requires m.sender != s.call.selfId && Call.IsOfferer(s.call.selfId, m.sender) && toSid in {"", s.call.sid}
    requires s.call.state == Call.Active && m.sender in s.call.peers && s.call.peers[m.sender] < |s.call.recs|
    requires var p := s.call.recs[s.call.peers[m.sender]]; !p.answered && p.accepted.None?
    ensures Holds(Apply(s, Hear(m, via, now, toSid, sdp)).call, s.call.peers[m.sender], TopicOf(m)) <==>
            && KeyOf(TopicOf(m), via) !in s.signal.seenSig && s.signal.joined
            && (m.sender in s.signal.members ==> s.signal.members[m.sender].sid == m.sid)
  {
    Sig.DeliversExactlyWhen(s.signal, m, via, now);
    assert KeyOf(TopicOf(m), via) == Sig.KeyOf(m, via);
    hide Sig.Ingest;
  }

  // ------------------------------------------------ two transports are enough for a stale answer

  lemma {:induction false} OneMore(s: Session, steps: seq<Step>, last: Step)
    requires Legal(s, steps) && Enabled(After(s, steps), last)
    ensures Legal(s, steps + [last]) && After(s, steps + [last]) == Apply(After(s, steps), last)
    decreases |steps|
  {
    hide Apply, Enabled;
    if steps == [] {
      assert steps + [last] == [last] && [last][1..] == [];
      assert Legal(Apply(s, last), []);
    } else {
      assert (steps + [last])[0] == steps[0] && (steps + [last])[1..] == steps[1..] + [last];
      OneMore(Apply(s, steps[0]), steps[1..], last);
    }
  }

  /** The callee's join. */
  const HELLO := Sig.Msg(Sig.Join, [2], "t", [], 0, 0, 0, true)

  /** The callee's answer to the first offer. */
  const ANSWER := Sig.Msg(Sig.Answer, [2], "t", [1], 0, 0, 0, false)

  function Heard(seen: set<Sig.SignalKey>): Sig.Signal {
    Sig.Signal(
      [1], "s", true, false,
      map[[1] := Sig.Entry("s", 0, 0, true), [2] := Sig.Entry("t", 0, 0, true)], seen, map[], true, 0)
  }

  lemma JoinAndHello()
    ensures var s0 := Sig.Fresh([1], "s", true, false);
            var s1 := Sig.Apply(s0, Sig.DoJoin(0));
            Sig.Ingest(s1, HELLO, Sig.Rt, 0) == Sig.Outcome(Heard({}), true, false)
  {
    assert [1] != [2] by { assert [1][0] != [2][0]; }
    var s1 := Sig.Apply(Sig.Fresh([1], "s", true, false), Sig.DoJoin(0));
    assert s1.members == map[[1] := Sig.Entry("s", 0, 0, true)];
    var s2 := Sig.Ingest(s1, HELLO, Sig.Rt, 0).state;
    assert s2.members == Heard({}).members;
  }

  lemma BothAreListed()
    ensures Sig.IsRoster(Stale.BOTH, Heard({}), 0, {})
  {
    Stale.BothInCall();
    var s := Heard({});
    forall m | m in Stale.BOTH ensures Sig.Listed(s, m.id, 0, {}) && m == Sig.MemberOf(s, m.id) {
    }
    assert Stale.BOTH[0] == Sig.MemberOf(s, [1]) && Stale.BOTH[1] == Sig.MemberOf(s, [2]);
    assert Ordered(Stale.BOTH) by { assert Less([1], [2]); }
  }

  /** A copy of the answer comes in over a transport it did not use before. */
  lemma CopyComesIn(via: Sig.Via, seen: set<Sig.SignalKey>)
    requires KeyOf(AnswerOf([2], "t"), via) !in seen
    ensures Sig.Ingest(Heard(seen), ANSWER, via, 0)
            == Sig.Outcome(Heard(seen + {KeyOf(AnswerOf([2], "t"), via)}), false, true)
  {
    var o := Sig.Ingest(Heard(seen), ANSWER, via, 0);
    assert [1] != [2] by { assert [1][0] != [2][0]; }
    assert o.state.members == Heard(seen).members;
  }

  function Copy(via: Sig.Via): Step {
    Hear(ANSWER, via, 0, "s", "answer")
  }

  lemma ActIs(s: Session, e: Call.Event)
    requires !e.SetRoster? && !e.Deliver? && Call.Enabled(s.call, e)
    ensures Enabled(s, Act(e)) && Apply(s, Act(e)) == s.(call := Call.Apply(s.call, e))
  {
  }

  lemma {:induction false} ActsAre(s: Session, es: seq<Call.Event>) returns (steps: seq<Step>)
    requires Call.Legal(s.call, es) && forall k :: 0 <= k < |es| ==> !es[k].SetRoster? && !es[k].Deliver?
    ensures Legal(s, steps) && After(s, steps) == s.(call := Call.After(s.call, es))
    decreases |es|
  {
    if es == [] {
      steps := [];
    } else {
      ActIs(s, es[0]);
      hide Apply, Enabled, Call.Apply, Call.Enabled;
      var rest := ActsAre(Apply(s, Act(es[0])), es[1..]);
      steps := [Act(es[0])] + rest;
      assert steps[1..] == rest;
    }
  }

  /** The session joins the signalling and hears the callee's hello. */
  lemma Meet(node: Call.Node)
    ensures var s0 := Session(Sig.Fresh([1], "s", true, false), node);
            var s1 := Session(Sig.Apply(s0.signal, Sig.DoJoin(0)), node);
            && Enabled(s0, Timed(Sig.DoJoin(0))) && Apply(s0, Timed(Sig.DoJoin(0))) == s1
            && Enabled(s1, Hear(HELLO, Sig.Rt, 0, "", ""))
            && Apply(s1, Hear(HELLO, Sig.Rt, 0, "", "")) == Session(Heard({}), node)
  {
    JoinAndHello();
    hide Sig.Ingest, Heard;
  }

  lemma ShowBoth()
    ensures var s := Session(Heard({}), Stale.Joined([1], "s"));
            && Enabled(s, Show(Stale.BOTH, 0, {}))
            && Apply(s, Show(Stale.BOTH, 0, {})) == Session(Heard({}), Stale.Met())
  {
    BothAreListed();
    Stale.Meets();
    hide Sig.IsRoster, Heard, Stale.Joined, Stale.Met, Call.Apply;
  }

  lemma Joins() returns (steps: seq<Step>)
    ensures Legal(Begin([1], "s", true, 2), steps)
    ensures After(Begin([1], "s", true, 2), steps) == Session(Sig.Fresh([1], "s", true, false), Stale.Joined([1], "s"))
  {
    var s := Begin([1], "s", true, 2);
    Stale.JoinedIsReady([1], "s");
    hide Call.Apply, Call.Enabled, Call.After, Call.Legal, Legal, After, Stale.Joined, Call.NodeInv;
    steps := ActsAre(s, [Call.StartJoin, Call.MicOpened, Call.IceReady]);
  }

  lemma Offers()
    ensures var s := Session(Heard({}), Stale.Met());
            var e := Act(Call.OfferMade(0, "sdp"));
            Enabled(s, e) && Apply(s, e) == Session(Heard({}), Stale.Called())
  {
    Stale.Calls();
    ActIs(Session(Heard({}), Stale.Met()), Call.OfferMade(0, "sdp"));
    hide Apply, Enabled, Heard, Stale.Met, Stale.Called;
  }

  /** The caller joins, the callee says hello, and the caller's offer goes out. */
  lemma Called() returns (steps: seq<Step>)
    ensures Legal(Begin([1], "s", true, 2), steps)
    ensures After(Begin([1], "s", true, 2), steps) == Session(Heard({}), Stale.Called())
  {
    hide *;
    var s := Begin([1], "s", true, 2);
    Meet(Stale.Joined([1], "s"));
    ShowBoth();
    Offers();
    var one := Joins();
    OneMore(s, one, Timed(Sig.DoJoin(0)));
    var two := one + [Timed(Sig.DoJoin(0))];
    OneMore(s, two, Hear(HELLO, Sig.Rt, 0, "", ""));
    var three := two + [Hear(HELLO, Sig.Rt, 0, "", "")];
    OneMore(s, three, Show(Stale.BOTH, 0, {}));
    var four := three + [Show(Stale.BOTH, 0, {})];
    OneMore(s, four, Act(Call.OfferMade(0, "sdp")));
    steps := four + [Act(Call.OfferMade(0, "sdp"))];
  }

  function BothKeys(): set<Sig.SignalKey> {
    {KeyOf(AnswerOf([2], "t"), Sig.Rt)} + {KeyOf(AnswerOf([2], "t"), Sig.Update)}
  }

  function Body(): Call.Msg {
    BodyOf(ANSWER, "s", "answer")
  }

  /** The answer over realtime, the loss of the connection, the answer over status updates. */
  lemma AnsweredTwice()
    ensures var s0 := Session(Heard({}), Stale.Called());
            var s1 := Session(Heard({KeyOf(AnswerOf([2], "t"), Sig.Rt)}), Call.Apply(Stale.Called(), Call.Deliver(Body())));
            && Enabled(s0, Copy(Sig.Rt)) && Apply(s0, Copy(Sig.Rt)) == s1
    ensures var s2 := Session(Heard({KeyOf(AnswerOf([2], "t"), Sig.Rt)}), Stale.Rebuilt(Body()));
            && Enabled(s2, Copy(Sig.Update))
            && Apply(s2, Copy(Sig.Update)) == Session(Heard(BothKeys()), Call.Apply(Stale.Rebuilt(Body()), Call.Deliver(Body())))
  {
    CopyComesIn(Sig.Rt, {});
    CopyComesIn(Sig.Update, {KeyOf(AnswerOf([2], "t"), Sig.Rt)});
    assert {} + {KeyOf(AnswerOf([2], "t"), Sig.Rt)} == {KeyOf(AnswerOf([2], "t"), Sig.Rt)};
    hide Sig.Ingest, Heard, Stale.Called, Stale.Rebuilt, Call.HandleSignal;
  }

  lemma IsAnswer()
    ensures Stale.AnswersTo(Stale.FIRST_OFFER, Body()) && Body().sid == "t" && Body().from == [2]
  {
  }

  lemma LosesConnection()
    ensures var n := Call.Apply(Stale.Called(), Call.Deliver(Body()));
            Call.Enabled(n, Call.ConnectionFailed(0)) && Call.Apply(n, Call.ConnectionFailed(0)) == Stale.Rebuilt(Body())
  {
    IsAnswer();
    Stale.Rebuilds(Body());
    var es := [Call.Deliver(Body()), Call.ConnectionFailed(0)];
    var n := Call.Apply(Stale.Called(), Call.Deliver(Body()));
    hide Call.Apply, Call.Enabled, Stale.Called, Stale.Rebuilt, Body;
    assert es[1..] == [Call.ConnectionFailed(0)] && es[1..][1..] == [];
    assert Call.Legal(n, es[1..]);
    assert Call.After(n, es[1..]) == Call.After(Call.Apply(n, Call.ConnectionFailed(0)), []);
  }

  /** The caller's session up to the second copy. */
  lemma AnsweredAndLost() returns (steps: seq<Step>)
    ensures Legal(Begin([1], "s", true, 2), steps)
    ensures After(Begin([1], "s", true, 2), steps)
            == Session(Heard(BothKeys()), Call.Apply(Stale.Rebuilt(Body()), Call.Deliver(Body())))
  {
    hide *;
    var s := Begin([1], "s", true, 2);
    var one := Called();
    AnsweredTwice();
    OneMore(s, one, Copy(Sig.Rt));
    var two := one + [Copy(Sig.Rt)];
    LosesConnection();
    ActIs(After(s, two), Call.ConnectionFailed(0));
    OneMore(s, two, Act(Call.ConnectionFailed(0)));
    var three := two + [Act(Call.ConnectionFailed(0))];
    OneMore(s, three, Copy(Sig.Update));
    steps := three + [Copy(Sig.Update)];
  }

  lemma NothingUnheard(n: Call.Node)
    ensures Unheard(Session(Heard(BothKeys()), n), AnswerOf([2], "t")) == 0
  {
  }

  /** A whole session in which the answer's copy over realtime is taken by the connection that asked for
      it, the copy over status updates by its successor: that one never says a word unless the browser
      turns the answer down, and nothing further from the callee's session can answer any connection. */
  lemma StaleCopyComesThrough() returns (steps: seq<Step>)
    ensures Legal(Begin([1], "s", true, 2), steps)
    ensures var s := After(Begin([1], "s", true, 2), steps);
            && Holds(s.call, 1, AnswerOf([2], "t")) && s.call.recs[1].making && Stale.Answered(s.call, 1)
            && Unheard(s, AnswerOf([2], "t")) == 0
            && forall more, j :: Legal(s, more) && j >= |s.call.recs| ==> !Holds(After(s, more).call, j, AnswerOf([2], "t"))
  {
    steps := AnsweredAndLost();
    var s := After(Begin([1], "s", true, 2), steps);
    IsAnswer();
    Stale.TakesCopy(Body());
    NothingUnheard(s.call);
    Call.FreshOk([1], "s", 2);
    RunKeeps(Begin([1], "s", true, 2), steps);
    hide Legal, After, Unheard, Heard, Call.Apply, Call.NodeInv, Stale.Rebuilt, Body;
    forall more, j | Legal(s, more) && j >= |s.call.recs| ensures !Holds(After(s, more).call, j, AnswerOf([2], "t")) {
      NoThirdAnswer(s, more, AnswerOf([2], "t"), j);
    }
  }
}
