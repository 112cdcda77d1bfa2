/** One participant of a group audio call (`GroupCall` in app/js/group-call.js), as a state machine.
    A step is one stretch of code between two awaits; the promises it leaves behind are fields of the
    connection record (`making`, `sending`, `answering`, `applying`) or of the node (`joining`).
    WebRTC is reduced to the session descriptions, which are opaque text. */
module GroupCall {
  import opened Options
  import opened Roster

  const MAX_OFFER_TRIES := 4
  const RESTART_LIMIT := 3

  datatype CallState = Idle | Joining | Active | Full | Ended

  /** Where a pending `join()` waits: for the microphone, for the ICE servers, or nowhere. */
  datatype JoinWait = NoJoin | ForMic | ForIce

  datatype Msg =
    | Offer(from: Id, to: Id, sid: string, toSid: string, sdp: string, try: nat)
    | Answer(from: Id, to: Id, sid: string, toSid: string, sdp: string)

  /** A connection record.  Text fields that are unset in the program are empty here. */
  datatype Peer = Peer(
    id: Id, sid: string, remoteSid: string, localSdp: Option<string>,
    tries: nat, restarts: nat, rebuiltFrom: Option<nat>,
    answered: bool, accepted: Option<Msg>,
    making: bool, sending: bool, retryArmed: bool,
    answering: bool, answerTo: string, applying: bool,
    localOffer: bool, remoteOffer: bool)

  /** What `send` was called with, and by which connection record. */
  datatype Envelope = Envelope(rec: nat, msg: Msg)

  /** Records are named by their position in `recs`, which only grows: the position stands for the
      object identity the program compares with `===`. */
  datatype Node = Node(
    selfId: Id, sid: string, max: nat,
    state: CallState, joining: JoinWait, stream: bool,
    roster: seq<Member>, peers: map<Id, nat>, recs: seq<Peer>, sent: seq<Envelope>)

  datatype Event =
    | StartJoin
    | MicOpened
    | MicFailed
    | IceReady
    | IceUnavailable
    | SetRoster(list: seq<Member>)
    | Leave
    | OfferMade(rec: nat, sdp: string)
    | OfferFailed(rec: nat)
    | OfferSent(rec: nat, ok: bool)
    | RetryFires(rec: nat)
    | Deliver(msg: Msg)
    | AnswerMade(rec: nat, sdp: string)
    | AnswerFailed(rec: nat)
    | AnswerDone(rec: nat)
    | AnswerApplied(rec: nat, ok: bool)
    | ConnectionFailed(rec: nat)

  function Fresh(selfId: Id, sid: string, max: nat): Node {
    Node(selfId, sid, max, Idle, NoJoin, false, [], map[], [], [])
  }

  function IsOfferer(self: Id, peer: Id): bool {
    Less(self, peer)
  }

  function Find(r: seq<Member>, id: Id): Option<Member> {
    if r == [] then None else if r[0].id == id then Some(r[0]) else Find(r[1..], id)
  }

  function SidOf(r: seq<Member>, id: Id): string {
    if Find(r, id).Some? then Find(r, id).value.sid else ""
  }

  predicate Current(n: Node, rec: nat) {
    rec < |n.recs| && n.recs[rec].id in n.peers && n.peers[n.recs[rec].id] == rec
  }

  function InCall(n: Node): seq<Member> {
    Admitted(n.roster, n.max)
  }

  // ---------------------------------------------------------------- the program's steps

  function NewRecord(id: Id, sid: string, restarts: nat, from: Option<nat>, offers: bool): Peer {
    Peer(id, sid, "", None, 0, restarts, from, false, None, offers, false, false, false, "", false, offers, false)
  }

  /** `_newPeer`, followed by `_offer` up to its first await when this side offers. */
  function AddPeer(n: Node, id: Id, sid: string, restarts: nat, from: Option<nat>): Node {
    n.(recs := n.recs + [NewRecord(id, sid, restarts, from, IsOfferer(n.selfId, id))],
       peers := n.peers[id := |n.recs|])
  }

  /** `_dropPeer` for every id of `gone`. */
  function DropPeers(n: Node, gone: set<Id>): Node {
    n.(peers := n.peers - gone,
       recs := seq(|n.recs|, k requires 0 <= k < |n.recs| =>
         if Current(n, k) && n.recs[k].id in gone then n.recs[k].(retryArmed := false) else n.recs[k]))
  }

  function AddMissing(n: Node, want: seq<Member>): Node
    decreases |want|
  {
    if want == [] || !n.stream then n
    else if want[0].id == n.selfId || want[0].id in n.peers then AddMissing(n, want[1..])
    else AddMissing(AddPeer(n, want[0].id, want[0].sid, 0, None), want[1..])
  }

  /** Connections that no longer belong: gone from the call, or rejoined with a new session. */
  function Obsolete(n: Node): set<Id> {
    set id | id in n.peers &&
      (|| id !in Ids(InCall(n))
       || (n.peers[id] < |n.recs| && SidOf(InCall(n), id) != "" && n.recs[n.peers[id]].sid != ""
           && SidOf(InCall(n), id) != n.recs[n.peers[id]].sid))
  }

  function Reconcile(n: Node): Node {
    if n.selfId !in Ids(InCall(n)) && n.selfId in Ids(n.roster) then
      DropPeers(n.(state := Full), n.peers.Keys)
    else
      AddMissing(DropPeers(n.(state := Active), Obsolete(n)), InCall(n))
  }

  /** The tail of `_offer`, once the description is there. */
  function SendOffer(n: Node, rec: nat): Node
    requires rec < |n.recs| && n.recs[rec].localSdp.Some?
  {
    var p := n.recs[rec];
    if !Current(n, rec) || p.answered then n
    else
      n.(recs := n.recs[rec := p.(tries := p.tries + 1, sending := true)],
         sent := n.sent + [Envelope(rec, Offer(n.selfId, p.id, n.sid, p.sid, p.localSdp.value, p.tries + 1))])
  }

  function SendAnswer(n: Node, rec: nat, toSid: string): Node
    requires rec < |n.recs| && n.recs[rec].localSdp.Some?
  {
    var p := n.recs[rec];
    n.(sent := n.sent + [Envelope(rec, Answer(n.selfId, p.id, n.sid, toSid, p.localSdp.value))])
  }

  /** `_onOffer` up to its first await. */
  function OnOffer(n: Node, msg: Msg): Node
    requires msg.Offer?
  {
    if IsOfferer(n.selfId, msg.from) || msg.from !in Ids(InCall(n)) || n.selfId !in Ids(InCall(n)) then n
    else if msg.from in n.peers && n.peers[msg.from] < |n.recs|
            && n.recs[n.peers[msg.from]].remoteSid == msg.sid && n.recs[n.peers[msg.from]].localSdp.Some? then
      SendAnswer(n, n.peers[msg.from], msg.sid)
    else
      var other := msg.from in n.peers && n.peers[msg.from] < |n.recs|
                   && n.recs[n.peers[msg.from]].remoteSid !in {"", msg.sid};
      var n1 := if other then DropPeers(n, {msg.from}) else n;
      if msg.from !in n1.peers && !n1.stream then n1
      else
        var n2 := if msg.from in n1.peers then n1 else AddPeer(n1, msg.from, SidOf(InCall(n), msg.from), 0, None);
        BeginAnswer(n2, n2.peers[msg.from], msg.sid)
  }

  function BeginAnswer(n: Node, rec: nat, sid: string): Node {
    if rec >= |n.recs| || n.recs[rec].answering then n
    else
      n.(recs := n.recs[rec := n.recs[rec].(answering := true, answerTo := sid, remoteSid := sid, remoteOffer := true)])
  }

  /** `_onAnswer` up to its await. */
  function OnAnswer(n: Node, msg: Msg): Node
    requires msg.Answer?
  {
    if msg.from !in n.peers || n.peers[msg.from] >= |n.recs| || n.recs[n.peers[msg.from]].answered
       || !IsOfferer(n.selfId, msg.from) then n
    else
      var rec := n.peers[msg.from];
      n.(recs := n.recs[rec := n.recs[rec].(
           answered := true, remoteSid := msg.sid, retryArmed := false, applying := true, accepted := Some(msg))])
  }

  function HandleSignal(n: Node, msg: Msg): Node {
    if msg.to != n.selfId || msg.from == n.selfId || n.state != Active then n
    else if msg.toSid != "" && msg.toSid != n.sid then n
    else if msg.Offer? then OnOffer(n, msg)
    else OnAnswer(n, msg)
  }

  function Rebuild(n: Node, rec: nat): Node
    requires rec < |n.recs|
  {
    var p := n.recs[rec];
    if n.state != Active || !Current(n, rec) || p.restarts >= RESTART_LIMIT then n
    else AddPeer(DropPeers(n, {p.id}), p.id, SidOf(n.roster, p.id), p.restarts + 1, Some(rec))
  }

  predicate Enabled(n: Node, e: Event) {
    match e
    case MicOpened => n.joining == ForMic
    case MicFailed => n.joining == ForMic
    case IceReady => n.joining == ForIce
    case IceUnavailable => n.joining == ForIce
    case SetRoster(list) => Distinct(list)
    case OfferMade(rec, _) => rec < |n.recs| && n.recs[rec].making
    case OfferFailed(rec) => rec < |n.recs| && n.recs[rec].making
    case OfferSent(rec, _) => rec < |n.recs| && n.recs[rec].sending
    case RetryFires(rec) => rec < |n.recs| && n.recs[rec].retryArmed
    case Deliver(msg) => msg.sid != ""
    case AnswerMade(rec, _) => rec < |n.recs| && n.recs[rec].answering && n.recs[rec].localSdp.None?
    case AnswerFailed(rec) => rec < |n.recs| && n.recs[rec].answering && n.recs[rec].localSdp.None?
    case AnswerDone(rec) => rec < |n.recs| && n.recs[rec].answering && n.recs[rec].localSdp.Some?
    case AnswerApplied(rec, _) => rec < |n.recs| && n.recs[rec].applying
    case ConnectionFailed(rec) => rec < |n.recs|
    case StartJoin => true
    case Leave => true
  }

  function SetRec(n: Node, rec: nat, p: Peer): Node
    requires rec < |n.recs|
  {
    n.(recs := n.recs[rec := p])
  }

  /** `_offer` when the local description is gathered. */
  function OfferMadeStep(n: Node, rec: nat, sdp: string): Node
    requires rec < |n.recs|
  {
    SendOffer(SetRec(n, rec, n.recs[rec].(making := false, localSdp := Some(sdp))), rec)
  }

  /** The retry timer: the same description once more. */
  function RetryStep(n: Node, rec: nat): Node
    requires rec < |n.recs|
  {
    var n1 := SetRec(n, rec, n.recs[rec].(retryArmed := false));
    if n.recs[rec].localSdp.Some? then SendOffer(n1, rec) else n1
  }

  /** `_onOffer` when the answer is gathered. */
  function AnswerMadeStep(n: Node, rec: nat, sdp: string): Node
    requires rec < |n.recs|
  {
    var n1 := SetRec(n, rec, n.recs[rec].(localSdp := Some(sdp), answered := true));
    if Current(n, rec) then SendAnswer(n1, rec, n.recs[rec].answerTo) else n1
  }

  function Apply(n: Node, e: Event): Node
    requires Enabled(n, e)
  {
    match e
    case StartJoin => if n.state != Idle then n else n.(state := Joining, joining := ForMic)
    case MicOpened => n.(stream := true, joining := ForIce)
    case MicFailed => n.(state := Ended, joining := NoJoin)
    case IceReady => Reconcile(n.(state := Active, joining := NoJoin))
    case IceUnavailable => n.(joining := NoJoin)
    case SetRoster(list) =>
      var n1 := n.(roster := list);
      if n.state == Active || n.state == Full then Reconcile(n1) else n1
    case Leave =>
      if n.state == Ended then n else DropPeers(n.(state := Ended, stream := false), n.peers.Keys)
    case OfferMade(rec, sdp) => OfferMadeStep(n, rec, sdp)
    case OfferFailed(rec) => SetRec(n, rec, n.recs[rec].(making := false))
    case OfferSent(rec, ok) =>
      var p := n.recs[rec];
      SetRec(n, rec, p.(sending := false, retryArmed := ok && p.tries < MAX_OFFER_TRIES))
    case RetryFires(rec) => RetryStep(n, rec)
    case Deliver(msg) => HandleSignal(n, msg)
    case AnswerMade(rec, sdp) => AnswerMadeStep(n, rec, sdp)
    case AnswerFailed(rec) => SetRec(n, rec, n.recs[rec].(answering := false))
    case AnswerDone(rec) => SetRec(n, rec, n.recs[rec].(answering := false))
    case AnswerApplied(rec, ok) =>
      var p := n.recs[rec];
      SetRec(n, rec, if ok then p.(applying := false) else p.(applying := false, answered := false, accepted := None))
    case ConnectionFailed(rec) => Rebuild(n, rec)
  }

  // ---------------------------------------------------------------- the invariant

  function OfferCount(sent: seq<Envelope>, rec: nat): nat {
    if sent == [] then 0
    else
      var last := sent[|sent| - 1];
      OfferCount(sent[..|sent| - 1], rec) + if last.rec == rec && last.msg.Offer? then 1 else 0
  }

  /** `restarts` counts the rebuilds since the connection was first set up. */
  predicate ChainOk(earlier: seq<Peer>, id: Id, restarts: nat, from: Option<nat>) {
    if from.None? then restarts == 0
    else from.value < |earlier| && earlier[from.value].id == id && restarts == earlier[from.value].restarts + 1
  }

  /** One record: its role is fixed by the ids, its offers are bounded, its rebuild chain is counted. */
  predicate RecOk(self: Id, sid: string, recs: seq<Peer>, k: nat)
    requires k < |recs|
  {
    var p := recs[k];
    && p.id != self
    && (p.localOffer ==> IsOfferer(self, p.id))
    && (p.remoteOffer ==> !IsOfferer(self, p.id))
    && (p.making || p.sending || p.retryArmed || p.tries > 0 ==> p.localOffer)
    && (p.answering ==> p.remoteOffer && p.remoteSid != "" && p.answerTo == p.remoteSid)
    && (p.localSdp.Some? ==> p.localOffer || (p.remoteOffer && p.remoteSid != ""))
    && (p.making ==> p.tries == 0 && p.localSdp.None? && !p.sending && !p.retryArmed)
    && (p.sending || p.retryArmed ==> p.localSdp.Some?)
    && !(p.sending && p.retryArmed)
    && p.tries <= MAX_OFFER_TRIES && (p.retryArmed ==> p.tries < MAX_OFFER_TRIES)
    && p.restarts <= RESTART_LIMIT
    && ChainOk(recs[..k], p.id, p.restarts, p.rebuiltFrom)
    && (match p.accepted
        case None => true
        case Some(m) => p.answered && m.Answer? && m.from == p.id && m.toSid in {"", sid} && IsOfferer(self, p.id))
  }

  /** One message sent: it carries the record's one description, and runs in the pair's direction. */
  predicate SentOk(n: Node, e: Envelope) {
    && e.rec < |n.recs|
    && var p := n.recs[e.rec];
       && e.msg.from == n.selfId && e.msg.to == p.id && e.msg.sid == n.sid
       && p.localSdp == Some(e.msg.sdp)
       && (e.msg.Offer? ==> p.localOffer && 1 <= e.msg.try <= p.tries)
       && (e.msg.Answer? ==> p.remoteOffer && e.msg.toSid == p.remoteSid)
  }

  predicate PeersValid(n: Node) {
    forall id :: id in n.peers ==> n.peers[id] < |n.recs| && n.recs[n.peers[id]].id == id
  }

  ghost predicate Counted(n: Node) {
    forall k: nat :: OfferCount(n.sent, k) == if k < |n.recs| then n.recs[k].tries else 0
  }

  predicate RecsOk(n: Node) {
    forall k :: 0 <= k < |n.recs| ==> RecOk(n.selfId, n.sid, n.recs, k)
  }

  ghost predicate LogOk(n: Node) {
    (forall j :: 0 <= j < |n.sent| ==> SentOk(n, n.sent[j])) && Counted(n)
  }

  ghost predicate Core(n: Node) {
    PeersValid(n) && RecsOk(n) && LogOk(n)
  }

  /** Connected to exactly the admitted others while active with the microphone held, else to nobody. */
  predicate KeysOk(n: Node) {
    if n.state == Active && n.stream then n.peers.Keys == Ids(InCall(n)) - {n.selfId} else n.peers == map[]
  }

  /** Whether the own id is on the roster but beyond the cap. */
  predicate Waiting(n: Node) {
    n.selfId in Ids(n.roster) && n.selfId !in Ids(InCall(n))
  }

  ghost predicate NodeInv(n: Node) {
    && Core(n) && KeysOk(n) && Distinct(n.roster)
    && (n.state == Active ==> !Waiting(n)) && (n.state == Full ==> Waiting(n))
    && (n.state == Idle ==> !n.stream)
    && (n.joining != NoJoin ==> n.state == Joining || n.state == Ended)
  }

  // ------------------------------------------------ how records may change

  /** What was decided about a record stays: its peer, its place in the rebuild chain, its role and,
      once there, its session description and whom that answers. */
  predicate Later(a: Peer, b: Peer) {
    && b.id == a.id && b.restarts == a.restarts && b.rebuiltFrom == a.rebuiltFrom
    && (a.localSdp.Some? ==> b.localSdp == a.localSdp)
    && (a.localSdp.Some? && a.remoteOffer ==> b.remoteSid == a.remoteSid)
    && (a.localOffer ==> b.localOffer) && (a.remoteOffer ==> b.remoteOffer)
    && a.tries <= b.tries
  }

  predicate Grown(a: seq<Peer>, b: seq<Peer>) {
    |a| <= |b| && forall k :: 0 <= k < |a| ==> Later(a[k], b[k])
  }

  lemma RecOkFrame(self: Id, sid: string, a: seq<Peer>, b: seq<Peer>, k: nat)
    requires k < |a| && Grown(a, b) && b[k] == a[k] && RecOk(self, sid, a, k)
    ensures RecOk(self, sid, b, k)
  {
  }

  lemma SetRecRecs(n: Node, rec: nat, p: Peer)
    requires RecsOk(n) && rec < |n.recs| && Later(n.recs[rec], p)
    requires RecOk(n.selfId, n.sid, n.recs[rec := p], rec)
    ensures RecsOk(SetRec(n, rec, p)) && Grown(n.recs, SetRec(n, rec, p).recs)
  {
    var n1 := SetRec(n, rec, p);
    forall k | 0 <= k < |n1.recs| ensures RecOk(n.selfId, n.sid, n1.recs, k) {
      if k != rec { RecOkFrame(n.selfId, n.sid, n.recs, n1.recs, k); }
    }
  }

  lemma SetRecKeeps(n: Node, rec: nat, p: Peer)
    requires Core(n) && rec < |n.recs| && Later(n.recs[rec], p) && p.tries == n.recs[rec].tries
    requires RecOk(n.selfId, n.sid, n.recs[rec := p], rec)
    ensures Core(SetRec(n, rec, p)) && Grown(n.recs, SetRec(n, rec, p).recs)
  {
    var n1 := SetRec(n, rec, p);
    SetRecRecs(n, rec, p);
    forall j | 0 <= j < |n1.sent| ensures SentOk(n1, n1.sent[j]) {
      assert SentOk(n, n.sent[j]);
    }
  }

  lemma DropRecs(n: Node, gone: set<Id>)
    requires RecsOk(n)
    ensures RecsOk(DropPeers(n, gone)) && Grown(n.recs, DropPeers(n, gone).recs)
  {
    var n1 := DropPeers(n, gone);
    forall k | 0 <= k < |n1.recs| ensures RecOk(n.selfId, n.sid, n1.recs, k) && Later(n.recs[k], n1.recs[k]) {
      hide Current;
      assert RecOk(n.selfId, n.sid, n.recs, k);
    }
  }

  lemma LogFrame(n: Node, n1: Node)
    requires LogOk(n) && Grown(n.recs, n1.recs) && n1.sent == n.sent
    requires n1.selfId == n.selfId && n1.sid == n.sid
    requires forall k :: 0 <= k < |n1.recs| ==> n1.recs[k].tries == if k < |n.recs| then n.recs[k].tries else 0
    ensures LogOk(n1)
  {
    forall j | 0 <= j < |n1.sent| ensures SentOk(n1, n1.sent[j]) {
      assert SentOk(n, n.sent[j]);
      assert Later(n.recs[n.sent[j].rec], n1.recs[n.sent[j].rec]);
    }
  }

  lemma DropKeeps(n: Node, gone: set<Id>)
    requires Core(n)
    ensures Core(DropPeers(n, gone)) && Grown(n.recs, DropPeers(n, gone).recs)
    ensures |DropPeers(n, gone).recs| == |n.recs|
  {
    hide RecsOk, LogOk;
    DropRecs(n, gone);
    LogFrame(n, DropPeers(n, gone));
  }

  lemma AddKeeps(n: Node, id: Id, sid: string, restarts: nat, from: Option<nat>)
    requires Core(n) && id != n.selfId && restarts <= RESTART_LIMIT
    requires ChainOk(n.recs, id, restarts, from)
    ensures Core(AddPeer(n, id, sid, restarts, from)) && Grown(n.recs, AddPeer(n, id, sid, restarts, from).recs)
  {
    var n1 := AddPeer(n, id, sid, restarts, from);
    forall k | 0 <= k < |n1.recs| ensures RecOk(n.selfId, n.sid, n1.recs, k) {
      if k < |n.recs| { RecOkFrame(n.selfId, n.sid, n.recs, n1.recs, k); }
    }
    forall j | 0 <= j < |n1.sent| ensures SentOk(n1, n1.sent[j]) {
      assert SentOk(n, n.sent[j]);
    }
  }

  lemma IdsHead(want: seq<Member>)
    requires want != []
    ensures Ids(want) == {want[0].id} + Ids(want[1..])
  {
    forall id | id in Ids(want) ensures id in {want[0].id} + Ids(want[1..]) {
      var k :| 0 <= k < |want| && want[k].id == id;
      if k > 0 { assert want[1..][k - 1].id == id; }
    }
    forall id | id in Ids(want[1..]) ensures id in Ids(want) {
      var k :| 0 <= k < |want[1..]| && want[1..][k].id == id;
      assert want[k + 1].id == id;
    }
  }

  lemma {:induction false} AddMissingKeeps(n: Node, want: seq<Member>)
    requires Core(n)
    ensures Core(AddMissing(n, want)) && Grown(n.recs, AddMissing(n, want).recs)
    decreases |want|
  {
    if want != [] && n.stream {
      if want[0].id == n.selfId || want[0].id in n.peers {
        AddMissingKeeps(n, want[1..]);
      } else {
        var n1 := AddPeer(n, want[0].id, want[0].sid, 0, None);
        AddKeeps(n, want[0].id, want[0].sid, 0, None);
        AddMissingKeeps(n1, want[1..]);
        GrownTransitive(n.recs, n1.recs, AddMissing(n1, want[1..]).recs);
      }
    }
  }

  lemma GrownTransitive(a: seq<Peer>, b: seq<Peer>, c: seq<Peer>)
    requires Grown(a, b) && Grown(b, c)
    ensures Grown(a, c)
  {
    forall k | 0 <= k < |a| ensures Later(a[k], c[k]) {
      assert Later(a[k], b[k]) && Later(b[k], c[k]);
    }
  }

  /** Which connections `AddMissing` leaves: the old ones untouched, and one for every wanted id. */
  lemma {:induction false} AddMissingPeers(n: Node, want: seq<Member>)
    requires n.stream
    ensures var n1 := AddMissing(n, want);
            && n1 == n.(recs := n1.recs, peers := n1.peers)
            && n1.peers.Keys == n.peers.Keys + (Ids(want) - {n.selfId})
            && (forall id :: id in n.peers ==> n1.peers[id] == n.peers[id])
            && (forall id :: id in n1.peers && id !in n.peers ==> n1.peers[id] >= |n.recs|)
    decreases |want|
  {
    if want == [] {
      assert Ids(want) == {};
    } else {
      IdsHead(want);
      if want[0].id == n.selfId || want[0].id in n.peers {
        AddMissingPeers(n, want[1..]);
      } else {
        AddMissingPeers(AddPeer(n, want[0].id, want[0].sid, 0, None), want[1..]);
      }
    }
  }

  lemma SendAnswerKeeps(n: Node, rec: nat, toSid: string)
    requires Core(n) && rec < |n.recs| && n.recs[rec].localSdp.Some?
    requires n.recs[rec].remoteOffer && toSid == n.recs[rec].remoteSid
    ensures Core(SendAnswer(n, rec, toSid))
  {
    var n1 := SendAnswer(n, rec, toSid);
    assert n1.sent[..|n.sent|] == n.sent;
    forall j | 0 <= j < |n1.sent| ensures SentOk(n1, n1.sent[j]) {
      if j < |n.sent| { assert SentOk(n, n.sent[j]); }
    }
    forall k: nat ensures OfferCount(n1.sent, k) == OfferCount(n.sent, k) {
    }
  }

  lemma SendOfferLog(n: Node, n1: Node, rec: nat, e: Envelope)
    requires LogOk(n) && rec < |n.recs| && |n1.recs| == |n.recs| && Later(n.recs[rec], n1.recs[rec])
    requires n1 == n.(recs := n.recs[rec := n1.recs[rec]], sent := n.sent + [e])
    requires n1.recs[rec].tries == n.recs[rec].tries + 1 && e.msg.Offer? && e.rec == rec && SentOk(n1, e)
    ensures LogOk(n1)
  {
    assert n1.sent[..|n.sent|] == n.sent;
    forall j | 0 <= j < |n1.sent| ensures SentOk(n1, n1.sent[j]) {
      if j < |n.sent| { assert SentOk(n, n.sent[j]); }
    }
    forall k: nat ensures OfferCount(n1.sent, k) == if k < |n1.recs| then n1.recs[k].tries else 0 {
      assert OfferCount(n.sent, k) == if k < |n.recs| then n.recs[k].tries else 0;
    }
  }

  lemma SendOfferKeeps(n: Node, rec: nat)
    requires Core(n) && rec < |n.recs| && n.recs[rec].localSdp.Some? && n.recs[rec].localOffer
    requires n.recs[rec].tries < MAX_OFFER_TRIES && !n.recs[rec].retryArmed && !n.recs[rec].making
    ensures Core(SendOffer(n, rec)) && Grown(n.recs, SendOffer(n, rec).recs)
  {
    var n1 := SendOffer(n, rec);
    if n1 != n {
      assert RecOk(n.selfId, n.sid, n.recs, rec);
      SetRecRecs(n, rec, n1.recs[rec]);
      SendOfferLog(n, n1, rec, n1.sent[|n.sent|]);
    }
  }

  // ---------------------------------------------------------------- every step keeps the invariant

  lemma ReconcileKeeps(n: Node)
    requires Core(n) && Distinct(n.roster) && (n.state == Active || n.state == Full)
    requires n.peers.Keys !! {n.selfId} && (n.stream || n.peers == map[])
    ensures var n1 := Reconcile(n);
            && Core(n1) && Grown(n.recs, n1.recs) && KeysOk(n1) && n1.roster == n.roster
            && n1 == n.(state := n1.state, recs := n1.recs, peers := n1.peers)
            && n1.state == (if Waiting(n) then Full else Active)
  {
    if n.selfId !in Ids(InCall(n)) && n.selfId in Ids(n.roster) {
      DropKeeps(n.(state := Full), n.peers.Keys);
      assert n.peers - n.peers.Keys == map[];
    } else {
      var n0 := n.(state := Active);
      assert Core(n0);
      var n1 := DropPeers(n0, Obsolete(n));
      assert Obsolete(n0) == Obsolete(n);
      DropKeeps(n0, Obsolete(n));
      AddMissingKeeps(n1, InCall(n));
      GrownTransitive(n.recs, n1.recs, Reconcile(n).recs);
      if n.stream {
        AddMissingPeers(n1, InCall(n));
        assert n1.peers.Keys + (Ids(InCall(n)) - {n.selfId}) == Ids(InCall(n)) - {n.selfId};
      } else {
        assert n1.peers == map[];
        assert AddMissing(n1, InCall(n)) == n1;
      }
    }
  }

  lemma BeginAnswerKeeps(n: Node, rec: nat, sid: string)
    requires Core(n) && rec < |n.recs| && sid != ""
    requires !IsOfferer(n.selfId, n.recs[rec].id)
    requires n.recs[rec].remoteSid in {"", sid} && n.recs[rec].localSdp.None?
    ensures Core(BeginAnswer(n, rec, sid)) && Grown(n.recs, BeginAnswer(n, rec, sid).recs)
  {
    assert RecOk(n.selfId, n.sid, n.recs, rec);
    var p := n.recs[rec].(answering := true, answerTo := sid, remoteSid := sid, remoteOffer := true);
    if !n.recs[rec].answering {
      SetRecKeeps(n, rec, p);
    }
  }

  /** Replacing one connection, by `_onOffer` or after an ICE failure, keeps everybody connected. */
  lemma ReplaceKeeps(n: Node, id: Id, sid: string, restarts: nat, from: Option<nat>)
    requires NodeInv(n) && id in n.peers && restarts <= RESTART_LIMIT
    requires ChainOk(n.recs, id, restarts, from)
    ensures var n1 := AddPeer(DropPeers(n, {id}), id, sid, restarts, from);
            && NodeInv(n1) && Grown(n.recs, n1.recs) && n1 == n.(recs := n1.recs, peers := n1.peers)
            && n1.peers.Keys == n.peers.Keys
            && n1.peers[id] == |n.recs|
  {
    assert RecOk(n.selfId, n.sid, n.recs, n.peers[id]);
    var n0 := DropPeers(n, {id});
    DropKeeps(n, {id});
    assert from.Some? ==> Later(n.recs[from.value], n0.recs[from.value]);
    AddKeeps(n0, id, sid, restarts, from);
    var n1 := AddPeer(n0, id, sid, restarts, from);
    GrownTransitive(n.recs, n0.recs, n1.recs);
    assert n1.peers.Keys == n.peers.Keys;
  }

  lemma OnOfferKeeps(n: Node, msg: Msg)
    requires NodeInv(n) && n.state == Active && msg.Offer? && msg.sid != ""
    requires msg.from != n.selfId
    ensures var n1 := OnOffer(n, msg);
            NodeInv(n1) && Grown(n.recs, n1.recs) && n1 == n.(recs := n1.recs, peers := n1.peers, sent := n1.sent)
  {
    if !IsOfferer(n.selfId, msg.from) && msg.from in Ids(InCall(n)) && n.selfId in Ids(InCall(n)) && n.stream {
      assert msg.from in n.peers;
      var k := n.peers[msg.from];
      assert RecOk(n.selfId, n.sid, n.recs, k);
      hide Core, Grown, InCall, Ids, SidOf;
      if n.recs[k].remoteSid == msg.sid && n.recs[k].localSdp.Some? {
        SendAnswerKeeps(n, k, msg.sid);
      } else if n.recs[k].remoteSid in {"", msg.sid} {
        BeginAnswerKeeps(n, k, msg.sid);
      } else {
        OfferReplaces(n, msg.from, SidOf(InCall(n), msg.from), msg.sid);
      }
    }
  }

  /** An offer of another session drops the old connection and starts answering on a new one. */
  lemma OfferReplaces(n: Node, id: Id, sid: string, toSid: string)
    requires NodeInv(n) && id in n.peers && !IsOfferer(n.selfId, id) && toSid != ""
    ensures var n2 := AddPeer(DropPeers(n, {id}), id, sid, 0, None);
            var n3 := BeginAnswer(n2, |n.recs|, toSid);
            && n2.peers[id] == |n.recs|
            && NodeInv(n3) && Grown(n.recs, n3.recs) && n3 == n.(recs := n3.recs, peers := n3.peers, sent := n3.sent)
  {
    var n2 := AddPeer(DropPeers(n, {id}), id, sid, 0, None);
    var n3 := BeginAnswer(n2, |n.recs|, toSid);
    ReplaceKeeps(n, id, sid, 0, None);
    NewestRecord(DropPeers(n, {id}), id, sid);
    BeginAnswerFrame(n2, |n.recs|, toSid);
    hide AddPeer, DropPeers, RecsOk, LogOk, PeersValid, Grown, InCall, Ids, BeginAnswer;
    BeginAnswerKeeps(n2, |n.recs|, toSid);
    GrownTransitive(n.recs, n2.recs, n3.recs);
    RecsOnly(n2, n3);
  }

  lemma NewestRecord(n: Node, id: Id, sid: string)
    ensures var n1 := AddPeer(n, id, sid, 0, None);
            && |n1.recs| == |n.recs| + 1 && n1.recs[|n.recs|].id == id
            && n1.recs[|n.recs|].remoteSid == "" && n1.recs[|n.recs|].localSdp.None?
  {
  }

  lemma BeginAnswerFrame(n: Node, rec: nat, sid: string)
    ensures BeginAnswer(n, rec, sid) == n.(recs := BeginAnswer(n, rec, sid).recs)
  {
  }

  lemma RecsOnly(n: Node, n1: Node)
    requires NodeInv(n) && Core(n1) && n1 == n.(recs := n1.recs)
    ensures NodeInv(n1)
  {
    hide Core, Ids, Distinct;
  }

  lemma OnAnswerKeeps(n: Node, msg: Msg)
    requires NodeInv(n) && n.state == Active && msg.Answer? && msg.toSid in {"", n.sid}
    ensures var n1 := OnAnswer(n, msg);
            NodeInv(n1) && Grown(n.recs, n1.recs) && n1 == n.(recs := n1.recs)
  {
    var n1 := OnAnswer(n, msg);
    if n1 != n {
      var rec := n.peers[msg.from];
      assert RecOk(n.selfId, n.sid, n.recs, rec);
      SetRecKeeps(n, rec, n1.recs[rec]);
      assert n1 == SetRec(n, rec, n1.recs[rec]);
    }
  }

  predicate Rebuilds(n: Node, rec: nat) {
    n.state == Active && Current(n, rec) && n.recs[rec].restarts < RESTART_LIMIT
  }

  lemma RebuildKeeps(n: Node, rec: nat)
    requires NodeInv(n) && rec < |n.recs|
    ensures NodeInv(Rebuild(n, rec)) && Grown(n.recs, Rebuild(n, rec).recs)
  {
    if !Rebuilds(n, rec) {
      assert Rebuild(n, rec) == n;
    } else {
      RebuildNow(n, rec);
    }
  }

  lemma RebuildNow(n: Node, rec: nat)
    requires NodeInv(n) && Rebuilds(n, rec)
    ensures NodeInv(Rebuild(n, rec)) && Grown(n.recs, Rebuild(n, rec).recs)
  {
    hide Core, Admitted, Ids, Grown;
    ReplaceKeeps(n, n.recs[rec].id, SidOf(n.roster, n.recs[rec].id), n.recs[rec].restarts + 1, Some(rec));
  }

  lemma OfferMadeKeeps(n: Node, rec: nat, sdp: string)
    requires Core(n) && Enabled(n, OfferMade(rec, sdp))
    ensures var n1 := OfferMadeStep(n, rec, sdp);
            Core(n1) && Grown(n.recs, n1.recs)
  {
    assert RecOk(n.selfId, n.sid, n.recs, rec);
    var n0 := SetRec(n, rec, n.recs[rec].(making := false, localSdp := Some(sdp)));
    SetRecKeeps(n, rec, n0.recs[rec]);
    SendOfferKeeps(n0, rec);
    GrownTransitive(n.recs, n0.recs, SendOffer(n0, rec).recs);
  }

  lemma RetryKeeps(n: Node, rec: nat)
    requires Core(n) && Enabled(n, RetryFires(rec))
    ensures var n1 := RetryStep(n, rec);
            Core(n1) && Grown(n.recs, n1.recs)
  {
    assert RecOk(n.selfId, n.sid, n.recs, rec);
    var n0 := SetRec(n, rec, n.recs[rec].(retryArmed := false));
    SetRecKeeps(n, rec, n0.recs[rec]);
    SendOfferKeeps(n0, rec);
    GrownTransitive(n.recs, n0.recs, SendOffer(n0, rec).recs);
  }

  lemma AnswerMadeKeeps(n: Node, rec: nat, sdp: string)
    requires Core(n) && Enabled(n, AnswerMade(rec, sdp))
    ensures var n1 := AnswerMadeStep(n, rec, sdp);
            Core(n1) && Grown(n.recs, n1.recs)
  {
    assert RecOk(n.selfId, n.sid, n.recs, rec);
    var n0 := SetRec(n, rec, n.recs[rec].(localSdp := Some(sdp), answered := true));
    SetRecKeeps(n, rec, n0.recs[rec]);
    if Current(n, rec) {
      SendAnswerKeeps(n0, rec, n.recs[rec].answerTo);
    }
  }

  lemma OfferSentKeeps(n: Node, rec: nat, ok: bool)
    requires Core(n) && Enabled(n, OfferSent(rec, ok))
    ensures var n1 := Apply(n, OfferSent(rec, ok));
            Core(n1) && Grown(n.recs, n1.recs)
  {
    assert RecOk(n.selfId, n.sid, n.recs, rec);
    var p := n.recs[rec];
    SetRecKeeps(n, rec, p.(sending := false, retryArmed := ok && p.tries < MAX_OFFER_TRIES));
  }

  lemma AnswerAppliedKeeps(n: Node, rec: nat, ok: bool)
    requires Core(n) && Enabled(n, AnswerApplied(rec, ok))
    ensures var n1 := Apply(n, AnswerApplied(rec, ok));
            Core(n1) && Grown(n.recs, n1.recs)
  {
    assert RecOk(n.selfId, n.sid, n.recs, rec);
    var p := n.recs[rec];
    SetRecKeeps(n, rec, if ok then p.(applying := false) else p.(applying := false, answered := false, accepted := None));
  }

  lemma StopsWaiting(n: Node, rec: nat, p: Peer)
    requires Core(n) && rec < |n.recs| && p in {n.recs[rec].(making := false), n.recs[rec].(answering := false)}
    ensures Core(SetRec(n, rec, p)) && Grown(n.recs, SetRec(n, rec, p).recs)
  {
    assert RecOk(n.selfId, n.sid, n.recs, rec);
    SetRecKeeps(n, rec, p);
  }

  /** Every step of the program keeps the invariant, and only ever adds to what a record decided. */
  lemma ApplyKeeps(n: Node, e: Event)
    requires NodeInv(n) && Enabled(n, e)
    ensures NodeInv(Apply(n, e)) && Grown(n.recs, Apply(n, e).recs)
  {
    if e.StartJoin? || e.MicOpened? || e.MicFailed? || e.IceReady? || e.IceUnavailable? || e.SetRoster? || e.Leave? {
      LocalEventKeeps(n, e);
    } else if e.Deliver? {
      hide Core, InCall, Grown, OnOffer, OnAnswer;
      CoreFrame(n, n);
      if HandleSignal(n, e.msg) != n {
        if e.msg.Offer? { OnOfferKeeps(n, e.msg); } else { OnAnswerKeeps(n, e.msg); }
      }
    } else if e.ConnectionFailed? {
      RebuildKeeps(n, e.rec);
    } else {
      hide RecsOk, LogOk, PeersValid, InCall, Ids, Grown;
      RecordEventKeeps(n, e);
      assert KeysOk(Apply(n, e));
    }
  }

  lemma CoreFrame(n: Node, n1: Node)
    requires Core(n) && n1.recs == n.recs && n1.peers == n.peers && n1.sent == n.sent
    requires n1.selfId == n.selfId && n1.sid == n.sid
    ensures Core(n1) && Grown(n.recs, n1.recs)
  {
    forall j | 0 <= j < |n1.sent| ensures SentOk(n1, n1.sent[j]) {
      assert SentOk(n, n.sent[j]);
    }
  }

  lemma LocalEventKeeps(n: Node, e: Event)
    requires NodeInv(n) && Enabled(n, e)
    requires e.StartJoin? || e.MicOpened? || e.MicFailed? || e.IceReady? || e.IceUnavailable? || e.SetRoster? || e.Leave?
    ensures NodeInv(Apply(n, e)) && Grown(n.recs, Apply(n, e).recs)
  {
    hide RecsOk, LogOk, PeersValid, Grown;
    CoreFrame(n, n);
    if e.StartJoin? || e.MicOpened? || e.MicFailed? || e.IceUnavailable? {
      CoreFrame(n, Apply(n, e));
    } else if e.SetRoster? {
      var n0 := n.(roster := e.list);
      CoreFrame(n, n0);
      if n.state == Active || n.state == Full {
        ReconcileKeeps(n0);
      }
    } else if e.IceReady? {
      var n0 := n.(state := Active, joining := NoJoin);
      CoreFrame(n, n0);
      ReconcileKeeps(n0);
    } else {
      var n0 := n.(state := Ended, stream := false);
      CoreFrame(n, n0);
      DropKeeps(n0, n.peers.Keys);
      assert n.peers - n.peers.Keys == map[];
    }
  }

  predicate OfRecord(e: Event) {
    e.OfferMade? || e.OfferFailed? || e.OfferSent? || e.RetryFires? || e.AnswerMade? || e.AnswerFailed?
    || e.AnswerDone? || e.AnswerApplied?
  }

  /** The events of one record leave the rest of the node alone. */
  lemma RecordEventKeeps(n: Node, e: Event)
    requires Core(n) && Enabled(n, e)
    requires OfRecord(e)
    ensures var n1 := Apply(n, e);
            Core(n1) && Grown(n.recs, n1.recs) && n1 == n.(recs := n1.recs, sent := n1.sent)
  {
    hide Core, Grown;
    match e
    case OfferMade(rec, sdp) => OfferMadeKeeps(n, rec, sdp);
    case RetryFires(rec) => RetryKeeps(n, rec);
    case AnswerMade(rec, sdp) => AnswerMadeKeeps(n, rec, sdp);
    case OfferSent(rec, ok) => OfferSentKeeps(n, rec, ok);
    case AnswerApplied(rec, ok) => AnswerAppliedKeeps(n, rec, ok);
    case OfferFailed(rec) => StopsWaiting(n, rec, n.recs[rec].(making := false));
    case AnswerFailed(rec) => StopsWaiting(n, rec, n.recs[rec].(answering := false));
    case AnswerDone(rec) => StopsWaiting(n, rec, n.recs[rec].(answering := false));
  }

  // ---------------------------------------------------------------- runs

  ghost predicate Legal(n: Node, es: seq<Event>)
    decreases |es|
  {
    es == [] || (Enabled(n, es[0]) && Legal(Apply(n, es[0]), es[1..]))
  }

  function After(n: Node, es: seq<Event>): Node
    requires Legal(n, es)
    decreases |es|
  {
    if es == [] then n else After(Apply(n, es[0]), es[1..])
  }

  lemma FreshOk(selfId: Id, sid: string, max: nat)
    ensures NodeInv(Fresh(selfId, sid, max))
  {
    assert InOrder([]) == [];
    assert Ids([]) == {};
  }

  lemma {:induction false} RunKeeps(n: Node, es: seq<Event>)
    requires NodeInv(n) && Legal(n, es)
    ensures NodeInv(After(n, es)) && Grown(n.recs, After(n, es).recs)
    decreases |es|
  {
    if es != [] {
      ApplyKeeps(n, es[0]);
      RunKeeps(Apply(n, es[0]), es[1..]);
      GrownTransitive(n.recs, Apply(n, es[0]).recs, After(n, es).recs);
    }
  }

  /** `leave()` is only called once `join()` has settled. */
  ghost predicate LeavesSettled(n: Node, es: seq<Event>)
    requires Legal(n, es)
    decreases |es|
  {
    es == [] || ((es[0].Leave? ==> n.joining == NoJoin) && LeavesSettled(Apply(n, es[0]), es[1..]))
  }

  predicate MicHeld(n: Node) {
    && (n.state == Active || n.state == Full || n.joining == ForIce ==> n.stream)
    && (n.joining != NoJoin ==> n.state == Joining)
  }

  lemma {:induction false} MicHeldRun(n: Node, es: seq<Event>)
    requires NodeInv(n) && MicHeld(n) && Legal(n, es) && LeavesSettled(n, es)
    ensures MicHeld(After(n, es))
    decreases |es|
  {
    if es != [] {
      ApplyKeeps(n, es[0]);
      assert MicHeld(Apply(n, es[0])) by {
        MicHeldStep(n, es[0]);
      }
      MicHeldRun(Apply(n, es[0]), es[1..]);
    }
  }

  lemma ReconcileFields(n: Node)
    ensures var n1 := Reconcile(n);
            && n1.stream == n.stream && n1.joining == n.joining && n1.sent == n.sent && n1.roster == n.roster
            && n1.max == n.max && n1.selfId == n.selfId && n1.sid == n.sid && n1.state == if Waiting(n) then Full else Active
  {
    var n0 := DropPeers(n.(state := Active), Obsolete(n));
    AddMissingFields(n0, InCall(n));
  }

  lemma {:induction false} AddMissingFields(n: Node, want: seq<Member>)
    ensures var n1 := AddMissing(n, want);
            n1 == n.(recs := n1.recs, peers := n1.peers)
    decreases |want|
  {
    if want != [] && n.stream {
      if want[0].id == n.selfId || want[0].id in n.peers {
        AddMissingFields(n, want[1..]);
      } else {
        AddMissingFields(AddPeer(n, want[0].id, want[0].sid, 0, None), want[1..]);
      }
    }
  }

  lemma MicHeldStep(n: Node, e: Event)
    requires MicHeld(n) && Enabled(n, e) && (e.Leave? ==> n.joining == NoJoin)
    ensures MicHeld(Apply(n, e))
  {
    if e.SetRoster? {
      ReconcileFields(n.(roster := e.list));
    } else if e.IceReady? {
      ReconcileFields(n.(state := Active, joining := NoJoin));
    }
  }

  /** In every reachable state an active participant that holds the microphone is connected to exactly
      the admitted others, and anybody else to nobody.  It can be active without the microphone only if
      `leave()` was called while `join()` was pending. */
  lemma ConnectedToAdmitted(selfId: Id, sid: string, max: nat, es: seq<Event>)
    requires Legal(Fresh(selfId, sid, max), es)
    ensures var n := After(Fresh(selfId, sid, max), es);
            && n.peers.Keys == (if n.state == Active && n.stream then Ids(Admitted(n.roster, n.max)) - {n.selfId} else {})
            && |n.peers| <= n.max
            && (n.selfId in Ids(n.roster) && 0 < n.max ==> |n.peers| <= n.max - 1)
    ensures LeavesSettled(Fresh(selfId, sid, max), es) && After(Fresh(selfId, sid, max), es).state == Active
            ==> After(Fresh(selfId, sid, max), es).stream
  {
    var n0 := Fresh(selfId, sid, max);
    FreshOk(selfId, sid, max);
    RunKeeps(n0, es);
    if LeavesSettled(n0, es) {
      MicHeldRun(n0, es);
    }
    PeerBound(After(n0, es));
  }

  /** And then it can be, connected to nobody. */
  lemma ActiveWithoutMic(selfId: Id, sid: string, max: nat)
    ensures var n := Fresh(selfId, sid, max);
            var es := [StartJoin, MicOpened, Leave, IceReady];
            Legal(n, es) && After(n, es).state == Active && !After(n, es).stream && After(n, es).peers == map[]
  {
    var n := Fresh(selfId, sid, max);
    var n2 := Apply(Apply(n, StartJoin), MicOpened);
    var n3 := Apply(n2, Leave);
    assert n3.joining == ForIce && !n3.stream && n3.peers == map[] && n3.roster == [];
    ReconcileFields(n3.(state := Active, joining := NoJoin));
    FreshOk(selfId, sid, max);
    assert !Waiting(n3) by { assert Ids([]) == {}; }
    var all := [StartJoin, MicOpened, Leave, IceReady];
    assert all[1..] == [MicOpened, Leave, IceReady] && all[1..][1..] == [Leave, IceReady] && all[1..][1..][1..] == [IceReady];
    RunOfOne(n3, IceReady);
    assert After(n2, [Leave, IceReady]) == Apply(n3, IceReady) by { hide Apply; }
    hide Reconcile;
  }

  lemma PeerBound(n: Node)
    requires NodeInv(n)
    ensures |n.peers| <= n.max
    ensures n.selfId in Ids(n.roster) && 0 < n.max ==> |n.peers| <= n.max - 1
  {
    hide Core;
    if n.state == Active && n.stream {
      IdsBound(InCall(n));
      assert |n.peers| == |n.peers.Keys|;
      if n.selfId in Ids(n.roster) {
        assert n.selfId in Ids(InCall(n));
        assert |Ids(InCall(n)) - {n.selfId}| == |Ids(InCall(n))| - 1;
      } else {
        SubsetSize(n.peers.Keys, Ids(InCall(n)));
      }
    }
  }

  /** How many connections an active participant on the roster has, exactly. */
  lemma PeerCount(n: Node)
    requires NodeInv(n) && n.state == Active && n.stream && n.selfId in Ids(n.roster)
    ensures |n.peers| == (if |n.roster| <= n.max then |n.roster| else n.max) - 1
  {
    hide Core;
    InOrderMultiset(n.roster);
    DistinctPermutation(n.roster, InOrder(n.roster));
    IdsSize(InCall(n));
    assert |n.peers| == |n.peers.Keys|;
    assert n.selfId in Ids(InCall(n));
    assert |Ids(InCall(n)) - {n.selfId}| == |Ids(InCall(n))| - 1;
  }

  lemma {:induction false} IdsBound(r: seq<Member>)
    ensures |Ids(r)| <= |r|
  {
    if r == [] {
      assert Ids(r) == {};
    } else {
      IdsBound(r[1..]);
      IdsHead(r);
    }
  }

  lemma {:induction false} SubsetSize(a: set<Id>, b: set<Id>)
    requires a <= b
    ensures |a| <= |b|
  {
    if a != {} {
      var x :| x in a;
      SubsetSize(a - {x}, b - {x});
    }
  }

  /** Once ended, always ended and silent - exactly when no `join()` is pending: a pending one
      overwrites the state when it resumes. */
  lemma EndedIsFinal(n: Node)
    requires NodeInv(n) && n.state == Ended
    ensures (forall es :: Legal(n, es) ==> After(n, es).state == Ended) <==> n.joining == NoJoin
    ensures n.joining == NoJoin ==> forall es :: Legal(n, es) ==> After(n, es).sent == n.sent
  {
    if n.joining == NoJoin {
      forall es | Legal(n, es) ensures After(n, es).state == Ended && After(n, es).sent == n.sent {
        EndedStays(n, es);
      }
    } else {
      var es := PendingJoinWakes(n);
      assert !(Legal(n, es) ==> After(n, es).state == Ended);
    }
  }

  /** Leaving before the microphone is granted reaches such a state, and the grant wakes the call. */
  lemma LeftWhileJoining(selfId: Id, sid: string, max: nat) returns (es: seq<Event>)
    ensures var n := Fresh(selfId, sid, max);
            && Legal(n, [StartJoin, Leave]) && After(n, [StartJoin, Leave]).state == Ended
            && Legal(n, [StartJoin, Leave] + es) && After(n, [StartJoin, Leave] + es).state != Ended
  {
    var n := Fresh(selfId, sid, max);
    var n1 := Apply(n, StartJoin);
    var n2 := Apply(n1, Leave);
    assert n2.state == Ended && n2.joining == ForMic;
    assert [StartJoin, Leave][1..] == [Leave] && [Leave][1..] == [];
    assert Legal(n2, []) && Legal(n1, [Leave]);
    assert After(n, [StartJoin, Leave]) == After(n1, [Leave]) == After(n2, []) == n2;
    es := PendingJoinWakes(n2);
    hide Apply;
    var all := [StartJoin, Leave] + es;
    assert all[0] == StartJoin && all[1..] == [Leave] + es && ([Leave] + es)[1..] == es;
    assert Legal(n1, [Leave] + es) && After(n1, [Leave] + es) == After(n2, es);
  }

  lemma PendingJoinWakes(n: Node) returns (es: seq<Event>)
    requires n.joining != NoJoin
    ensures Legal(n, es) && After(n, es).state != Ended
  {
    if n.joining == ForIce {
      JoinWakes(n);
      RunOfOne(n, IceReady);
      es := [IceReady];
    } else {
      var n1 := Apply(n, MicOpened);
      JoinWakes(n1);
      RunOfOne(n1, IceReady);
      es := [MicOpened] + [IceReady];
      assert es[0] == MicOpened && es[1..] == [IceReady];
      assert Legal(n, es) && After(n, es) == Apply(n1, IceReady);
    }
  }

  lemma RunOfOne(n: Node, e: Event)
    requires Enabled(n, e)
    ensures Legal(n, [e]) && After(n, [e]) == Apply(n, e)
  {
    assert [e][1..] == [];
    assert Legal(Apply(n, e), [e][1..]);
  }

  lemma JoinWakes(n: Node)
    requires n.joining == ForIce
    ensures Apply(n, IceReady).state in {Active, Full}
  {
    var n0 := n.(state := Active, joining := NoJoin);
    AddMissingFields(DropPeers(n0, Obsolete(n0)), InCall(n0));
  }

  lemma {:induction false} EndedStays(n: Node, es: seq<Event>)
    requires NodeInv(n) && n.state == Ended && n.joining == NoJoin && Legal(n, es)
    ensures After(n, es).state == Ended && After(n, es).sent == n.sent && After(n, es).peers == map[]
    decreases |es|
  {
    if es != [] {
      ApplyKeeps(n, es[0]);
      EndedStep(n, es[0]);
      hide Apply, Core;
      EndedStays(Apply(n, es[0]), es[1..]);
    }
  }

  lemma EndedStep(n: Node, e: Event)
    requires NodeInv(n) && n.state == Ended && n.joining == NoJoin && Enabled(n, e)
    ensures Apply(n, e).state == Ended && Apply(n, e).joining == NoJoin && Apply(n, e).sent == n.sent
  {
    assert n.peers == map[];
    if OfRecord(e) {
      AloneIsSilent(n, e);
    } else {
      hide Core, KeysOk, InCall, Ids, Reconcile, SidOf, OfferMadeStep, RetryStep, AnswerMadeStep;
    }
  }

  /** Without a current connection nothing is sent. */
  lemma AloneIsSilent(n: Node, e: Event)
    requires n.peers == map[] && Enabled(n, e) && OfRecord(e)
    ensures var n1 := Apply(n, e);
            n1.state == n.state && n1.joining == n.joining && n1.sent == n.sent
  {
    assert !Current(n, e.rec);
  }

  // ------------------------------------------------ what a record says

  /** The messages one record has sent, in order. */
  function Spoken(sent: seq<Envelope>, rec: nat): seq<Msg> {
    if sent == [] then []
    else
      var last := sent[|sent| - 1];
      Spoken(sent[..|sent| - 1], rec) + if last.rec == rec then [last.msg] else []
  }

  lemma SpokenPush(sent: seq<Envelope>, e: Envelope, rec: nat)
    requires e.rec != rec
    ensures Spoken(sent + [e], rec) == Spoken(sent, rec)
  {
    assert (sent + [e])[..|sent|] == sent;
  }

  /** A record that is not the current one of its peer never becomes it again and sends nothing. */
  lemma SilentStep(n: Node, e: Event, rec: nat)
    requires PeersValid(n) && Enabled(n, e) && rec < |n.recs| && !Current(n, rec)
    ensures var n1 := Apply(n, e);
            && rec < |n1.recs| && n1.recs[rec].id == n.recs[rec].id && !Current(n1, rec)
            && Spoken(n1.sent, rec) == Spoken(n.sent, rec)
  {
    if e.SetRoster? {
      SilentReconcile(n.(roster := e.list), rec);
    } else if e.IceReady? {
      SilentReconcile(n.(state := Active, joining := NoJoin), rec);
    } else if e.Deliver? {
      SilentDeliver(n, e.msg, rec);
    } else {
      SilentOther(n, e, rec);
    }
  }

  lemma SilentOther(n: Node, e: Event, rec: nat)
    requires Enabled(n, e) && rec < |n.recs| && !Current(n, rec)
    requires !e.SetRoster? && !e.IceReady? && !e.Deliver?
    ensures var n1 := Apply(n, e);
            && rec < |n1.recs| && n1.recs[rec].id == n.recs[rec].id && !Current(n1, rec)
            && Spoken(n1.sent, rec) == Spoken(n.sent, rec)
  {
    hide Spoken, InCall, Ids, Reconcile, HandleSignal;
    if e.ConnectionFailed? {
      SilentRebuild(n, e.rec, rec);
    } else if OfRecord(e) {
      SilentRecord(n, e, rec);
    }
  }

  lemma SilentRebuild(n: Node, failed: nat, rec: nat)
    requires failed < |n.recs| && rec < |n.recs| && !Current(n, rec)
    ensures var n1 := Rebuild(n, failed);
            rec < |n1.recs| && n1.recs[rec].id == n.recs[rec].id && !Current(n1, rec) && n1.sent == n.sent
  {
  }

  lemma SilentRecord(n: Node, e: Event, rec: nat)
    requires Enabled(n, e) && OfRecord(e) && rec < |n.recs| && !Current(n, rec)
    ensures var n1 := Apply(n, e);
            && rec < |n1.recs| && n1.recs[rec].id == n.recs[rec].id && !Current(n1, rec)
            && Spoken(n1.sent, rec) == Spoken(n.sent, rec)
  {
    hide Spoken, OfferMadeStep, RetryStep, AnswerMadeStep;
    if e.OfferMade? {
      SilentOfferMade(n, e.rec, e.sdp, rec);
    } else if e.RetryFires? {
      SilentRetry(n, e.rec, rec);
    } else if e.AnswerMade? {
      SilentAnswering(n, e.rec, e.sdp, rec);
    }
  }

  lemma SilentOfferMade(n: Node, from: nat, sdp: string, rec: nat)
    requires from < |n.recs| && rec < |n.recs| && !Current(n, rec)
    ensures var n1 := OfferMadeStep(n, from, sdp);
            && rec < |n1.recs| && n1.recs[rec].id == n.recs[rec].id && !Current(n1, rec)
            && Spoken(n1.sent, rec) == Spoken(n.sent, rec)
  {
    hide Spoken, SendOffer;
    SilentOfferSend(SetRec(n, from, n.recs[from].(making := false, localSdp := Some(sdp))), from, rec);
  }

  lemma SilentRetry(n: Node, from: nat, rec: nat)
    requires from < |n.recs| && rec < |n.recs| && !Current(n, rec)
    ensures var n1 := RetryStep(n, from);
            && rec < |n1.recs| && n1.recs[rec].id == n.recs[rec].id && !Current(n1, rec)
            && Spoken(n1.sent, rec) == Spoken(n.sent, rec)
  {
    hide Spoken, SendOffer;
    if n.recs[from].localSdp.Some? {
      SilentOfferSend(SetRec(n, from, n.recs[from].(retryArmed := false)), from, rec);
    }
  }

  lemma SilentAnswering(n: Node, from: nat, sdp: string, rec: nat)
    requires from < |n.recs| && rec < |n.recs| && !Current(n, rec)
    ensures var n1 := AnswerMadeStep(n, from, sdp);
            && rec < |n1.recs| && n1.recs[rec].id == n.recs[rec].id && !Current(n1, rec)
            && Spoken(n1.sent, rec) == Spoken(n.sent, rec)
  {
    hide Spoken;
    SilentSend(n, AnswerMadeStep(n, from, sdp), rec);
  }

  lemma SilentOfferSend(n: Node, from: nat, rec: nat)
    requires from < |n.recs| && n.recs[from].localSdp.Some? && rec < |n.recs| && !Current(n, rec)
    ensures var n1 := SendOffer(n, from);
            && rec < |n1.recs| && n1.recs[rec].id == n.recs[rec].id && !Current(n1, rec)
            && Spoken(n1.sent, rec) == Spoken(n.sent, rec)
  {
    hide Spoken;
    SilentSend(n, SendOffer(n, from), rec);
  }

  lemma SilentDeliver(n: Node, msg: Msg, rec: nat)
    requires PeersValid(n) && rec < |n.recs| && !Current(n, rec)
    ensures var n1 := HandleSignal(n, msg);
            && rec < |n1.recs| && n1.recs[rec].id == n.recs[rec].id && !Current(n1, rec)
            && Spoken(n1.sent, rec) == Spoken(n.sent, rec)
  {
    hide Spoken, InCall, Ids, SidOf, OnAnswer, OnOffer;
    if HandleSignal(n, msg) == n {
    } else if msg.Offer? {
      SilentOffer(n, msg, rec);
    } else {
      SilentAnswer(n, msg, rec);
    }
  }

  lemma SilentOffer(n: Node, msg: Msg, rec: nat)
    requires msg.Offer? && PeersValid(n) && rec < |n.recs| && !Current(n, rec)
    ensures var n1 := OnOffer(n, msg);
            && rec < |n1.recs| && n1.recs[rec].id == n.recs[rec].id && !Current(n1, rec)
            && Spoken(n1.sent, rec) == Spoken(n.sent, rec)
  {
    hide Spoken, InCall, Ids, SidOf, DropPeers;
    SilentReplace(n, msg.from, SidOf(InCall(n), msg.from), rec);
    if msg.from in n.peers && n.recs[n.peers[msg.from]].localSdp.Some? {
      SilentSend(n, SendAnswer(n, n.peers[msg.from], msg.sid), rec);
    }
  }

  lemma SilentReplace(n: Node, id: Id, sid: string, rec: nat)
    requires rec < |n.recs| && !Current(n, rec)
    ensures var n1 := DropPeers(n, {id});
            && |n1.recs| == |n.recs| && n1.recs[rec].id == n.recs[rec].id && !Current(n1, rec)
            && n1.sent == n.sent && id !in n1.peers
    ensures var n2 := AddPeer(DropPeers(n, {id}), id, sid, 0, None);
            && rec < |n2.recs| && n2.recs[rec].id == n.recs[rec].id && !Current(n2, rec)
  {
  }

  lemma SilentAnswer(n: Node, msg: Msg, rec: nat)
    requires msg.Answer? && rec < |n.recs| && !Current(n, rec)
    ensures var n1 := OnAnswer(n, msg);
            && rec < |n1.recs| && n1.recs[rec].id == n.recs[rec].id && !Current(n1, rec) && n1.sent == n.sent
  {
  }

  lemma SilentSend(n: Node, n1: Node, rec: nat)
    requires n1.sent == n.sent || (|n1.sent| == |n.sent| + 1 && n1.sent[..|n.sent|] == n.sent && n1.sent[|n.sent|].rec != rec)
    ensures Spoken(n1.sent, rec) == Spoken(n.sent, rec)
  {
    if n1.sent != n.sent {
      assert n1.sent == n.sent + [n1.sent[|n.sent|]];
      SpokenPush(n.sent, n1.sent[|n.sent|], rec);
    }
  }

  lemma SilentReconcile(n: Node, rec: nat)
    requires PeersValid(n) && rec < |n.recs| && !Current(n, rec)
    ensures var n1 := Reconcile(n);
            rec < |n1.recs| && n1.recs[rec].id == n.recs[rec].id && !Current(n1, rec) && n1.sent == n.sent
  {
    ReconcileFields(n);
    var n0 := DropPeers(n.(state := Active), Obsolete(n));
    assert !Current(n0, rec);
    if !Waiting(n) {
      SilentAdd(n0, InCall(n), rec);
    }
  }

  lemma {:induction false} SilentAdd(n: Node, want: seq<Member>, rec: nat)
    requires rec < |n.recs| && !Current(n, rec)
    ensures var n1 := AddMissing(n, want);
            rec < |n1.recs| && n1.recs[rec].id == n.recs[rec].id && !Current(n1, rec)
    decreases |want|
  {
    if want != [] && n.stream {
      if want[0].id == n.selfId || want[0].id in n.peers {
        SilentAdd(n, want[1..], rec);
      } else {
        SilentAdd(AddPeer(n, want[0].id, want[0].sid, 0, None), want[1..], rec);
      }
    }
  }

  /** A record dropped or replaced, whatever it still waits for, never sends anything afterwards. */
  lemma {:induction false} DroppedIsSilent(n: Node, es: seq<Event>, rec: nat)
    requires NodeInv(n) && Legal(n, es) && rec < |n.recs| && !Current(n, rec)
    ensures rec < |After(n, es).recs| && !Current(After(n, es), rec)
    ensures Spoken(After(n, es).sent, rec) == Spoken(n.sent, rec)
    decreases |es|
  {
    if es != [] {
      hide Apply, Core, Current, Spoken;
      ApplyKeeps(n, es[0]);
      SilentStep(n, es[0], rec);
      DroppedIsSilent(Apply(n, es[0]), es[1..], rec);
    }
  }

  /** Everything one record says in a run: at most four offers or else only answers, all with one and
      the same description, all to its one peer, all answers to the same session. */
  lemma OneVoice(selfId: Id, sid: string, max: nat, es: seq<Event>, j: nat, k: nat)
    requires Legal(Fresh(selfId, sid, max), es)
    requires var n := After(Fresh(selfId, sid, max), es);
             j < |n.sent| && k < |n.sent| && n.sent[j].rec == n.sent[k].rec
    ensures var n := After(Fresh(selfId, sid, max), es);
            var (a, b) := (n.sent[j].msg, n.sent[k].msg);
            && a.sdp == b.sdp && a.to == b.to && a.Offer? == b.Offer?
            && (a.Answer? ==> a.toSid == b.toSid)
            && OfferCount(n.sent, n.sent[j].rec) <= MAX_OFFER_TRIES
  {
    FreshOk(selfId, sid, max);
    RunKeeps(Fresh(selfId, sid, max), es);
    var n := After(Fresh(selfId, sid, max), es);
    assert SentOk(n, n.sent[j]) && SentOk(n, n.sent[k]);
    assert RecOk(n.selfId, n.sid, n.recs, n.sent[j].rec);
  }

  function AnswersMade(es: seq<Event>, rec: nat): nat {
    if es == [] then 0 else (if es[0].AnswerMade? && es[0].rec == rec then 1 else 0) + AnswersMade(es[1..], rec)
  }

  /** A record completes at most one answer, however many offers arrive. */
  lemma {:induction false} OneAnswer(n: Node, es: seq<Event>, rec: nat)
    requires NodeInv(n) && Legal(n, es)
    ensures AnswersMade(es, rec) <= 1
    ensures rec < |n.recs| && n.recs[rec].localSdp.Some? ==> AnswersMade(es, rec) == 0
    decreases |es|
  {
    if es != [] {
      ApplyKeeps(n, es[0]);
      OneAnswer(Apply(n, es[0]), es[1..], rec);
      if es[0].AnswerMade? && es[0].rec == rec {
        assert Apply(n, es[0]).recs[rec].localSdp.Some?;
      } else if rec < |n.recs| {
        assert Later(n.recs[rec], Apply(n, es[0]).recs[rec]);
      }
    }
  }

  /** How often the connection behind a record had been rebuilt before. */
  function RebuildsBefore(recs: seq<Peer>, k: nat): nat
    requires k < |recs|
  {
    match recs[k].rebuiltFrom
    case None => 0
    case Some(j) => if j < k then 1 + RebuildsBefore(recs, j) else 0
  }

  /** Rebuild chains stay within the limit. */
  lemma {:induction false} RebuildChain(n: Node, k: nat)
    requires RecsOk(n) && k < |n.recs|
    ensures RebuildsBefore(n.recs, k) == n.recs[k].restarts <= RESTART_LIMIT
  {
    assert RecOk(n.selfId, n.sid, n.recs, k);
    if n.recs[k].rebuiltFrom.Some? {
      RebuildChain(n, n.recs[k].rebuiltFrom.value);
    }
  }
}
