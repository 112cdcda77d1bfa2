# Velta: models and proofs

This project models the parts of Velta whose correctness rests on protocols, clocks and interleavings rather than on one function body, and proves what they promise.

* **Group calls.** `Roster` is the order and the admission cap, `GroupCall` one participant as a state machine whose steps are the stretches of code between two awaits, `GroupCallSteps` what each step does, exactly, `GroupCallObject` the same participant as an object updated in place, `GroupCallMesh` any number of sessions on a network that loses, repeats and reorders messages, `GroupCallStale` the answers that come too early, `GroupCallSignal` the roster, de-duplication and routing of the signalling layer, `GroupCallSignalRuns` what each message does and which session is listed, `GroupCallHost` a whole session with both halves, `GroupCallNet` any number of whole sessions.
* **Core watchdog.** `Watchdog`: the reducer, its driver, and what whole runs of it can and cannot do; `WatchdogRuns`: from which state it goes where, and that an unanswered ping is noticed and ends in a restart.
* **Sending over SMTP.** `Smtp` chooses the transport (pin, backoff, paused relays, strict mode), `SmtpRuns` speaks about runs with rejections, lost connections and restarts, `SmtpObject` is the object with its loops.
* **Config cache.** `ConfigCache`: readers, uncaching writers and setters as interleaved steps over database, cache, generation counter and locks.
* **IO scheduler.** `Scheduler`: start, stop, pause and resume under a write lock, interrupts that never wait for it.
* **Patch quilt.** `Quilt` (searching, one patch, the patches of one file) and `QuiltTree` (apply, verify, lint and tree-check over a tree).
* **Identity tile and binary walkers.** `Palette` and `Avatar` (colours and tile), `Packets` (OpenPGP packets), `Xdc` (zip directory), both over the bytes of `Binary`. `Options` and `Numbers` are shared by all.
* **Text and paging.** `BareLinks` (the scan) and `BareLinkForm` (what a link is), `Chips`, `Paging`.

Where the source updates state in place there is a class or a method with loops, tied by its `ensures` to a function; the lemmas are about these functions and about runs of them. Time is in milliseconds. What the outside decides (network, clock, microphone, whether a database write or a scheduler start succeeds) is an argument of the step it decides.

`dafny verify dfyconfig.toml` checks everything.

## Where the code does not do what it says

Each is stated by lemmas: the exact condition under which the code keeps its promise, or for the config cache and the zip directory a sufficient one, and in most cases a concrete run or input that breaks it.

* `leave()` while `join()` is pending is overwritten when `join` resumes, so an ended call wakes up again (`GroupCall.EndedIsFinal`: final exactly when no join is pending; `GroupCall.LeftWhileJoining` is such a run).
* An answer does not say which connection it answers. A connection that is still preparing its offer can take one exactly when an earlier connection of its session to that peer has offered (`GroupCallStale.CanTakeExactlyWhen`, over all runs), and its offer is then never sent unless the browser turns that answer down first (`GroupCallStale.EarlyAnswerSilencesOffer`, over all continuations, and `GroupCallStale.OfferAfterSettling`). `GroupCallStale.StaleAnswerHappens` is a run of two sessions in which it happens, and `GroupCallHost.StaleCopyComesThrough` a run in which the two copies come over the two transports. In whole sessions, whose signalling drops repeated messages, the exact condition is that an earlier connection has offered and the signalling still lets an answer of that peer session through (`GroupCallNet.CanTakeExactlyWhen`).
* A failed connection is rebuilt up to three times, but answers are not numbered, so the signalling layer hands the call only the first answer of a peer session per transport (`GroupCallHost.HeardAtMostTwice`; `GroupCallHost.TakenExactlyWhen`). Once two have been heard, no connection set up or rebuilt afterwards is ever answered by that session (`GroupCallHost.AfterTwoAnswers`, over all runs). The offers of a rebuilt connection are numbered from 1 again and meet the same fate.
* A signal that arrives before joining, or from a session taken for stale, uses up its key: later copies over that transport are dropped too (`GroupCallSignal.FirstCopyDecides`). A member's own join can lower its own join time, which nothing else does (`GroupCallSignal.JoinTimeNeverDecreases`: exactly when it joins at an instant before the one it is listed with; `GroupCallSignal.OwnJoinCanGoBack` is a run).
* The comment at app/js/group-call-signal.js:149-150 sends answers to retried offers over status updates. The code looks at the transport the last offer came by instead (`GroupCallSignal.AnswerTravels`), so a retry whose realtime copy comes in last is answered by realtime only (`GroupCallSignal.RetryAnsweredByRealtimeOnly`).
* The comment on the pin backoff says it bounds the cost of a dead pin to one connect timeout per window. A restart after a mere connect failure forgets it, because only rejected messages leave a row (`SmtpRuns.RestartForgets`, `SmtpRuns.RestartBreaksTheBound`). A failing call has tried every eligible transport exactly when no eligible one has unusable parameters, which would end the loop early (`Smtp.FailureIsThorough`).
* "Only send via the pinned relay" holds exactly while the pin names a listed relay that is not paused (`Smtp.StrictExactlyWhen`); with the pin paused, mail leaves over another relay (`Smtp.PausedPinSendsElsewhere`).
* The config cache can keep a stale value in three windows around a setter (`ConfigCache.EveryWindowMatters`: each of them, for every key and every two values of it, from every settled state, leaves one in the cache and the other in the database); outside them it agrees with the database (`ConfigCache.CacheAgrees`).
* A resume whose start fails leaves the scheduler paused by a guard that no longer exists, for good (`Scheduler.BalanceKeptExactlyWhen`, `Scheduler.FailedResumeWedges`; `Scheduler.FailedResumeHappens` is a run). Location and recently-seen wakes raise the pending flag but no start passes them on (`Scheduler.DeliveryCovers`, `Scheduler.SomeWakesAreDropped`).
* A second apply of the quilt changes nothing exactly when the patched texts read back as they are and hold all their markers (`QuiltTree.SecondApplyIdlesExactlyWhen`). Either half can fail: a patch that overwrites an earlier one's marker applies without a conflict, then verify fails and a second apply conflicts (`QuiltTree.OverwrittenMarkerFails`; what one edit keeps, exactly, is `Quilt.EditKeepsExactlyWhen`), and a lone carriage return before a line end is eaten with every apply (`QuiltTree.SecondApplyCanChange`).
* The comment on the tile says ten distinct colours are always reachable. They are distinct exactly when at each cell some fitting colour is left unused (`Avatar.DistinctExactlyWhen`), and some fingerprints force a repeat (`Avatar.TileCanRepeat`). Touching cells still never clash.
* The comment at app/js/bare-links.js:62-64 says a closing bracket goes only when it has no opener inside the link. The code counts brackets in the whole candidate: a closer with its opener inside is lost exactly when everything behind it goes and before the pair there are more closers of its kind than openers (`BareLinks.PairIsLostExactlyWhen`), as in "a)b(c)" (`BareLinks.PairIsLost`).
* The comment at app/js/format.js:44-45 says that placing the longest names first keeps "Ann" out of "Anna". In "Anna Anna" it does not (`Chips.AnnSplitsAnna`). For two names there is such a text exactly when the longer contains the shorter (`Chips.SplitsExactlyWhen`), so where it could matter the order never suffices. It never happens when the names placed before stand in the text at most once and apart from one another (`Chips.NeverInside`).
* An archive with index.html can be refused because its comment holds a second end-of-directory record: one that points at the front of the file hides any directory (`Xdc.StrayEocdHides`), one that points at the same directory does not (`Xdc.SecondRecordPointsHome`). An archive is judged rightly when the last such record of the file points at its directory (`Xdc.AcceptsExactlyWithIndex`).

## Model

| member | source | states |
|---|---|---|
| Roster.InOrderIs | app/js/group-call-signal.js:106-114 | a strictly ordered list with the roster's elements is the sorted roster, so the sort has one result |
| Roster.LessIs | app/js/group-call.js:49-52 | the order of ids: at the first difference the smaller character decides, and a proper prefix is smaller |
| Roster.AdmissionAgreement | app/js/group-call.js:54-60 | participants whose rosters are permutations of each other admit the same list |
| Roster.AdmittedExactlyWhen | app/js/group-call.js:54-60 | somebody is admitted exactly when fewer than max others of the roster joined earlier |
| Roster.ArrivalEvicts | app/js/group-call.js:58-60 | an arrival evicts somebody exactly when the call is full and it sorts before the last admitted one, and then only that one |
| Roster.DeparturePromotes | app/js/group-call.js:58-60 | a departure keeps all other admitted participants and promotes at most the first one waiting, exactly when the departed one was admitted |
| Roster.OneOfferer | app/js/group-call.js:49-52 | of every two participants exactly one offers |
| Roster.LinkCount | app/js/group-call.js:1-2 | a full mesh over n participants has n(n-1)/2 links |
| GroupCall.ApplyKeeps | app/js/group-call.js:94-283 | every step keeps the invariant on peers, records and messages sent, and what a record has decided stays decided |
| GroupCall.ConnectedToAdmitted | app/js/group-call.js:94-188 | in every reachable state an active participant with the microphone is connected to exactly the admitted others, anybody else to nobody, with at most max connections, or max-1 with self in the roster; without the microphone it is active only after leaving during a pending join |
| GroupCall.ActiveWithoutMic | app/js/group-call.js:94-128 | a run that ends active without the microphone |
| GroupCall.PeerCount | app/js/group-call.js:144-164 | an active participant on the roster has exactly min(roster size, max) - 1 connections |
| GroupCall.EndedIsFinal | app/js/group-call.js:94-128 | an ended call stays ended in every run exactly when no join is pending, and is then silent in every run |
| GroupCall.PendingJoinWakes | app/js/group-call.js:94-115 | with a join pending there is a run that wakes an ended call |
| GroupCall.LeftWhileJoining | app/js/group-call.js:94-128 | a run from the start in which leaving while joining ends the call and the microphone grant wakes it |
| GroupCall.DroppedIsSilent | app/js/group-call.js:191-257 | a record dropped or replaced during an await never becomes current again and never sends anything afterwards |
| GroupCall.OneVoice | app/js/group-call.js:191-243 | all messages of one record carry one description to one peer, are all offers (at most four) or all answers to one session |
| GroupCall.OneAnswer | app/js/group-call.js:217-243 | a record completes at most one answer in any run |
| GroupCall.RebuildChain | app/js/group-call.js:259-273 | the restart counter is the true number of rebuilds behind a record, and never exceeds RESTART_LIMIT |
| GroupCallSteps.RosterKeepsExactlyWhen | app/js/group-call.js:137-164 | a roster that arrives during the call keeps a connection exactly when this side keeps its place and the admitted list names the peer with the same session, or one of the two is unknown; a kept record is untouched, a dropped one only loses its timer |
| GroupCallSteps.RosterOpensExactlyWhen | app/js/group-call.js:137-188 | and everybody else admitted gets a new record of the listed session, on which nothing has happened and which prepares an offer exactly when its owner has the smaller id; no other record is made; waiting for a place drops everybody |
| GroupCallSteps.JoinOpens | app/js/group-call.js:94-115 | the same when a join completes |
| GroupCallSteps.ListedSessionOnly | app/js/group-call.js:144-164 | in every reachable state each connection belongs to the session its roster lists for the peer, as far as both are known |
| GroupCallSteps.ConnectionEndsExactlyWhen | app/js/group-call.js:118-273 | over every step, a connection ends exactly on leaving, on a rebuild, by a roster that drops it, or by an offer of another session of its peer |
| GroupCallSteps.FailureRebuilds | app/js/group-call.js:259-273 | a failed connection is replaced, with the session of the roster and one restart more, exactly while it is the present one of an active call and below the limit |
| GroupCallSteps.OfferHeard | app/js/group-call.js:209-243 | what an offer leads to, in each case: nothing, the same answer again, a new connection that answers, or an answer on the present one |
| GroupCallSteps.AnswerHeard | app/js/group-call.js:209-257 | an answer is taken exactly when it is for this session, from a connected peer with the larger id, and the first |
| GroupCallSteps.OfferLeavesExactlyWhen | app/js/group-call.js:191-207 | over every step, an offer leaves exactly when the description is ready or the timer fires on a present, unanswered connection; its content, with the session of the record and the next number |
| GroupCallSteps.AnswerLeavesExactlyWhen | app/js/group-call.js:217-243 | over every step, an answer leaves exactly when it is ready on a present connection or the answered offer comes again; its content |
| GroupCallSteps.TimerRunsExactlyWhen | app/js/group-call.js:199-257 | over every step, when the retry timer of a record runs |
| GroupCallSteps.AnsweredExactlyWhen | app/js/group-call.js:217-257 | over every step, when a record counts as answered, and which answer it holds |
| GroupCallSteps.StateAfter | app/js/group-call.js:94-164 | state, microphone, pending join and roster after every step |
| GroupCallSteps.OfferNames | app/js/group-call.js:199-204 | in every run each offer names the session its connection belongs to and says how many offers of that connection there have been |
| GroupCallStale.EarlyAnswerSilencesOffer | app/js/group-call.js:191-257 | an offering connection that holds an answer says nothing more in any continuation in which the browser does not turn that answer down |
| GroupCallStale.OfferAfterSettling | app/js/group-call.js:199-257 | with the answer settled before the description is there, the offer goes out exactly when the answer was turned down |
| GroupCallStale.TakenMeansOfferedBefore | app/js/group-call.js:191-257 | in all runs of any number of sessions, a connection that holds an answer while it prepares its offer has an earlier one to the same peer, with a smaller index, that offered |
| GroupCallStale.CanTakeExactlyWhen | app/js/group-call.js:191-257 | in all runs over a network that may repeat messages, with a peer that can answer, a preparing connection can be brought an answer by the others alone exactly when an earlier connection of the session to that peer has offered |
| GroupCallStale.StaleAnswerHappens | app/js/group-call.js:191-273 | a run of two sessions - offer, answer, lost connection, second copy of the answer - after which the rebuilt connection never says a word |
| GroupCallObject.Call.DoReconcile | app/js/group-call.js:144-164 | the in-place reconciliation with its two loops is the step function's, which `GroupCallSteps` describes by the sessions |
| GroupCallObject.Call.FindObsolete | app/js/group-call.js:155-158 | the first loop returns the connections the step function drops; which these are is `GroupCallSteps.RosterKeepsExactlyWhen` |
| GroupCallObject.Call.AddEach | app/js/group-call.js:159-163 | the second loop adds exactly the missing connections, in roster order |
| GroupCallObject.Call.DoOnOffer | app/js/group-call.js:217-243 | an incoming offer in place: ignored, answered again, replaced or begun, as the step says |
| GroupCallObject.Call.DoOnAnswer | app/js/group-call.js:245-257 | an incoming answer in place |
| GroupCallObject.Call.SendOfferNow | app/js/group-call.js:199-202 | the offer goes out only for a current, unanswered record and counts as a try |
| GroupCallObject.Call.ConnectionLost | app/js/group-call.js:259-273 | the rebuild in place |
| GroupCallObject.Call.DoLeave | app/js/group-call.js:118-128 | leaving in place |
| GroupCallMesh.RunKeepsSystem | app/js/group-call.js:191-257 | the global invariant holds in every run of any number of sessions over a network that loses, duplicates and reorders |
| GroupCallMesh.SentMeaning | app/js/group-call.js:191-257 | every message in the network was sent by the session it names, in its pair's direction, and an answer has a cause |
| GroupCallMesh.GlareFree | app/js/group-call.js:49-52 | in all runs only the smaller id offers, only the larger answers, and each answer answers an offer of the addressed session |
| GroupCallMesh.OneOfferPerConnection | app/js/group-call.js:209-257 | no connection gets both a local and a remote offer; an accepted answer was addressed to the receiver's current session by its peer |
| GroupCallMesh.MeshSymmetric | app/js/group-call.js:144-164 | active participants with agreeing rosters are connected to each other, over the same mesh of at most max(max-1)/2 links |
| GroupCallSignal.IngestOrder | app/js/group-call-signal.js:170-204 | what no message can do to an entry: only its own session's leave removes it, an older session never displaces it, join time and last-seen never go back |
| GroupCallSignalRuns.PresenceTakesOver | app/js/group-call-signal.js:192-204 | a presence message of another session takes the listed one's place exactly when that one did not join later, and then every part of the entry is of the new session and nothing else changes |
| GroupCallSignalRuns.NewcomerIsListed | app/js/group-call-signal.js:192-204 | an unknown sender is listed with the join time, last-seen and transport its message proves |
| GroupCallSignalRuns.SameSessionStays | app/js/group-call-signal.js:192-201 | a presence message of the listed session keeps its join time, moves last-seen only forward and may add realtime |
| GroupCallSignalRuns.LeaveUnlists | app/js/group-call-signal.js:188-191 | a leave takes exactly the session it names off the list |
| GroupCallSignalRuns.SignalLeaves | app/js/group-call-signal.js:174-185 | what an offer or answer leaves behind: its key, the way to answer, and last-seen of its sender |
| GroupCallSignalRuns.ChangedExactlyWhen | app/js/group-call-signal.js:170-204 | the host is told of a change exactly when the listed session of the sender changed, or the listed one joined again |
| GroupCallSignalRuns.OwnSteps | app/js/group-call-signal.js:116-168 | our own join, leave and heartbeat touch our own entry only, and when a status heartbeat goes out |
| GroupCallSignalRuns.LatestSessionIsListed | app/js/group-call-signal.js:192-204 | over all runs with late, repeated and reordered messages, if each session states one join time and the listed one does not leave, an id is listed exactly once it was heard of, with the session that joined last of all it was heard from |
| GroupCallSignalRuns.OfferTravels | app/js/group-call-signal.js:145-154 | between two with realtime the first try goes by realtime alone and a retry by both, otherwise every try by status update alone |
| GroupCallSignal.JoinTimeNeverDecreases | app/js/group-call-signal.js:116-121 | over runs with duplicated and reordered messages the join time of an id that stays never decreases, exactly when none of our own joins claims an earlier instant than the one listed |
| GroupCallSignal.SeenNeverDecreases | app/js/group-call-signal.js:156-204 | within a session last-seen never decreases while our own clock does not run backwards |
| GroupCallSignal.SeenGoesBackExactlyWhen | app/js/group-call-signal.js:116-204 | one step lowers it within a session exactly when it is our own entry and our join or heartbeat is at an earlier instant |
| GroupCallSignal.OwnJoinCanGoBack | app/js/group-call-signal.js:116-121 | a run from the start in which our own join lowers our join time |
| GroupCallSignal.DeliversExactlyWhen | app/js/group-call-signal.js:170-186 | when an offer or answer reaches the call, exactly |
| GroupCallSignal.DeliveredAtMostOnce | app/js/group-call-signal.js:175-184 | each signal key reaches the call at most once in any run |
| GroupCallHost.HeardAtMostTwice | app/js/group-call-signal.js:174-184 | in any run of a whole session the call hears at most two messages with the same sender, session, kind and try number, one per transport, and after each fewer are left |
| GroupCallHost.TakenExactlyWhen | app/js/group-call-signal.js:170-186 | the current unanswered connection takes an incoming answer exactly when it is the first of its session over that transport, we have joined and the peer is not known in another session |
| GroupCallHost.AfterTwoAnswers | app/js/group-call.js:259-273 | over all runs of a whole session, after two answers of a peer session no connection set up or rebuilt later holds an answer of it |
| GroupCallHost.StaleCopyComesThrough | app/js/group-call-host.js:58-67 | a whole session in which the copy over realtime is taken by the connection that asked, the copy over status updates by its successor, and nothing further by any other |
| GroupCallNet.RunRefines | app/js/group-call-host.js:40-67 | every run of any number of whole sessions is, for their calls, a run of the mesh, so its theorems hold of whole sessions |
| GroupCallNet.GlareFree | app/js/group-call.js:49-52 | in all runs of whole sessions offers go from the smaller id to the larger and answers back, to a session that had offered |
| GroupCallNet.CanTakeExactlyWhen | app/js/group-call-signal.js:170-186 | over all runs of whole sessions, while an answer of a peer session is to be had, a preparing connection can take it exactly when an earlier connection to that peer has offered and the signalling has joined, knows the peer in no other session and has a transport left over which no answer of it was heard |
| GroupCallSignal.FirstCopyDecides | app/js/group-call-signal.js:176-184 | how often a key is delivered is decided by its first copy |
| GroupCallSignal.AnswerTravels | app/js/group-call-signal.js:145-184 | over all runs an answer is always sent, and by status update exactly when realtime does not serve both ends or the last offer handed to the call came by status update |
| GroupCallSignal.RetryAnsweredByRealtimeOnly | app/js/group-call-signal.js:149-151 | a run in which the answer to a retried offer goes by realtime only |
| GroupCallSignal.RosterIsUnique | app/js/group-call-signal.js:106-114 | the roster is independent of the order of the entries and has distinct ids, as the call requires |
| GroupCallSignal.RealtimeMemberStays | app/js/group-call-signal.js:17-20 | a live realtime member stays listed with 15 s ticks, no three heartbeats in a row lost, jitter under 5 s |
| GroupCallSignal.StatusMemberStays | app/js/group-call-signal.js:106-114 | a status-only observer keeps a member with no two status heartbeats in a row lost and delay under 60 s |
| GroupCallSignal.SeenIsLastHeard | app/js/group-call-signal.js:188-204 | over all runs of one session, last-seen is the latest instant any of its messages proved it to be there |
| GroupCallSignal.DropsExactlyWhen | app/js/group-call-signal.js:106-114 | over all runs an unconnected realtime member drops out exactly when nothing was heard of it for 50 s, 10 s before the fourth heartbeat is due |
| GroupCallSignalRuns.StatusDropsExactlyWhen | app/js/group-call-signal.js:106-114 | a member without realtime, or watched without, drops out exactly after 240 s of silence |
| GroupCallSignal.UpdateCadence | app/js/group-call-signal.js:156-168 | with a steady timer status heartbeats leave exactly every 90 s |
| GroupCallSignal.SignalObject.IngestMessage | app/js/group-call-signal.js:170-204 | the in-place ingestion is the step function's, with its two results; what these are is in `GroupCallSignalRuns` |
| GroupCallSignal.SignalObject.ListMembers | app/js/group-call-signal.js:106-114 | the loop and sort return exactly the listed members, each once, in order |
| GroupCallSignal.SignalObject.OnHeartbeat | app/js/group-call-signal.js:156-168 | the heartbeat in place and whether a status update goes out |
| Watchdog.InWindowIsSuffix | app/js/core-watchdog.js:58-60 | pruning drops exactly the expired prefix |
| Watchdog.RateLimit | app/js/core-watchdog.js:100-184 | in every run with a non-decreasing clock no window of that length holds more than the cap of automatic restarts |
| Watchdog.AutoRestartExactlyWhen | app/js/core-watchdog.js:142-185 | when a step restarts by itself, exactly: never busy, a hang old enough and under the cap, or a dead core whose delay is over |
| WatchdogRuns.StalledExactlyWhen | app/js/core-watchdog.js:119-152 | a healthy core is shown as stalled exactly at a tick past the grace with ping or call old enough, dated back by the older age; a restarting one exactly when a restart of no dead core fails |
| WatchdogRuns.HealthyExactlyWhen | app/js/core-watchdog.js:84-123 | a stall ends well exactly by a pong while no call is stuck, a restart by success, and only that grants a new grace |
| WatchdogRuns.DeadOrFailedExactlyWhen | app/js/core-watchdog.js:100-137 | a death leaves a dead core with the delay for the restarts in the window, or for good a failed one, exactly at the cap |
| WatchdogRuns.DelayTable | app/js/core-watchdog.js:7-20 | the delays: one second, five, then thirty |
| WatchdogRuns.RestartingExactlyWhen | app/js/core-watchdog.js:113-184 | a restart begins exactly by itself or by hand; from dead or failed nothing else leads away |
| WatchdogRuns.BusyPutsOff | app/js/core-watchdog.js:154-177 | being busy puts a restart off and is logged once |
| WatchdogRuns.NotNoticedEarly | app/js/core-watchdog.js:142-152 | over runs of the timer, nothing is shown before a tick finds ping or call old enough |
| WatchdogRuns.StallNoticed | app/js/core-watchdog.js:245-253 | over runs of the timer, the first tick past the grace that finds the ping of instant p older than the limit shows the stall, dated to p or to an older call |
| WatchdogRuns.UnansweredPingRestarts | app/js/core-watchdog.js:142-169 | over runs of the timer, a ping of instant p nobody answers has a restart of a hung core under way by the first tick at or past p + 60 s that finds nobody busy and fewer restarts in the window than allowed |
| Watchdog.DeadRestartWaits | app/js/core-watchdog.js:100-183 | a dead core is restarted no earlier than its backoff, in every reachable state |
| Watchdog.ControlRun | app/js/core-watchdog.js:79-193 | restarts issued minus outcomes consumed is 1 exactly while restarting; the transient status never escapes; the banner matches the status |
| Watchdog.Decide | app/js/core-watchdog.js:79-188 | the reducer with its local copy and list of actions is the step function; what that does is in `WatchdogRuns` |
| Watchdog.CoreWatchdog.RestartSettled | app/js/core-watchdog.js:215-217 | an outcome the driver reports finds the policy restarting and ends the restart, with the state and log of that step |
| Watchdog.CoreWatchdog.OnTimer | app/js/core-watchdog.js:245-253 | the timer: nothing while hidden; otherwise re-dating after a long gap, then one tick with the ages of ping and calls, then a ping if one is due, all as state and log; after a gap a healthy core is never reported, whatever the ages |
| Smtp.PinFirstMoves | core/src/smtp.rs:165-181 | the pin is moved to front or second place; the rest is a permutation in unchanged order |
| Smtp.CandidatesAreEligible | core/src/smtp.rs:367-376 | the list that is tried holds exactly the eligible transports; their order is `Smtp.CandidatesInOrder` |
| Smtp.CandidatesInOrder | core/src/smtp.rs:367-376 | all but the pin are tried in the order in which they are listed |
| Smtp.TryEachIs | core/src/smtp.rs:377-410 | the loop tries a prefix of its list in order and stops at the first success |
| Smtp.BindsFirstListed | core/src/smtp.rs:367-411 | without a pin and a live connection to keep, a call binds a relay exactly when it is the first listed, among those not paused, that connects, all before it having refused |
| Smtp.KeptExactlyWhen | core/src/smtp.rs:294-366 | a live connection is kept exactly when the network is unchanged, no other relay is the pin (unless that one failed within the backoff and is not strict) and its own relay is not paused |
| Smtp.AttemptsAreNoted | core/src/smtp.rs:377-404 | each refusal is remembered with its instant, a success forgets it, and nothing else changes |
| Smtp.SuccessIsSafe | core/src/smtp.rs:294-411 | after success the bound transport is not paused, is the pin in strict mode, and is the pin or the pin was refused in this call whenever it was not backing off |
| Smtp.FailureIsThorough | core/src/smtp.rs:377-411 | a failing call tries no transport twice, and has tried all eligible ones exactly when none of these has unusable parameters |
| Smtp.StrictExactlyWhen | core/src/smtp.rs:317-330 | with the strict flag set, strict mode holds exactly when the pin names a listed relay that is not paused |
| Smtp.PausedPinSendsElsewhere | core/src/smtp.rs:317-330 | with the strict flag set and the pin paused, the call binds another relay |
| SmtpRuns.SharedMirrors | core/src/smtp.rs:269-278 | the shared transport id always names the live connection |
| SmtpRuns.LeadsExactlyWhen | core/src/smtp.rs:165-181 | the pin is tried first exactly when it is not backing off |
| SmtpRuns.DeadPinIsCheap | core/src/smtp.rs:83-86 | over runs, two calls that put a refusing pin first are at least the backoff apart |
| SmtpRuns.RejectingPinIsCheap | core/src/smtp.rs:123-134 | the same after the server rejected a message on the pin |
| SmtpRuns.RestartForgets | core/src/smtp.rs:136-160 | after a restart the pin leads exactly when no failure row names it |
| SmtpRuns.RestartBreaksTheBound | core/src/smtp.rs:136-160 | a concrete run in which the bound fails across a restart |
| SmtpObject.Loop.ConnectConfigured | core/src/smtp.rs:294-411 | the method with its four disconnects is the specified call; its order is `Smtp.CandidatesInOrder` and `Smtp.BindsFirstListed` |
| SmtpObject.Loop.MovePin | core/src/smtp.rs:165-181 | finding, removing and inserting the pin in place |
| SmtpObject.Loop.TryTransports | core/src/smtp.rs:377-410 | the loop over the candidates in place |
| SmtpObject.Loop.SeedSendFailure | core/src/smtp.rs:140-160 | the backoff is seeded from the failure row only without an entry |
| ConfigCache.CacheAgrees | core/src/sql.rs:615-677 | in every interleaving outside the three windows each cached entry equals its row whenever no write is under way |
| ConfigCache.ReadersAndWritersAgree | core/src/sql.rs:648-677 | without setters the cache and the database agree in every interleaving |
| ConfigCache.EveryWindowMatters | core/src/sql.rs:615-677 | for each window, from any settled state, for any key and any two differing values of it, a run that enters this window and no other, settles again and leaves one value in the cache and the other in the database |
| ConfigCache.GenerationCounts | core/src/sql.rs:69-72 | the generation counts the bumps |
| ConfigCache.RowAndEntryAfter | core/src/sql.rs:615-677 | over every step, which rows and entries change, to what, and when the generation does |
| ConfigCache.FillsExactlyWhen | core/src/sql.rs:653-665 | a read fills the cache exactly when nobody bumped the generation since it loaded it |
| ConfigCache.Sql.StartGet | core/src/sql.rs:649-658 | a read up to its query, in place: the hit, or the miss and load steps of the interleaved model |
| ConfigCache.Sql.FinishGet | core/src/sql.rs:662-667 | the end of a read in place is the steps acquire, check and fill, and keeps the value exactly when the generation is the one loaded |
| ConfigCache.UndisturbedRead | core/src/sql.rs:648-668 | a read nobody disturbs caches the row and changes nothing else |
| ConfigCache.Sql.BeginSet | core/src/sql.rs:619-623 | a set up to its write: mutex and first bump |
| ConfigCache.Sql.WriteSet | core/src/sql.rs:624-639 | the write and the sample of the generation |
| ConfigCache.Sql.FinishSet | core/src/sql.rs:640-645 | the end of a set in place is the steps acquire, check and fill, and caches exactly when nobody bumped since the sample |
| ConfigCache.UndisturbedSet | core/src/sql.rs:615-645 | a set nobody disturbs writes row and entry together and bumps once |
| ConfigCache.Sql.UncacheRawConfig | core/src/sql.rs:671-677 | uncaching in place is the steps acquire, bump and remove: one bump, one entry less |
| Scheduler.FlagFalls | core/src/scheduler.rs:62-107 | a raised flag falls exactly at a step that signals inbox, SMTP and ephemeral on a running scheduler; a failed start keeps it |
| Scheduler.NoLostWake | core/src/scheduler.rs:246-347 | over any continuation an interrupt was signalled, met a stopped scheduler, is in flight, is flagged, or its flag was delivered later |
| Scheduler.InterruptsNeverWait | core/src/scheduler.rs:246-347 | in every state an interrupt can be taken without the lock |
| Scheduler.WakesTheRightTasks | core/src/scheduler.rs:246-347 | each wake signals exactly the tasks it is meant for |
| Scheduler.DeliveryCovers | core/src/scheduler.rs:90-102 | the delivery makes good exactly the wakes other than location and recently-seen |
| Scheduler.SomeWakesAreDropped | core/src/scheduler.rs:326-347 | such a wake during a start is never signalled |
| Scheduler.LateWakeWaits | core/src/scheduler.rs:90-104 | a wake between swap and release waits for the next start although the scheduler runs |
| Scheduler.BalanceKeptExactlyWhen | core/src/scheduler.rs:167-227 | the pause count equals the guards out, until exactly a resume whose start fails |
| Scheduler.WedgedForever | core/src/scheduler.rs:193-226 | once the count exceeds the guards, no run leaves the paused state |
| Scheduler.FailedResumeWedges | core/src/scheduler.rs:193-226 | so after a failed resume the scheduler never runs again |
| Scheduler.FailedResumeHappens | core/src/scheduler.rs:193-226 | a run from the start that reaches a failed resume |
| Scheduler.LastCallWins | core/src/scheduler.rs:159-166 | once all guards are gone the scheduler runs exactly if start was asked for last |
| Scheduler.SchedulerState.StartIo | core/src/scheduler.rs:62-80 | starting in place, with the delivery of a pending wake |
| Scheduler.SchedulerState.ResumeIo | core/src/scheduler.rs:193-226 | the resume task in place |
| Scheduler.SchedulerState.InterruptWith | core/src/scheduler.rs:246-347 | an interrupt in place: signalled, ignored, or skipped |
| Quilt.FindOccIsNth | tools/apply-core-patches.py:2897-2903 | the search finds the true n-th occurrence, overlaps counted, and nothing exactly when there are fewer |
| Quilt.FindOccurrence | tools/apply-core-patches.py:2897-2903 | the loop of the search |
| Quilt.MarkerNeverAbsent | tools/apply-core-patches.py:2944-2946 | what "cannot happen after lint" indeed cannot |
| Quilt.EditPlaces | tools/apply-core-patches.py:2934-2943 | the text before and after an edit, by its place: the n-th occurrence of the anchor stays with the inserted text behind or in front of it, or is replaced |
| Quilt.EditOutcomes | tools/apply-core-patches.py:2931-2949 | an edit is idle exactly when the marker is in, and conflicts for the anchor exactly when that stands there fewer times than wanted |
| Quilt.EditKeepsExactlyWhen | tools/apply-core-patches.py:2938-2943 | after one edit a marker is in the text exactly when an occurrence was spared or one overlaps the inserted text |
| Quilt.MarkersSurvive | tools/apply-core-patches.py:2920-2951 | if no edit overwrites or splits an earlier marker, all markers survive all patches of a file |
| Quilt.NothingLeft | tools/apply-core-patches.py:2931-2933 | with all markers in, the patches change nothing |
| QuiltTree.ApplyIs | tools/apply-core-patches.py:2920-2951 | all or nothing: any conflict changes no file, otherwise each patched file is the fold of its patches (each of which is `Quilt.EditPlaces`) and no other changes; when it conflicts, exactly |
| QuiltTree.NormalFixesExactlyWhen | tools/apply-core-patches.py:2906-2912 | reading leaves a text as it is exactly when no CRLF stands in it |
| QuiltTree.NormalStep | tools/apply-core-patches.py:2906-2912 | reading turns the first CRLF into LF and goes on behind it |
| QuiltTree.SecondApplyIdlesExactlyWhen | tools/apply-core-patches.py:2920-2951 | after an apply that went through, a second one inserts nothing, conflicts nowhere and changes no file exactly when the patched texts read back as they are and hold all their markers |
| QuiltTree.SecondApplyCanChange | tools/apply-core-patches.py:2906-2951 | a file and a patch for which a second apply changes the file although all markers are in |
| QuiltTree.ApplyThenVerify | tools/apply-core-patches.py:2920-2969 | after apply, verify is empty and a second apply is idle, if the texts read back and no edit destroys an earlier marker |
| QuiltTree.NoReturnsReadBack | tools/apply-core-patches.py:2906-2912 | without lone carriage returns in files and patches the patched texts read back as they are |
| QuiltTree.OverwrittenMarkerFails | tools/apply-core-patches.py:2934-2951 | a concrete pair of patches for which that fails |
| QuiltTree.CleanTreeVerifiesExactlyWhen | tools/apply-core-patches.py:3020-3045 | after a clean tree-check the vendored tree passes verify exactly when each marker is in its file's patched text as it is read back |
| QuiltTree.CleanTreeVerifies | tools/apply-core-patches.py:3020-3045 | so a clean tree-check implies a clean verify, if no edit destroys an earlier marker |
| QuiltTree.TreeCheck | tools/apply-core-patches.py:3007-3045 | empty exactly when every path not ignored is on both sides with the same content under its end-of-line rule; otherwise the conflicts, or for every differing path its problem and nothing else |
| QuiltTree.EolDifference | tools/apply-core-patches.py:3007-3045 | a difference in line ends alone counts exactly under test-data |
| QuiltTree.Lint | tools/apply-core-patches.py:2874-2894 | empty exactly when fields are set, markers are in the text and not in the anchor, ids and markers are unique |
| QuiltTree.LintedConflicts | tools/apply-core-patches.py:2944-2946 | after lint every conflict is a missing file or a gone anchor |
| QuiltTree.Tree.ApplyOps | tools/apply-core-patches.py:2920-2951 | the loop with its cache, in place; what each patch writes is `Quilt.EditPlaces` |
| QuiltTree.Tree.VerifyOps | tools/apply-core-patches.py:2954-2969 | the loop over the markers |
| QuiltTree.FailingReasons | tools/apply-core-patches.py:2954-2969 | which of its reasons verify gives, exactly |
| Palette.Evaluated | app/js/avatar.js:39-49 | hue, saturation and lightness of each of the forty colours |
| Palette.FreeColor | app/js/avatar.js:51-57 | for any three pool colours some pool colour clashes with none |
| Palette.ClashIsSymmetric | app/js/avatar.js:50-57 | clashing does not depend on the order |
| Palette.ClashExactlyWhen | app/js/avatar.js:49-57 | two colours clash exactly when both are grey and close in lightness, one is and they are close, or neither is and hue (round the circle), saturation and lightness are all close |
| Palette.StrideVisitsAll | app/js/avatar.js:73-74 | the walk by seven reaches every colour |
| Palette.StrideVisitsOnce | app/js/avatar.js:73-74 | ... and none twice |
| Avatar.NeighborsAreTheEdges | app/js/avatar.js:58-70 | a cell is compared with exactly the cells left of it and on top of it, by the geometry of the tile, and at the start of a row with its predecessor |
| Avatar.CellColor | app/js/avatar.js:68-80 | a cell's colour clashes with no neighbour, is unused exactly when some fitting colour is, and is the first such on the walk |
| Avatar.StartIs | app/js/avatar.js:68-70 | the walk of a cell starts at the first four hex digits of its group, as one number |
| Avatar.HexDigitIs | app/js/avatar.js:68-70 | the sixteen digits in either case, and their values |
| Avatar.OthersDoNotCount | app/js/avatar.js:68-70 | any character that is no hex digit might as well not be there |
| Avatar.ColorForCell | app/js/avatar.js:68-80 | the loop with its fallback |
| Avatar.NoNeighborsClash | app/js/avatar.js:318-330 | for every fingerprint no two cells that share an edge clash |
| Avatar.BuildTile | app/js/avatar.js:318-330 | the cell loop |
| Avatar.DistinctExactlyWhen | app/js/avatar.js:62-80 | for every fingerprint and prefix of cells: the names are distinct exactly when at each cell some fitting pool colour is still unused |
| Avatar.TileCanRepeat | app/js/avatar.js:62-80 | a fingerprint whose tile must repeat a colour |
| Packets.FirstPublicKeyPacket | app/js/avatar.js:215-258 | the walk, ending and in bounds on arbitrary bytes |
| Packets.FindsFirstKey | app/js/avatar.js:215-258 | for every well-formed packet sequence of section 4.2 of RFC 9580 (definite lengths, both header formats) the result is the first public-key packet's body, whatever follows |
| Packets.WholeKey | app/js/avatar.js:215-258 | and nothing exactly when there is none |
| Xdc.IsValidXdc | app/js/builtin-xdc.js:6-29 | the scan and the walk, ending and in bounds on arbitrary bytes |
| Xdc.AcceptsExactlyWithIndex | app/js/builtin-xdc.js:6-29 | a well-formed archive of sections 4.3.12 and 4.3.16 of the PKWARE ZIP APPNOTE whose last end-of-directory record points at its directory is accepted exactly when an entry is named index.html |
| Xdc.NoStrayPointsHome | app/js/builtin-xdc.js:10-18 | the last record does so when no end-of-directory signature occurs behind the first |
| Xdc.SecondRecordPointsHome | app/js/builtin-xdc.js:10-18 | it also does so when the comment is one more record for the same directory |
| Xdc.StrayEocdHides | app/js/builtin-xdc.js:10-18 | every archive whose comment is a record for a directory at the front of the file is refused |
| BareLinks.TrimIs | app/js/bare-links.js:62-82 | the trimmed text is the longest prefix whose last character stays; trimming twice changes nothing |
| BareLinks.PairIsLostExactlyWhen | app/js/bare-links.js:62-82 | a closing bracket with its opener inside is lost exactly when all behind it goes and there are more closers than openers of its kind before the pair |
| BareLinks.PairIsLost | app/js/bare-links.js:62-82 | a text in which that happens |
| BareLinks.TrimKeepsBalance | app/js/bare-links.js:65-82 | a kind of bracket in balance or with openers left over keeps its balance; one with closers left over loses at most as many |
| BareLinks.TrimLinkEnd | app/js/bare-links.js:65-82 | the two loops with their running balances |
| BareLinks.FindBareLinks | app/js/bare-links.js:112-153 | the scan over the runs |
| BareLinks.LinksAndGaps | app/js/bare-links.js:109-112 | the links are ordered, disjoint slices and rebuild the text with the gaps |
| BareLinks.FindsEveryLink | app/js/bare-links.js:112-153 | a link at the start of a run is found exactly when no position the scan tried before it, link or rejected host, commits the scan beyond it |
| BareLinks.LookedExactlyWhen | app/js/bare-links.js:112-153 | which starts the scan tries, exactly |
| BareLinks.FindsOnlyLinks | app/js/bare-links.js:112-153 | nothing else is found |
| BareLinkForm.LinkExactlyWhen | app/js/bare-links.js:112-153 | what stands at a place is a link exactly when a host with all its port and tail, glued to nothing, is accepted after trimming |
| BareLinkForm.ReachExactlyWhen | app/js/bare-links.js:121-142 | how far a candidate reaches: one to five digits of port, then a path, query or fragment up to white space or "<", and what before, between and behind rules it out |
| BareLinkForm.WholeLink | app/js/bare-links.js:121-153 | a candidate that does not end in something to trim is the link as it stands |
| Chips.ChipsKeepText | app/js/format.js:48-71 | a notice reads the same with chips as without |
| Chips.PlacedApart | app/js/format.js:54-62 | chips stand on their names and never overlap |
| Chips.ChipAtFirstFreePlace | app/js/format.js:44-62 | each person in turn gets the first free occurrence of the name, and keeps it |
| Chips.ByLengthIs | app/js/format.js:51-53 | the sort puts longer names first, loses nobody and keeps the order among names of one length |
| Chips.AnnSplitsAnna | app/js/format.js:44-62 | a text in which a shorter name gets its chip inside a longer one |
| Chips.SplitsExactlyWhen | app/js/format.js:51-62 | for two names, the longer placed first: some text puts the chip of the shorter inside the longer exactly when the longer contains the shorter |
| Chips.InsideOnlyContained | app/js/format.js:51-62 | for any text and people, a chip stands inside a place of another name only if that name contains its own |
| Chips.NeverInside | app/js/format.js:44-62 | no chip stands inside a name placed before it, if those names stand in the text at most once and apart |
| Chips.ServiceChips | app/js/format.js:48-71 | the sort and the loops |
| Paging.AroundHolds | app/js/format.js:13-18 | the page around a message holds it exactly when fewer than limit messages precede it there |
| Paging.AroundAlwaysHoldsExactlyWhen | app/js/format.js:13-18 | it holds it in every list exactly when before < limit |
| Paging.PagesPartition | app/js/format.js:23-29 | paging up from the newest page yields the whole list, no gap and no overlap |
| Paging.PagesAreFull | app/js/format.js:11-30 | every page is as full as the messages on its side allow, and stands where it is asked for |
| Paging.UnknownAnchors | app/js/format.js:11-30 | what unknown and several anchors give |
| Paging.JumpAndPage | app/js/format.js:11-30 | jumping to a message and paging both ways yields the whole list |

## Left out

- WebRTC objects, session descriptions, ICE, audio, mute state, names and the ui: opaque text or absent. The microphone without a track and the refused microphone are one event.
- Connection records of a call are named by their position in a list that only grows, in place of object identity.
- Delivery of call messages: nothing promises it, so only safety is proved about calls.
- GroupCallStale.CanTakeExactlyWhen: supposes for its one half that the session each offer was meant for is in the call or has not begun; whether a peer comes back is not up to this participant.
- When a connection counts as failed: the browser says so, as an event.
- GroupCallMesh.MeshSymmetric: is about two states that satisfy the call invariant, not about when rosters agree; agreement is not promised by the signalling layer.
- GroupCallSignalRuns.LatestSessionIsListed: supposes that a session states one join time in all its messages, and that the listed session does not leave, after which an older one that is heard again would be listed.
- GroupCallSignal.StatusMemberStays: assumes the sender's clock in step with the observer's and its timer exact; a timer that drifts lengthens the status period beyond 90 s.
- GroupCallStale.CanTakeExactlyWhen: the network may repeat a message any number of times, which the signalling layer does not; what it lets through is in GroupCallHost.
- GroupCallNet.CanTakeExactlyWhen: a message may come in over either transport, whichever its sender chose (GroupCallSignal.AnswerTravels says which), and for its one half an answer must be on its way or its sender in the call and reachable.
- Chips.NeverInside: a condition on the text that suffices.
- Xdc.AcceptsExactlyWithIndex: an archive whose last record points elsewhere is judged by what stands there, which is not described beyond Xdc.StrayEocdHides.
- GroupCallHost: status updates and realtime data are messages that come in one by one; the history is such a sequence.
- GroupCallSignal.DeliveredAtMostOnce: the key is a tuple here; the program joins its parts with a separator that an id could contain.
- Missing, zero and non-numeric time stamps of call messages are one value, as the program treats them.
- Watchdog messages, diagnostics and the core's own in-flight table, which is a function of the instant.
- WatchdogRuns.UnansweredPingRestarts: is about a visible app whose clock does not jump, and a client that gives a ping up only after the stall limit, as its timeout does.
- Smtp.SuccessIsSafe: one call reads one snapshot of settings and transports, and addresses are already in lower case. Proxy settings, the several login parameters of one transport and the wire protocol are inside one attempt.
- SmtpRuns.DeadPinIsCheap: a pin with unusable parameters ends the call without a failure being noted, so it is not covered.
- The upstream order of transports, which is a list given to the call.
- ConfigCache.CacheAgrees: setters that are cancelled between two awaits, whole-database import and the writers that hold the cache lock across their own write are not modelled.
- Scheduler.NoLostWake: the connectivity display, background fetch and the debug log are absent; counters and flags do not wrap or tear.
- Fairness of locks: waiting is any delay.
- Quilt file access, directory walks, git's ignore rules, fetching and the tool's own tests: trees are maps, ignored paths a set.
- QuiltTree.ApplyThenVerify: requires that no edit destroys an earlier patch's marker, which lint does not check, and that the patched texts read back as they are; QuiltTree.SecondApplyIdlesExactlyWhen has the exact condition.
- Palette.Evaluated: colour arithmetic is over the reals, without floating-point rounding.
- Caption layout, contrast and the markup of the tile, and its cache.
- Indeterminate and partial packet lengths, which the walker rejects; zip64 and split archives.
- BareLinks.FindsOnlyLinks: the character classes, the host pattern, the suffix tables and the URL parser are parameters.
- Chips: escaping, the label and markup of a chip, and the filter before the sort.
- Admin-group ids, a fingerprint and a random part joined by a colon: the core enforces the rules they gate, the app only shows controls by them.
- Keys and encryption, themes, contact and blob caches, registries and formatters of the app: no protocol, clock or interleaving in them; each is a lookup or a call into a library.
