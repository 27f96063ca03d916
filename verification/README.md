# Verified model of the room protocol

This project models the durable protocols of the repository in Dafny and proves what they keep. Two agents
hold a turn-based conversation in a room; the service stores rooms, messages, deliveries and tokens in
Postgres; each agent runs a bridge daemon that is woken through an acknowledged event stream; third parties
are told through a webhook outbox; and web clients follow a room's event stream.

The parts, one module a file:

- **Room service.** `RoomLifecycle` (the state machine), `RoomTables` (the tables, and what they say about one
  room), `RoomOps` (each service call as a function on the tables), `RoomInvariant` (one inductive invariant
  and what a step may do), `RoomAnswers` (in the tables' own columns: when each call succeeds, which error each
  failing condition gives, every row it writes), `RoomRuns`, `RoomLaws` and `RoomAccess` (theorems over every
  run, of rooms, of turns and limits, and of tokens), `RoomService` (store and service as classes updated in
  place, each method proved equal to its function in `RoomOps`, including rollback).
- **Split calls.** `TurnLock` (sends split into read and commit, ordered only by the unique turn, and in rooms
  read without a message key not even by that) and
  `ContextCas` (the versioned room-context document under competing writers, with its retry loop).
- **Agent stream and bridge.** `AgentStream` (server, network, disk and bridge as one step relation, with
  crashes, lost replies, late saves, overlapping drains and recoveries), `StreamCursor` (a resume skips
  nothing), `StreamHandoff` and `StreamRecovery` (an acknowledged wake is never lost; what an interrupted
  recovery owes), `StreamQueue` (exactly when the queue stays free of repeats), `StreamRaces` (two runs that
  show what the side conditions are for), `BridgeDaemon` (the daemon's loops over its queue and its completed
  list).
- **Webhook outbox.** `Outbox` (claim, reclaim, retry; order within a lane), `OutboxClaims` (what a claim takes
  and leaves, and how long a row is left alone), `OutboxProgress` (retries end),
  `WebhookWorker` (the worker loop in place), `Backoff` (the delay in 64-bit arithmetic).
- **Room event stream.** `EventHub` (the hub class that drops slow readers, against a log of what was published)
  and `EventStream` (replay followed
  by live events, for one client).
- **Smaller pieces.** `Limiter` and `InPlaceLimiter` (sliding windows whose slices share a backing array),
  `TypingHub` (presences and timers against a log), `SseFraming` (writers and chunked parser),
  `SecretCipher` (key sets and rotation), `Text` and `Prelude` (helpers).

`dafny verify dfyconfig.toml` checks the whole project.

One service call or one store transaction is a single step, except where a module splits it on purpose.
Clocks, random ids, hashes, replies of other parties and verdicts of content checks are parameters; times are
integers that runs may not move backwards where the code relies on that. Identifiers that the code trims are
taken as already trimmed, except in the parsers.

Where a natural claim is false of the code, the code is modelled as it is, a concrete run shows the failure,
and the exact condition is proved for all runs or inputs:

- rooms leave the state machine exactly when a second agent is attached to a room that is no longer open
  (`RoomRuns.RoomsFollowTheStateMachineIff`);
- a room's transcript stays exactly its turns, and a purge lasts, exactly when no sender commits that a purge
  has overtaken, or that read the room without a message key and another send has overtaken
  (`TurnLock.TranscriptStaysExactIff`); without such senders the room's key opens every message, and the second
  kind makes one unreadable (`TurnLock.KeylessLateLosesTheKey`); a message lands in a closed room exactly when between read and commit
  it was closed, not purged after that, and no other turn was taken (`TurnLock.LandsAfterCloseIff`);
- across purges the context markers stay exact exactly when every write that goes through had read what the
  row still shows (`ContextCas.MarkersAreExactIff`);
- the wake queue stays free of repeats and of completed wakes exactly when each step passes its own check
  (`StreamQueue.QueueIsCleanIff`), and an interrupted recovery is always taken up again exactly when no crash
  brings back a cursor the server still accepts (`StreamRecovery.OwedStaysDueIff`);
- the lanes of the outbox stay in order exactly when each report of a retry finds nothing tried behind its row,
  and each report of an ending nothing open before it (`Outbox.LanesStayFifoIff`);
- with a page limit above 200 a later event is lost in some continuation exactly when one page of 200 does not
  reach up to what stands in the subscriber's channel (`EventStream.HandoverIsCompleteIff`);
- backoff is right exactly when some doubling reaches the cap within 64 bits (`Backoff.BackoffIsRightIff`);
- a sealed value can be read back exactly when its key id has no colon (`SecretCipher.RotationKeepsSecretsIff`).

Content-policy violations are meant to block an agent, but in shared mode the recording transaction is rolled
back with the refusal, so the model, following the code, never blocks anyone
(`RoomRuns.PolicyTableNeverChanges`).

## Model

| member | source | states |
|---|---|---|
| RoomLifecycle.LegalNeverGoesBack | internal/domain/room_state.go:14-27 | along any history that respects the transition relation the stage never decreases |
| RoomLifecycle.LegalEntersOnce | internal/domain/room_state.go:14-27 | such a history enters each state at most once |
| RoomTables.RevokeAgentClearsLive | internal/repository/postgres/store.go:823-832 | revoking leaves the holder no unrevoked token in that room and touches no other holder or room |
| RoomTables.TouchRevivesNothing | internal/repository/postgres/store.go:813-821 | extending a token by hash never changes which tokens are unrevoked |
| RoomTables.WithoutRoomEmptiesOneRoom | internal/repository/postgres/store.go:873-895 | the purge deletes every message of the room and none of another |
| RoomInvariant.CloseKeeps | internal/service/a2a/service.go:1646-1722 | closing an open or active room keeps the invariant: one closing notice per participant, all its tokens revoked |
| RoomInvariant.PurgeKeeps | internal/service/a2a/service.go:2025-2105 | purging a closed room keeps the invariant: no messages, one purge notice per participant |
| RoomInvariant.ReconcileKeeps | internal/service/a2a/service.go:1946-2117 | reconciling is a legal step, and a room it leaves open or active was not touched at all |
| RoomInvariant.AttachKeeps | internal/service/a2a/service.go:735-776 | attaching the second agent yields an active room with exactly the first wake |
| RoomInvariant.SendKeeps | internal/service/a2a/service.go:1061-1219 | an accepted message is one step: the turn is recorded, the other agent is woken or, on the last turn, the room closes |
| RoomInvariant.IssueKeeps | internal/service/a2a/service.go:332-361 | issuing a token keeps at most one unrevoked token per room and holder |
| RoomAnswers.ReconcileAnswers | internal/service/a2a/service.go:1946-2117 | an open or active room is closed if and only if now is past its time; a closed one is purged if and only if the retention has passed since it closed, or the grace has and every viewer of it has left or was last heard from before the heartbeat timeout; the rows written are stated, and otherwise nothing changes |
| RoomAnswers.ClosingIsExact | internal/service/a2a/service.go:1665-1722 | closing stamps state and time, revokes exactly the participants' unrevoked tokens of the room, and tells each of them once, for 1800 seconds |
| RoomAnswers.CloseAnswers | internal/service/a2a/service.go:1642-1734 | not found, forbidden to others than the two participants, gone once purged; otherwise it succeeds, and closes the room then unless it was over already |
| RoomAnswers.SendIsAcceptedIff | internal/service/a2a/service.go:917-1165 | a send is accepted if and only if it is not blank, the room exists, is active and in time at both clock readings, the expected turn is the room's and the sender's (A on even, B on odd turns), verdict and bundle are good, no block is running, and fewer than 30 messages of the sender and 60 of the room are dated within the last 60 seconds |
| RoomAnswers.SendAnswers | internal/service/a2a/service.go:917-1142 | each error is given if and only if its condition is the first to fail; a refused send leaves the tables as reading the room left them |
| RoomAnswers.AcceptedSendsAreSpoken | internal/service/a2a/service.go:1136-1219 | an accepted send answers the next turn, and closed exactly on the last; it stores that message, moves the turn, and wakes the other agent or ends the room |
| RoomAnswers.NextTurnIsFree | internal/repository/postgres/store.go:1104-1110 | under the invariant the unique turn constraint never refuses a whole send |
| RoomAnswers.CreateAnswers | internal/service/a2a/service.go:534-633 | bad request without a topic, conflict when an id is taken, otherwise exactly the listing and its open room, with 20 turns and 900 seconds where no positive number is given |
| RoomAnswers.ConnectAnswers | internal/service/a2a/service.go:639-776 | not found, forbidden to the owner, conflict when connected already, otherwise exactly the room attached or created active at turn 0, and the owner woken |
| RoomAnswers.JoinAnswers | internal/service/a2a/service.go:798-845 | joining succeeds exactly for participants of a room that is not over |
| RoomAnswers.ViewersAnswer | internal/service/a2a/service.go:1813-1919 | joining, heartbeats and leaving of viewers: their errors, and what they write; after joining or a heartbeat the room is watched for the whole heartbeat timeout |
| RoomRuns.ApplyKeeps | internal/service/a2a/service.go:264-1274 | every operation of the service keeps the invariant, and changes every room only as a legal step |
| RoomRuns.RunKeepsInv | internal/service/a2a/service.go:264-2117 | every run of operations keeps the invariant |
| RoomRuns.FreshDatabaseOk | internal/service/a2a/service.go:534-633 | a database without rooms satisfies the invariant, also with listings that have no room yet |
| RoomRuns.OneWakePerTurn | internal/service/a2a/service.go:2569-2593 | in every run a connected room's turn_ready deliveries are exactly one per turn 0 to min(turnIndex, maxTurns-1), to A on even and B on odd turns, in order; an active room has one for its current actor |
| RoomRuns.TranscriptIsTheTurns | internal/service/a2a/service.go:1136-1165 | in every run an unpurged connected room holds exactly the messages of turns 0 to turnIndex-1, alternating; a purged one holds none |
| RoomRuns.ActiveRoomsAreWellFormed | internal/service/a2a/service.go:652-748 | an active room has two different agents and a turn left; an open one has a single agent |
| RoomRuns.TokensStayExclusive | internal/service/a2a/service.go:2247-2258 | in every run at most one unrevoked token per room and agent, only for participants, and none once the room is closed or purged |
| RoomRuns.LiveCountsRows | internal/repository/postgres/store.go:788-832 | the count of unrevoked tokens means rows: two such rows of one room and holder are the same row |
| RoomAccess.AuthAnswers | internal/service/a2a/service.go:264-301 | a request is let in, as the session's agent or the token's holder, if and only if it has a valid session or the hash of a row of that room that is unrevoked, unexpired and in scope; exactly such a row with at most 60 seconds left is extended to 300 from now |
| RoomAccess.TokenAnswers | internal/service/a2a/service.go:310-361 | a token is issued exactly to a participant of a room that is not over, under a free hash; the holder's others for that room are revoked, all else stays |
| RoomAccess.RecoverAnswers | internal/service/a2a/service.go:387-401 | the recovery listing issues a token exactly when the active room waits for that agent |
| RoomAccess.RevokedTokensStayShut | internal/repository/postgres/store.go:813-832 | in every run a token once revoked is unauthorized for ever |
| RoomAccess.EndedRoomsAdmitNobody | internal/service/a2a/service.go:264-301 | in every run no token opens a room while it is closed or purged |
| RoomAccess.EndingShutsTokensForGood | internal/service/a2a/service.go:2247-2258 | a token a room had when it ended opens nothing ever again, even if the room is reopened |
| RoomAccess.NewTokensOpen | internal/service/a2a/service.go:332-361 | a token just issued opens its room as its holder for 300 seconds |
| RoomAccess.NewTokensReplaceOldOnes | internal/service/a2a/service.go:332-361 | once it is issued, in every later run the holder's earlier tokens for the room open nothing |
| RoomLaws.RepeatedSendsAreAcceptedOnce | internal/service/a2a/service.go:983-990 | in every run sends to one room with one expected turn are accepted at most once, whoever repeats them |
| RoomLaws.MinutesAreNotOverfull | internal/service/a2a/service.go:1086-1112 | in every run with a clock that does not go back no 60 seconds hold more than 30 messages of one sender or 60 of one room |
| RoomRuns.WakesAreAnsweredEndedOrActionable | internal/service/a2a/service.go:363-422 | in every run each wake ever sent is answered in the transcript, belongs to a room that ended and said so to its agent, or is the turn for which the active room is listed as actionable |
| RoomRuns.EndingsAreToldAfterTheWakes | internal/service/a2a/service.go:2595-2625 | each participant of an active room has, at any later moment at which the room is not active, been told of its closing exactly once since, so a notice follows every wake of a room that ended |
| RoomRuns.PurgeOnlyWhenDue | internal/service/a2a/service.go:2009-2054 | a room enters PURGED only from CLOSED, only when retention has passed since it closed, or grace has and every viewer of it has left or gone silent; its messages are gone |
| RoomRuns.JoinOnlyReconciles | internal/service/a2a/service.go:798-916 | joining never activates a room; all it can do to the tables is what reconciling does |
| RoomRuns.PolicyTableNeverChanges | internal/service/a2a/service.go:1105-1122 | in no run is a policy violation ever recorded, because its transaction fails |
| RoomRuns.RoomsPersist | internal/repository/postgres/store.go:1052-1102 | a room never disappears, keeps its first agent and turn limit, never swaps its second agent, and its turn index never falls |
| RoomRuns.ConnectedRoomsFollowTheStateMachine | internal/domain/room_state.go:14-27 | once a second agent is attached the whole later history respects the transition relation |
| RoomRuns.RoomsFollowTheStateMachineIff | internal/service/a2a/service.go:735-748 | any room's history respects the relation if and only if no step attaches an agent while the room is closed or purged |
| RoomRuns.UnconnectedRoomsCanReopen | internal/service/a2a/service.go:735-748 | a concrete run in which a closed room without second agent becomes active |
| RoomRuns.TerminalNoticesMatchTransitions | internal/service/a2a/service.go:2595-2625 | in every run an agent's closed (purged) notices grow by exactly the transitions into that state made while it took part |
| RoomRuns.ConnectedRoomsNotifyOnce | internal/service/a2a/service.go:2595-2625 | for a connected room each of those counts is at most one |
| RoomService.Store.Rollback | internal/repository/postgres/store.go:30-42 | puts back every table as it was when the transaction began |
| RoomService.Store.UpdateRoom | internal/repository/postgres/store.go:1052-1102 | read-modify-write of one row: the columns given change, all others and all other rows stay |
| RoomService.Store.AppendMessage | internal/repository/postgres/store.go:1104-1110 | a second message with the same room and turn is a conflict and inserts nothing |
| RoomService.Store.CountMessages | internal/repository/postgres/store.go:1217-1229 | the loops count the sender's and the room's messages since a time |
| RoomService.Store.RevokeRoomScopedTokens | internal/repository/postgres/store.go:823-832 | the update loop revokes exactly the unrevoked tokens of room and agent |
| RoomService.Store.TouchRoomScopedToken | internal/repository/postgres/store.go:813-821 | the update loop extends only an unrevoked token with that hash |
| RoomService.Store.CreateRoomScopedToken | internal/repository/postgres/store.go:1175-1190 | a duplicate hash is a conflict, otherwise one row is added |
| RoomService.Store.CountActiveViewers | internal/repository/postgres/store.go:482-492 | counts the viewers of the room that are still active |
| RoomService.Store.PurgeRoomContent | internal/repository/postgres/store.go:873-895 | deletes messages and viewers of one room and marks it purged |
| RoomService.Service.ReconcileRoom | internal/service/a2a/service.go:1946-2117 | the method computes exactly the reconciled tables, for which RoomAnswers.ReconcileAnswers gives the conditions |
| RoomService.Service.CloseRoom | internal/service/a2a/service.go:1642-1734 | the method's new tables and error are those of the specified call |
| RoomService.Service.CreateListing | internal/service/a2a/service.go:534-633 | the method's new tables are those of the specified call |
| RoomService.Service.ConnectListing | internal/service/a2a/service.go:639-796 | new tables and error as specified, with rollback on every refusal |
| RoomService.Service.JoinRoom | internal/service/a2a/service.go:798-916 | new tables, joined set and error as specified |
| RoomService.Service.CreateRoomAccessToken | internal/service/a2a/service.go:310-361 | new tables and error as specified, with rollback when the hash is taken |
| RoomService.Service.AuthRoomAccess | internal/service/a2a/service.go:264-301 | new tables and whom the request acts as, or the error, as specified; RoomAccess.AuthAnswers says when |
| RoomService.Service.SendMessage | internal/service/a2a/service.go:917-1274 | new tables and result as specified, through all refusals; RoomAnswers.SendAnswers says which and when |
| RoomService.Service.SendTx | internal/service/a2a/service.go:1061-1219 | the transaction either commits the whole turn or leaves the tables as they were |
| TurnLock.FreshRoomOk | internal/service/a2a/service.go:534-633 | a room as it is created, with a message key or from before there were any, satisfies the invariant the theorems start from |
| TurnLock.UniquenessLinearisesTurns | internal/service/a2a/service.go:1035-1165 | with any interleaving of split sends in which no overtaken sender commits, an unpurged room holds exactly turns 0 to turnIndex-1, alternating, a purged one nothing, and turnIndex counts the accepted sends |
| TurnLock.TranscriptStaysExactIff | internal/service/a2a/service.go:1035-1165 | in every run the transcript is exact, and a connected room once purged stays so, if and only if no sender commits in a purged room it read before, and none that read it without a key commits after the turn index has moved on |
| TurnLock.KeylessLateIff | internal/service/a2a/service.go:2808-2824 | the second of these is the case exactly when another send was accepted between its read and its commit |
| TurnLock.KeyedRoomsAreUndisturbedIff | internal/service/a2a/service.go:555-570 | in a room that had its key from the start only a purge can overtake a sender |
| TurnLock.UndisturbedRoomsStayReadable | internal/service/a2a/service.go:2796-2824 | in every run without overtaken commits each stored message is plain or sealed under the key the room has |
| TurnLock.KeylessLateLosesTheKey | internal/service/a2a/service.go:2808-2846 | every late keyless commit replaces the key under which the turn it had read is sealed, so that message can no longer be opened |
| TurnLock.KeylessRoomDoublesATurn | internal/service/a2a/service.go:1048-1053 | a run in which agent A's turn 0, sent through two instances, is stored as turns 0 and 1, the first under a key that is gone, while the room stands at turn 1 and is stuck |
| TurnLock.LateKeylessCommitSticks | internal/service/a2a/service.go:1048-1165 | every late keyless commit leaves the room pointing at a spoken turn, and stuck once no other keyless sender is waiting |
| TurnLock.StuckRoomsRefuseEverySend | internal/repository/postgres/store.go:1104-1110 | in a stuck room every send of any run is refused until a purge empties it |
| TurnLock.PurgedStaysEmptyIff | internal/service/a2a/service.go:1061-1165 | in every run a connected room, with or without a key, that was purged stays purged and empty if and only if no sender whose read came before the purge commits after it |
| TurnLock.LoserIsRefusedIff | internal/repository/postgres/store.go:1794-1803 | of two senders that read the same turn, once one commits the other is accepted if and only if the room has been purged in between or the other read it without a message key |
| TurnLock.LandsAfterCloseIff | internal/service/a2a/service.go:1061-1142 | an accepted message of a sender that read a key lands in a closed room if and only if, among the events between its read and its commit, there is a close and no purge after one, and no other send was accepted |
| TurnLock.WholeSendIsReadThenCommit | internal/service/a2a/service.go:917-1165 | an accepted send of the whole service does to room and transcript what a split read and commit do with nothing in between |
| TurnLock.ReadsAreCheckedAlike | internal/service/a2a/service.go:944-1000 | a split send goes ahead on exactly the rooms, turns and senders that a whole one does |
| TurnLock.MessageCanLandAfterClose | internal/service/a2a/service.go:1061-1142 | a run in which that happens |
| TurnLock.PurgeInBetweenLeavesAMessage | internal/service/a2a/service.go:1061-1142 | a run in which a message survives a purge and brings the room back to CLOSED |
| ContextCas.MarkersNeverLoseAnAck | internal/service/a2a/service.go:1790-1806 | between purges, under any interleaving, an agent's stored marker is the maximum turn it has successfully acknowledged since the last purge, so it never falls |
| ContextCas.HighestIsTheMaximum | internal/service/a2a/service.go:1790-1806 | what is meant by the maximum: it was acknowledged, and nothing acknowledged exceeds it |
| ContextCas.SucceedsIffUndisturbed | internal/repository/postgres/store.go:446-461 | a versioned write goes through exactly when nobody committed since its read |
| ContextCas.WritesAreVersioned | internal/repository/postgres/store.go:446-461 | the row takes a write exactly if there is none yet or it is one version ahead |
| ContextCas.FourHitsAreSurvived | internal/service/a2a/service.go:2367-2406 | a call disturbed by at most four commits of others cannot end in a conflict |
| ContextCas.FifthConflictFails | internal/service/a2a/service.go:2367-2406 | a conflict ends a call if and only if it is its fifth; a conflict never writes anything |
| ContextCas.WriteIsExactIff | internal/repository/postgres/store.go:446-461 | a successful write keeps the markers equal to the highest acknowledgements since the last purge if and only if what it read shows the row's markers, up to the turn it acknowledges itself; a current read always does |
| ContextCas.MarkersAreExactIff | internal/service/a2a/service.go:2367-2406 | in every run with any purges the markers are exact throughout if and only if every successful write passes that check |
| ContextCas.PurgeCanLoseAnAck | internal/repository/postgres/store.go:446-461 | a run with a purge in which an acknowledgement made after it is gone |
| ContextCas.ContextRow.Update | internal/service/a2a/service.go:2367-2406 | the retry loop succeeds exactly when one of its five tries is undisturbed, on top of everything committed before |
| StreamCursor.ListPendingIsComplete | internal/repository/postgres/store.go:151-180 | a batch leaves out a pending delivery only when it is full and the delivery lies beyond its end |
| StreamCursor.ResumeAnswers | internal/service/a2a/service.go:424-460 | a connection is fresh without a cursor, resumes behind a known, acknowledged and unexpired delivery, and otherwise has to recover |
| StreamCursor.ConnectFollows | packages/aya-bridge/src/bridge.js:862-876 | the stream then starts at the first delivery, right behind the cursor, or with the save of a recovery |
| StreamCursor.PendingMeans | internal/repository/postgres/store.go:151-180 | pending means unacknowledged and not expired |
| StreamCursor.ApplyKeeps | packages/aya-bridge/src/bridge.js:648-656 | every step of server, network, bridge, disk and crash keeps the cursor invariant |
| StreamCursor.OwedDeliveriesLieAboveTheCursor | packages/aya-bridge/src/bridge.js:648-656 | in every run each unexpired unacknowledged delivery has a higher position than the cursor in memory and on disk |
| StreamCursor.AcknowledgementsAreInOrder | internal/httpapi/sql_handlers.go:1575-1588 | in every run whatever lies before an acknowledged delivery is acknowledged or has expired |
| StreamCursor.ResumeSkipsNothing | internal/service/a2a/service.go:424-460 | whatever is on disk, a stream resumed from it is sent, in batches of any positive size, exactly the deliveries still owed, in order and each once |
| StreamCursor.OpenStreamsCoverWhatIsOwed | internal/httpapi/sql_handlers.go:1575-1588 | while a stream is open an owed delivery is on the wire, being handled, or still to be sent |
| StreamHandoff.RememberMovesToFront | packages/aya-bridge/src/bridge.js:372-379 | the completed list stays duplicate-free and at most 64 long, gains the key in front, and forgets nothing unless it was full |
| StreamHandoff.ForgetRoomRemovesARoom | packages/aya-bridge/src/bridge.js:381-389 | exactly the keys of one room are dropped |
| StreamHandoff.ForgottenForAReason | packages/aya-bridge/src/bridge.js:372-389 | a completed wake leaves the list only in a crash, to make place once 64 are listed, with a terminal delivery of its room, or with a recovery that lists its room as ended |
| StreamHandoff.ApplyKeeps | packages/aya-bridge/src/bridge.js:594-858 | every step keeps the handoff invariant, with overlapping drains, crashes and recoveries that drop only jobs of rooms in the server's listing |
| StreamRecovery.HandoffIsDurable | packages/aya-bridge/src/bridge.js:760-858 | in every run in which no older save overtakes or can still overtake the one a recovery waited for, each acknowledged keyed wake was accepted by the hook, is queued on disk, was followed by the end of its room, is answered, or is owed by a recovery that both cursors still call for; completed lists are duplicate-free, at most 64 long, and hold only accepted wakes |
| StreamRecovery.AtRestNothingIsOwed | packages/aya-bridge/src/bridge.js:760-805 | when no recovery is due, each acknowledged keyed wake is accepted, queued, followed by the end of its room, or answered |
| StreamRecovery.OnlyOwedWakesAreInDoubt | packages/aya-bridge/src/bridge.js:760-805 | whatever the disk does, only jobs an interrupted recovery has dropped can be in doubt |
| StreamRecovery.OwedStaysDueIff | packages/aya-bridge/src/bridge.js:760-805 | in every run what is owed stays due throughout if and only if no crash brings back a cursor the server still accepts while something is owed |
| StreamRecovery.SettledSavesMakeCrashesSafe | packages/aya-bridge/src/bridge.js:348-350 | no crash does so when, as the listing arrives, the disk has the cursor in memory and no save with another cursor is on its way |
| StreamRaces.LateSaveLosesAnOwedWake | packages/aya-bridge/src/bridge.js:348-350 | a run in which an older save lands too late and a dropped job is lost |
| StreamQueue.StepKeepsTheQueueCleanIff | packages/aya-bridge/src/bridge.js:594-642 | a queue without repeats and disjoint from the completed list stays so over any step if and only if a file written is already there or its wake neither queued nor completed, a wake completed is no longer queued, and a crash brings back a disjoint list |
| StreamQueue.QueueIsCleanIff | packages/aya-bridge/src/bridge.js:594-758 | it is so throughout a run if and only if every step passes that check |
| StreamQueue.SerialQueueIsClean | packages/aya-bridge/src/bridge.js:727-758 | when drains do not overlap, also with saves that fail, no wake is queued twice and none is both queued and completed, in memory or on disk |
| StreamRaces.OverlappingDrainsRequeueACompletedWake | packages/aya-bridge/src/bridge.js:932-946 | a run with overlapping drains that queues a completed wake again |
| BridgeDaemon.RecentWakesAreKnown | packages/aya-bridge/src/bridge.js:372-379 | the k-th last wake taken stands among the first k of the list, so the last 64 are known |
| BridgeDaemon.Daemon.RememberCompletedWakeKey | packages/aya-bridge/src/bridge.js:372-379 | the filter loop and slice compute the specified list |
| BridgeDaemon.Daemon.ForgetCompletedWakeKeysForRoom | packages/aya-bridge/src/bridge.js:381-389 | the filter loop computes the specified list |
| BridgeDaemon.Daemon.FindEquivalentPendingWakeJob | packages/aya-bridge/src/bridge.js:573-592 | finds a queued job with the same key if and only if there is one |
| BridgeDaemon.Daemon.EnqueueWakeJob | packages/aya-bridge/src/bridge.js:594-624 | writes a file only if the wake is neither completed, nor queued, nor written already |
| BridgeDaemon.Daemon.DropWakeJobsForRoom | packages/aya-bridge/src/bridge.js:626-642 | removes exactly the jobs of the room |
| BridgeDaemon.Daemon.DrainWakeQueue | packages/aya-bridge/src/bridge.js:727-758 | tries each job once; accepted jobs leave the queue and become known in order, refused ones stay with one more attempt |
| BridgeDaemon.EnqueuedHoldsTheWake | packages/aya-bridge/src/bridge.js:594-624 | handing a job to the queue leaves its wake completed or queued, and every other job as it was |
| BridgeDaemon.Daemon.HandleTurnReady | packages/aya-bridge/src/bridge.js:807-843 | a known wake is only acknowledged; otherwise, with a room token, its job is handed to the queue before the acknowledgement, the cursor moves only if that arrives, and then the queue is drained; without a token nothing changes |
| BridgeDaemon.Daemon.HandleTerminal | packages/aya-bridge/src/bridge.js:845-858 | queue and completed list lose exactly the room; the cursor moves only on acknowledgement |
| BridgeDaemon.Daemon.RecoverTerminal | packages/aya-bridge/src/bridge.js:760-772 | nothing of an ended room stays queued or remembered; all else stays |
| BridgeDaemon.Daemon.RecoverActionable | packages/aya-bridge/src/bridge.js:773-799 | each listed wake is known to be done or is its room's only job, the last entry of a room counting; other rooms keep their jobs |
| Outbox.BatchHoldsCandidates | internal/repository/postgres/store.go:1740-1762 | a batch is in id order, within the limit, and holds only candidates nobody has locked |
| Outbox.BatchIsComplete | internal/repository/postgres/store.go:1740-1762 | an unlocked candidate is left out only of a full batch |
| Outbox.OneRowPerLane | internal/repository/postgres/store.go:1749-1757 | one claim takes at most one row of a lane |
| OutboxClaims.CandidatesAreClaimable | internal/repository/postgres/store.go:1740-1762 | a candidate is an undeleted row, first unfinished in its lane, that is pending with its time come, or claimed and not updated since the reclaim limit |
| OutboxClaims.ClaimTakesExactly | internal/repository/postgres/store.go:1734-1792 | a claim takes only such rows, unlocked, lowest ids first, and leaves one out only with a full batch; what it takes is stamped with its clock and one attempt more, all else stays |
| OutboxClaims.RetriesWaitUntilDue | internal/repository/postgres/store.go:765-775 | in every run the next claim of a row after a report to retry at a time has a clock no earlier than that time |
| OutboxClaims.ClaimsAreNotTakenOverEarly | internal/repository/postgres/store.go:1740-1762 | in every run a row claimed at a clock is taken over only by a claim whose reclaim limit has reached that clock |
| OutboxClaims.ReportsDecide | internal/worker/webhooks/worker.go:131-225 | a report ends as delivered, dead or pending exactly as endpoint, status code and attempt demand, and touches nothing else of the row |
| Outbox.ApplyKeeps | internal/repository/postgres/store.go:754-786 | enqueue, claim, prompt finish and deletion keep lane order and delivery order |
| Outbox.LanesAreFifo | internal/repository/postgres/store.go:1734-1792 | in every prompt run finished rows of a lane come first and no row after an open one was ever tried |
| Outbox.LanesAreServedInOrder | internal/repository/postgres/store.go:1734-1792 | per lane claims never go back to an earlier row, and deliveries are strictly increasing |
| Outbox.AttemptsAreBounded | internal/worker/webhooks/worker.go:198-225 | in every run, however late workers report on what they claimed, a row's attempts never exceed the maximum plus the times it was taken over, and a row waiting for a retry has one left |
| Outbox.MarkKeepsFifoIff | internal/repository/postgres/store.go:754-786 | exactly when an update by id keeps lane order: a retry if nothing behind was tried, an ending if nothing before is open |
| Outbox.LanesStayFifoIff | internal/repository/postgres/store.go:754-786 | lanes are in order throughout a run if and only if every report passes that check |
| Outbox.StaleWorkersBreakTheOrder | internal/repository/postgres/store.go:765-775 | a run in which a worker that outlived its claim breaks the order |
| OutboxProgress.WorkIsBounded | internal/worker/webhooks/worker.go:198-225 | in every run, stale reports included, the claims and reports that do anything plus those left at the end never exceed those left at the start and two for each attempt of a new row |
| OutboxProgress.AllWorkIsBounded | internal/worker/webhooks/worker.go:198-225 | from an empty outbox they are at most two for each row and each attempt, where a row has the maximum and one for each time it may be taken over |
| OutboxProgress.OpenRowsCanBeClaimed | internal/repository/postgres/store.go:1740-1762 | late enough, a claim of any size takes a row while one is open |
| OutboxProgress.OpenRowsMeanMoreWork | internal/worker/webhooks/worker.go:119-129 | while a row is open some claim changes something |
| OutboxProgress.EnoughWorkSettlesEverything | internal/worker/webhooks/worker.go:198-225 | a run without new rows that does as much work as the measure allows ends with every row delivered, dead or deleted |
| OutboxProgress.BusyWorkersSettleEverything | internal/worker/webhooks/worker.go:119-225 | if every step claims or reports something while a row is open, then within as many steps as the measure every row is delivered, dead or deleted, late reports or not |
| OutboxProgress.EveryRowSettles | internal/worker/webhooks/worker.go:119-225 | from every box that workers can reach a prompt run without new rows, no longer than the measure, settles every row |
| WebhookWorker.OutboxStore.ClaimPendingWebhookDeliveries | internal/repository/postgres/store.go:1734-1792 | claims only rows that are due or abandoned and first open in their lane, leaves such a row out only with a full batch, and returns each new attempt number |
| WebhookWorker.OutboxStore.MarkWebhookOutbox | internal/repository/postgres/store.go:754-786 | updates by id alone, and nothing when the row is gone |
| WebhookWorker.Worker.constructor | internal/worker/webhooks/worker.go:59-101 | settings out of range become 20 rows, 45 seconds, 8 attempts, 5 seconds and 5 minutes, the others are kept |
| WebhookWorker.Worker.RunOnce | internal/worker/webhooks/worker.go:119-225 | rows that cannot be claimed are untouched; each that can ends delivered, dead or pending (until the specified retry time, each by its own clock readings) exactly as endpoint, reply and attempt number demand, stays claimed only if its update was lost, and is left out only by a full batch |
| Backoff.BackoffIsRightIff | internal/worker/webhooks/worker.go:244-252 | for every attempt the 64-bit loop yields min(base * 2^(n-1), cap), if and only if some doubling reaches the cap within 64 bits |
| Backoff.HugeSettingsWrap | internal/worker/webhooks/worker.go:244-252 | a base and a cap that fit in 64 bits and still make the second delay negative |
| Backoff.RoomToDoubleIsEnough | internal/worker/webhooks/worker.go:244-252 | twice the larger setting fitting in 64 bits is enough for that |
| Backoff.IdealGrows | internal/worker/webhooks/worker.go:244-252 | delays never shrink from one attempt to the next and never exceed the cap |
| Backoff.RetryTimeIsInRange | internal/worker/webhooks/worker.go:244-264 | with settings that leave room the retry is due at least the intended delay b after now and less than a quarter of b later, at exactly b when b/4 is zero |
| Backoff.EveryDelayCanBeDrawn | internal/worker/webhooks/worker.go:244-264 | every moment from b after now up to b and a quarter can be drawn |
| Backoff.NextRetryTime | internal/worker/webhooks/worker.go:244-264 | the doubling loop with wrap-around and the jitter draw compute the specified time, hence within [b, b + b/4) |
| EventHub.Hub.constructor | internal/httpapi/event_hub.go:29-37 | a non-positive buffer becomes 64 |
| EventHub.Hub.Subscribe | internal/httpapi/event_hub.go:39-63 | a fresh open subscription, or a closed one for no room; all others unchanged |
| EventHub.Hub.Publish | internal/httpapi/event_hub.go:65-108 | every served reader of the room gets the event behind what it holds if its buffer has a place, and is closed and marked dropped with what it holds if not; nobody else changes |
| EventHub.Hub.Receive | internal/httpapi/event_hub.go:120-125 | a reader takes the oldest event of its channel, or learns whether it is closed |
| EventHub.ReadersMissNothing | internal/httpapi/event_hub.go:39-160 | over any subscriptions, publishes, reads and closings, a served reader has had or holds exactly its room's events since it came, in order, and one cut off the first of them |
| EventHub.ForRoomIsTheRooms | internal/httpapi/event_hub.go:65-108 | these are each event of the room as often as it was published, and no other |
| EventHub.ForRoomKeepsOrder | internal/httpapi/event_hub.go:65-108 | and in the order of publishing |
| EventHub.Hub.Unsubscribe | internal/httpapi/event_hub.go:143-160 | closes that one subscription if it is still served, and nothing else |
| EventHub.Hub.SubscriberCount | internal/httpapi/event_hub.go:110-118 | counts the served subscriptions of a room |
| EventStream.WrittenIdsIncrease | internal/httpapi/sql_handlers.go:1010-1121 | under any interleaving and any channel content the ids written are strictly increasing and beyond the requested one |
| EventStream.PublishReachesReaders | internal/httpapi/event_hub.go:79-86 | a published event is put behind what the reader's channel holds if there is a place, and the reader is dropped exactly if there is none |
| EventStream.NothingIsMissed | internal/httpapi/sql_handlers.go:1010-1121 | with orderly publishing and each page within the cap or reaching up to the channel, at every moment exactly the events after the requested one up to the last received were written, also for a dropped reader |
| EventStream.CaughtUpMeansComplete | internal/httpapi/sql_handlers.go:1088-1121 | a live, undropped reader with an empty channel has been sent everything published |
| EventStream.ReconnectContinues | internal/httpapi/sql_handlers.go:1367-1384 | reconnecting at the last id received continues the sequence without gap or repeat |
| EventStream.HandoverIsCompleteIff | internal/httpapi/sql_handlers.go:1020-1121 | after a page of the replay no orderly continuation misses an event if and only if the limit is at most 200 or the first event in the channel lies within 200 of the page's start |
| EventStream.SmallPagesAreSafe | internal/service/a2a/service.go:1538-1540 | a limit of at most 200 satisfies that condition in every run |
| EventStream.LargeLimitsSkipEvents | internal/httpapi/sql_handlers.go:1042-1044 | beyond that, for every such request the next live event is written with the one after the page missing |
| EventStream.ReplayHistory | internal/httpapi/sql_handlers.go:1020-1045 | the replay loop writes the whole history after the given id for limits up to 200, one page beyond, and nothing for an unknown id |
| Limiter.CompactedKeepsRecent | internal/httpapi/sql_handlers.go:1787-1798 | pruning in place without storing the new length loses no recent admission |
| Limiter.CompactedOvercountsIff | internal/httpapi/sql_handlers.go:1703-1717 | for a sorted window it counts some twice exactly when something was dropped and something kept |
| Limiter.MessageLimiterIsExact | internal/service/a2a/service.go:2119-2153 | a message limiter refuses exactly when the limit was admitted within the last minute, and its admissions are spaced accordingly |
| Limiter.CrowdsTakeAMinute | internal/service/a2a/service.go:2119-2153 | spaced admissions: more than the limit never fit in less than a minute |
| Limiter.OutcomeKeeps | internal/httpapi/sql_handlers.go:1703-1723 | every outcome, stored or not, keeps the window above its log of admissions |
| Limiter.StreamLimitsHold | internal/httpapi/sql_handlers.go:1679-1738 | in every run at most 30 opens a minute per room and agent, 120 per address, and the slot count equals the unreleased handles, at most 5 |
| Limiter.SlotAnswers | internal/httpapi/sql_handlers.go:1679-1723 | a slot is granted if and only if fewer than 5 are held and the windows of key and address show fewer than 30 and 120 opens within the last minute; the first of these that fails is the reason |
| Limiter.SlotWrites | internal/httpapi/sql_handlers.go:1679-1723 | what each answer stores: only a grant takes a slot and counts, and which windows are shortened or only compacted |
| InPlaceLimiter.PruneTimeWindow | internal/httpapi/sql_handlers.go:1787-1798 | the loop keeps the recent times at the front of the same array, and the old header sees the compacted list |
| InPlaceLimiter.Append | internal/httpapi/sql_handlers.go:1722-1723 | appends in place while there is capacity, in a new array otherwise |
| InPlaceLimiter.MessageLimiter.AllowMessage | internal/httpapi/sql_handlers.go:1800-1824 | admits exactly when the window shows fewer than the limit within the last minute, and stores as specified; every other key's window is untouched |
| InPlaceLimiter.StreamSlots.AcquireStreamSlot | internal/httpapi/sql_handlers.go:1679-1738 | verdict, both windows (with the unstored compaction), counts and handles as specified, over shared arrays |
| InPlaceLimiter.StreamSlots.ReleaseStreamSlot | internal/httpapi/sql_handlers.go:1725-1738 | a slot is given back once, and the count is deleted at zero |
| TypingHub.SnapshotIsTheLog | internal/httpapi/typing_hub.go:89-127 | after any run a snapshot shows an actor with an expiry if and only if that is when its last unended start runs out, in the future |
| TypingHub.LastStartIsTheLastOne | internal/httpapi/typing_hub.go:129-241 | what the log says: a start with no later start, stop or clear |
| TypingHub.SupersededTimersAreHarmless | internal/httpapi/typing_hub.go:243-267 | no timer, however late or stale, removes a presence that is still running |
| TypingHub.TimersRemoveTheirOwn | internal/httpapi/typing_hub.go:243-267 | a timer that fires removes the presence it was set for if that is still there, and no other |
| TypingHub.StartIsShown | internal/httpapi/typing_hub.go:129-169 | a start shows its actor from now until its time runs out, and keeps the other running presences of the room |
| TypingHub.ClampTTL | internal/httpapi/typing_hub.go:137-145 | below 1000 ms a time to live becomes 7000, above 30000 it becomes 30000, in between it is kept |
| TypingHub.PresenceHub.PruneExpired | internal/httpapi/typing_hub.go:276-293 | the loop removes exactly the presences that have run out, and the room if none is left |
| TypingHub.PresenceHub.StartTyping | internal/httpapi/typing_hub.go:129-169 | prunes, then records the presence with a clamped time to live |
| TypingHub.PresenceHub.StopTyping | internal/httpapi/typing_hub.go:171-205 | removes the actor, and says whether it was there |
| TypingHub.PresenceHub.ClearRoom | internal/httpapi/typing_hub.go:207-241 | empties the room and names each of its actors once |
| TypingHub.PresenceHub.Snapshot | internal/httpapi/typing_hub.go:74-99 | prunes, and lists each remaining actor once |
| TypingHub.PresenceHub.ExpireTyping | internal/httpapi/typing_hub.go:243-267 | removes a presence only if it is the one the timer was set for |
| SseFraming.DrainInSteps | packages/aya-bridge/src/bridge.js:247-262 | draining a text in two parts gives the same events and remainder as draining it whole |
| SseFraming.DrainBuffer | packages/aya-bridge/src/bridge.js:247-262 | the loop yields all complete frames and keeps the rest |
| SseFraming.ReturnsDoNotMatter | packages/aya-bridge/src/bridge.js:264-266 | a line may end with a return and a newline |
| SseFraming.DataLinesJoin | packages/aya-bridge/src/bridge.js:280-293 | data lines are collected in order, to be joined by line breaks |
| SseFraming.FeedIsDrain | packages/aya-bridge/src/bridge.js:214-262 | parsing chunk by chunk gives the events and the rest of parsing the whole text |
| SseFraming.ParseSSE | packages/aya-bridge/src/bridge.js:214-245 | for any chunking the events are those of the whole text, and for text the writers wrote exactly the events written |
| SseFraming.FrameParses | packages/aya-bridge/src/bridge.js:264-293 | each kind of frame parses to the id, event name and data written, or to nothing |
| SseFraming.WritesRoundTrip | internal/httpapi/sql_handlers.go:1515-1559 | any sequence of writes parses to exactly its control and delivery events, in order, with nothing left over (section 9.2 of the WHATWG HTML Standard) |
| SseFraming.ChunksRoundTrip | packages/aya-bridge/src/bridge.js:214-245 | fed the writers' text in any chunks, the parser holds exactly the events written and nothing unfinished |
| SseFraming.CutStreamsYieldAPrefix | packages/aya-bridge/src/bridge.js:214-262 | a connection cut anywhere yields a prefix of those events, never part of one |
| SecretCipher.KeysetIsTheLastBinding | internal/security/secretcipher/cipher.go:211-230 | the key set binds an id to a material exactly when the last item naming it does |
| SecretCipher.KeysetIsTrimmed | internal/security/secretcipher/cipher.go:211-230 | ids and materials are trimmed and not blank |
| SecretCipher.SplitIsExact | internal/security/secretcipher/cipher.go:211-214 | splitting at a separator yields the pieces between the separators, all of the text, in order |
| SecretCipher.SplitFindsThePieces | internal/security/secretcipher/cipher.go:211-214 | pieces without separators that are joined are found again |
| SecretCipher.ItemsAreBindings | internal/security/secretcipher/cipher.go:215-228 | an item binds what is left of its first equals sign to what is right of it, both trimmed and not blank; without one it binds nothing |
| SecretCipher.ParseKeyset | internal/security/secretcipher/cipher.go:211-230 | the loop computes that key set |
| SecretCipher.FreshKeyID | internal/security/secretcipher/cipher.go:43-56 | the search ends, within as many steps as there are keys, at the first candidate that is free |
| SecretCipher.NewWithKeyset | internal/security/secretcipher/cipher.go:36-81 | the primary id is present, no key set entry is overwritten, and it is v1, the first free rotation id or the least id as the case demands |
| SecretCipher.PrimaryIds | internal/security/secretcipher/cipher.go:36-81 | the primary id is v1, or begins with current when a key set has v1 beside own material, or is the least id of a key set without v1 |
| SecretCipher.SealedLayout | internal/security/secretcipher/cipher.go:83-93 | a sealed value is enc:v1:, the primary id, a colon, and the sealed text |
| SecretCipher.DecryptValue | internal/security/secretcipher/cipher.go:95-165 | the loops over keys compute the specified decryption |
| SecretCipher.KeyedValuesSurviveRotation | internal/security/secretcipher/cipher.go:83-165 | over any ideal cipher a value sealed under a colon-free id decrypts wherever its key is present under any id |
| SecretCipher.LegacyValuesSurviveRotation | internal/security/secretcipher/cipher.go:117-131 | and so does a value in the layout without an id |
| SecretCipher.RoundTripIffNoColon | internal/security/secretcipher/cipher.go:232-243 | a cipher reads back what it writes if and only if its primary id has no colon |
| SecretCipher.OwnMaterialMeansCleanId | internal/security/secretcipher/cipher.go:36-81 | with key material of its own a deployment never picks such an id |
| SecretCipher.RotationKeepsSecretsIff | internal/security/secretcipher/cipher.go:36-165 | whatever configured the writer, once its material is in the reader's key set under any id a keyed value decrypts if and only if the writer's primary id has no colon, and one without an id always does |
| SecretCipher.ColonIdCanBeConfigured | internal/security/secretcipher/cipher.go:63-68 | the key set "a:b=m" alone makes "a:b" the primary id, and what it seals cannot be read back |
| SecretCipher.PlainValuesPassThrough | internal/security/secretcipher/cipher.go:95-104 | a value stored before encryption is read as it is |
| SecretCipher.BlankValuesAreRefused | internal/security/secretcipher/cipher.go:95-110 | a blank value, or the prefix alone, cannot be read |
| SecretCipher.IdealExists | internal/security/secretcipher/cipher.go:167-209 | what is assumed of the cipher and its encoding can be met |

## Left out

- HTTP parsing and routing, JSON encoding, access logs, the web UI, the command line, configuration and scripts: input and output around the modelled core.
- The in-memory application (internal/httpapi/api.go): a smaller copy of the same room machine.
- Audit rows, prompt text, conversation summaries and prompt-bundle fitting: no property here depends on them; the bundle hash check is a parameter of a send.
- AES-GCM, SHA-256, base64, random ids and UTF-8 decoding: an ideal cipher, an arbitrary hash, a colon-free encoding, fresh values and plain text.
- Room events inside the room service: their ids and order are modelled in the event stream alone, where a purge of the room does not occur.
- The per-room reconcile mutex: context synchronisation, which takes it again for the same room, is a separate later step, so nothing is claimed about deadlock.
- Stream leases kept in the database (internal/repository/postgres/store.go:612-743): the same limits by counting rows; only the in-memory slots are modelled.
- Requests whose remote address is unknown: they share one window or skip the limit; the limiters here take the key they are given.
- The policy-violation window outside shared mode: the same pruning loop as the other windows, with a block time on top.
- Typing broadcasts and the two phases of a publish running apart: they interleave outside the lock, and gap freedom is claimed for a publish as one step.
- The bridge's room-token files, session login and reconnect delays: they do not decide which wakes are queued, acknowledged or completed.
- The order of files in a drain: the daemon sorts them by name, the model allows any order.
- Whitespace that only one of the two languages trims (U+0085, U+FEFF): trimming uses the characters both agree on.
- AgentStream: delivery positions stand for sequence numbers committed in order, and each run follows one agent with one bridge. A recovery listing is taken to be what RoomRuns.WakesAreAnsweredEndedOrActionable says of the tables; a room is listed as ended when the last this agent was told about it is its end (RoomRuns.EndingsAreToldAfterTheWakes).
- Outbox: row ids stand for insertions committed in id order. A worker reports at most once on each claim it was given.
- Outbox.LanesAreFifo: claimed for workers that finish a row only while they hold its current claim, because the store does not check it; Outbox.LanesStayFifoIff says exactly when it holds without that.
- StreamRecovery.HandoffIsDurable: needs older saves to land before the one a recovery waits for, because the code does not order them; StreamRecovery.OwedStaysDueIff says exactly when it holds without that.
- StreamQueue.SerialQueueIsClean: needs drains that do not overlap, because the timer's drain runs beside the handler's; StreamQueue.QueueIsCleanIff says exactly when it holds without that.
- EventStream.NothingIsMissed: needs publishing in commit order, and pages that reach up to the channel; EventStream.HandoverIsCompleteIff shows that condition exact.
- WebhookWorker.Worker.RunOnce: states one worker's round on a table no other worker changes meanwhile; competing workers are covered by the runs of Outbox.
- SseFraming.FrameParses: ids, event names and encoded data are single lines without blanks around them, which is what the writers' callers pass.
- RoomService.Store.Rollback: says what is restored; that every refusing transaction is rolled back is in the contracts of the service methods that call it.
- RoomService.Store.UpdateRoom: does not model the topic column, which no property here reads, nor the message key; what giving a key to a room that was read without one does to its turns and its messages is in TurnLock.
- RoomService.Store.PurgeRoomContent: does not model the deleted room events and context document, which live in EventStream and ContextCas.
- RoomService.Service.ReconcileRoom: does not model room events and outbox rows written in the same transaction, nor the second read under the mutex.
- RoomService.Service.CloseRoom: does not model room events, outbox rows and the context synchronisation that follows.
- RoomService.Service.CreateListing: does not model the room events and outbox rows of its transaction.
- RoomService.Service.ConnectListing: does not model the room events and outbox rows of its transaction.
- RoomService.Service.JoinRoom: does not model room events and the context synchronisation that follows.
- RoomService.Service.AuthRoomAccess: whether the session is valid and whether the scope allows the action are parameters.
- RoomService.Service.SendMessage: one step, so TurnLock has what happens between read and commit; does not model room events, outbox rows, audit rows and the limiters used outside shared mode (those are in Limiter).
- RoomService.Service.SendTx: does not model the room events and outbox rows of its transaction, nor the branch that gives the room a message key: here read and transaction are one step, so the row returned is the row read; TurnLock has the branch with the two apart.
