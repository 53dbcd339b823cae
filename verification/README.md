# GlyphRelay: verified model

GlyphRelay shares a screen from one sender to one receiver. This Dafny project models the parts of it whose
correctness spans many steps, and proves what they are for:

- **Signaling** (`Signaling*`, `Session*`, `Store*`, `Relay`, `Negotiation`, `SequenceAgreement`, `ReceiverScript`,
  `Backpressure*`). The session store as a mutable object refining a transition function over the whole store; the
  invariant every run keeps; one-time joins and generations; the offer/answer schedule and the relayed texts; which
  timer removes whom, told from what was accepted when; the store, the server's dispatch and any number of receiver
  pages joined by lossless FIFO sockets, first with sockets that take everything, then with sockets that may be full at
  any moment.
- **Rate controller** (`Controller*`, `RateController`). The degradation stack, the five link states, the dwell timers,
  the smoothed estimators and what a tick's three predicates say of the trace, over every run of ticks.
- **Recording** (`CrashModel`, `RecordingPrograms`). Live and durable names and file versions, with a crash possible
  after every operation, for operation lists of every order and length; each outcome is told from the list alone.
- **Checkpoints** (`Checkpoint*`). The byte format of an evaluation checkpoint, its printer and parser, and resuming an
  evaluation over any pattern of interruptions.
- **Message rate limit** (`RateLimit`), **bitrate search** (`BitrateSearch`, `BitrateAim`), **RTP sender** against the separate
  validator of its trace (`RtpSender`).

`dafny verify dfyconfig.toml` checks everything. Times in the store and in the limiter are reals, times in the
controller integers, both in milliseconds. Clock readings, random identifiers and capabilities, the outcome of foreign
calls and the moment of an interruption are parameters, so every theorem holds for all of them. A capability digest is
the tuple it was computed from, that is, the keyed hash is taken to be injective.

Each mutable component is a class or a method with loops, proved equal to a function of its old state; the theorems are
about those functions and about runs of them.

Where a promise turns out not to hold of the code as it is, the exact condition is proved, with an input or a run on
which it fails:

- A reservation admitted when the generations are exhausted leaves an incoherent record, and nothing else does
  (`StoreInvariant.ApplyKeepsExactly`); runs get there (`SignalingWitness.GenerationsRunOut`).
- A message under a stale receiver binding evicts the current receiver (`StoreInvariant.StaleMessageDetaches`), in a
  reachable world too (`SignalingWitness.EvictionReachable`); only `disconnect` ignores stale bindings
  (`StoreRuns.StaleForever`).
- A receiver page loses its seat when its heartbeat acknowledgement is not for the latest heartbeat
  (`SequenceAgreement.HeartbeatAckExactly`), although it acknowledged everything it was sent
  (`SignalingWitness.LateAckReachable`).
- Under backpressure a receiver page's messages stay consecutive if and only if no tick finds a session with both
  heartbeats due, its owner's socket full and its receiver's open and not full (`BackpressureTick.TickOrderExactly`,
  `BackpressureRuns.NumberingExactly`; `SignalingWitness.OvertakingReachable`).
- After a recovery entry, calm ticks lead to STABLE if and only if no tick since the entry was non-compliant
  (`ControllerStability.StableExactly`; `ControllerStability.StuckRun`).
- A recording's units are all durable in media and journal if and only if the last commit covers them
  (`RecordingPrograms.PublishExactly`; `RecordingPrograms.UncommittedUnitIsLost`).
- A checkpoint reads back if and only if it has at most 4096 bytes and its fields fit
  (`CheckpointRoundTrip.RoundTripExactly`, `CheckpointResume.CompletesExactly`); one byte more is written without
  complaint and stops every later attempt (`CheckpointResume.OversizedStopsResume`).
- A bitrate search restarted between recording a trial and recording its verdict goes on the same if and only if the
  verdict was not about that trial (`BitrateSearch.RestartAgreesExactly`; `BitrateSearch.RestartLosesPass`).
- The search asks for the free rate nearest the quotient only up to one bit a second when the rounded quotient is taken
  (`BitrateAim.NextRateAims`); the nearest may be passed over then (`BitrateAim.DisplacedGoesBelow`).
- A sender report passes the trace checks if and only if it was sent at 30 frames a second with at least two frames
  (`RtpSender.ReportValidExactly`); that some recovery happened does not make its epoch rise
  (`RtpSender.EpochRisesExactly`; `RtpSender.EarlyRecoveryPasses`).

The message limit needs a clock that does not go back, which its callers' clock never does; `RateLimit.AgreeExactly`
says what happens otherwise.

## Model

| member | source | states |
|---|---|---|
| `SessionStore.NewStore` | signaling/session-state.ts:331-344 | a store exists exactly for 1 to 1024 sessions and a key of at least 32 bytes, and starts empty |
| `SessionStore.SignalingSessionStore.UniqueSessionId` | signaling/session-state.ts:1109-1117 | the first of the drawn identifiers that no session has, or none |
| `SessionStore.SignalingSessionStore.Generation` | signaling/session-state.ts:1102-1107 | hands out the next generation once, or refuses when they are exhausted |
| `SessionStore.SignalingSessionStore.CreateSession` | signaling/session-state.ts:476-523 | new store and response of a creation: refusal, exception, or a fresh owner-only record |
| `SessionStore.SignalingSessionStore.ReserveJoin` | signaling/session-state.ts:525-576 | new store and response of a reservation, including the record written before the generation is drawn |
| `SessionStore.SignalingSessionStore.Emit` | signaling/session-state.ts:986-1004 | the peer takes the next server number, or nothing is sent and nothing changes |
| `SessionStore.SignalingSessionStore.DropReceiver` | signaling/session-state.ts:887-920 | the seat, the join and everything negotiated are cleared, the owner told, the receiver closed if asked |
| `SessionStore.SignalingSessionStore.RevokeSession` | signaling/session-state.ts:922-962 | receiver and, if asked, owner told and closed in that order, and the record deleted |
| `SessionStore.SignalingSessionStore.ExpireSession` | signaling/session-state.ts:964-984 | both told and closed, receiver first, and the record deleted |
| `SessionStore.SignalingSessionStore.ForwardNotice` | signaling/session-state.ts:853-874 | forwarded to the other peer, or the failure for a missing destination |
| `SessionStore.SignalingSessionStore.CreateJoin` | signaling/session-state.ts:717-746 | a join opens only on an owner-only session, with the earlier of its lifetime and the absolute deadline |
| `SessionStore.SignalingSessionStore.AnswerOffer` | signaling/session-state.ts:748-776 | an answer only to the outstanding offer, first or restart |
| `SessionStore.SignalingSessionStore.ChangeIce` | signaling/session-state.ts:778-802 | grace set, cleared, or the receiver dropped; the session revoked outside CONNECTED |
| `SessionStore.SignalingSessionStore.AcknowledgeHeartbeat` | signaling/session-state.ts:804-828 | accepted only for the latest heartbeat of that peer |
| `SessionStore.SignalingSessionStore.ExpireOverdue` | signaling/session-state.ts:1047-1100 | what the deadlines demand, in the source's order, with an expired join first closed |
| `SessionStore.SignalingSessionStore.HandleOwner` | signaling/session-state.ts:578-642 | deadlines, gate, counter and request of an owner message leave exactly the specified record or none |
| `SessionStore.SignalingSessionStore.HandleReceiver` | signaling/session-state.ts:644-715 | the same of a receiver message |
| `SessionStore.SignalingSessionStore.HandleBound` | signaling/session-state.ts:377-394 | a bound message changes its own session only, and nothing if that is gone |
| `SessionStore.SignalingSessionStore.Beat` | signaling/session-state.ts:830-851 | each peer whose heartbeat is due gets the next one, owner first |
| `SessionStore.SignalingSessionStore.Handle` | signaling/session-state.ts:377-394 | the whole new store and response of any message, bound or not |
| `SessionStore.SignalingSessionStore.Disconnect` | signaling/session-state.ts:396-414 | the whole new store and actions; a binding that does not match changes nothing |
| `SessionStore.SignalingSessionStore.Tick` | signaling/session-state.ts:416-474 | the timer pass over all sessions equals visiting each once with deletion and write-back |
| `StoreInvariant.ApplyKeeps` | signaling/session-state.ts:377-576 | every event keeps the store invariant: receiver, join, answer, restart and ICE fields match the phase, deadlines nested, generations distinct, sessions within the limit |
| `StoreInvariant.ApplyKeepsExactly` | signaling/session-state.ts:525-576 | the invariant is lost if and only if a reservation is admitted with the generations exhausted |
| `StoreInvariant.MessageSound` | signaling/session-state.ts:578-802 | any message leaves a coherent continuation of the session or deletes it |
| `StoreInvariant.DestinationNeverMissing` | signaling/session-state.ts:853-874 | no message ever reports a missing destination: those branches are unreachable |
| `StoreInvariant.TickLeavesSessionsInside` | signaling/session-state.ts:416-474 | after a tick exactly the sessions with no fatal deadline behind them survive, each strictly inside all its deadlines, also those changed in the same pass |
| `StoreInvariant.OverdueInside` | signaling/session-state.ts:1047-1100 | the checks before a message delete exactly the doomed records and leave every other strictly inside its deadlines |
| `StoreInvariant.StaleMessageDetaches` | signaling/session-state.ts:659-670 | a receiver message under a binding that does not match is refused but closes the current receiver and withdraws an open join |
| `StoreRuns.RunValid` | signaling/session-state.ts:323-474 | every state of every run satisfies the invariant |
| `StoreRuns.ApplySamePeers` | signaling/session-state.ts:1006-1028 | no event makes an issued binding match that did not match before; a new binding carries an unused generation |
| `StoreRuns.StaleForever` | signaling/session-state.ts:396-414 | a binding that stops matching never matches again, and disconnecting it changes nothing and emits nothing |
| `StoreRuns.GenerationsNeverReused` | signaling/session-state.ts:1102-1107 | bindings handed out at different steps of a run have strictly increasing generations |
| `StoreRuns.JoinOpensOnlyByCreate` | signaling/session-state.ts:717-746 | a join is open after an event only if it was open before or the event is the accepted CREATE_JOIN that issued it |
| `StoreRuns.JoinsAreOneTime` | signaling/session-state.ts:525-576 | between two accepted reservations lies an accepted CREATE_JOIN whose capability the later one presents before the expiry its JOIN_CREATED announced |
| `StoreRuns.ReservationFollowsCreate` | signaling/session-state.ts:525-576 | the first reservation too presents a capability issued earlier in the run, before the announced expiry |
| `StoreShares.EventSplit` | signaling/session-state.ts:377-474 | every event, a timer pass over all sessions included, does to one session and sends for it exactly what the session's own share says, with only actions about others around it |
| `StoreActivity.HistoryTells` | signaling/session-state.ts:644-715 | in every run a peer's activity time is that of its last accepted message (or its seating), the ICE grace runs 5000 ms from the accepted DISCONNECTED if that was its last ICE state, and a reservation's deadline lies 30000 ms after the seating or at the absolute one |
| `StoreRemovals.RemovedExactly` | signaling/session-state.ts:1047-1089 | over every run, each timer removal as an equivalence: a peer is told that it was silent if and only if its last accepted message lies 5000 ms back, and likewise the absolute deadline, the unused seat and the lost link, in the order they are looked at |
| `StoreRemovals.NobodyLeavesSilently` | signaling/session-state.ts:887-984 | when an event deletes a session, each peer is told why under its next number and then closed; when it only takes the receiver off, the owner is told why and the receiver closed; save for a peer that left by itself |
| `StoreHeartbeats.FoundedAt` | signaling/session-state.ts:476-523 | every session of a run goes back to one accepted CREATE_SESSION, whose connection, time and capability it carries |
| `StoreHeartbeats.OwnerAuthority` | signaling/session-state.ts:590-612 | every accepted owner message presents the capability handed out when its session was created, under the binding given then |
| `StoreHeartbeats.PulseTells` | signaling/session-state.ts:830-851 | a peer's heartbeat count and next heartbeat time are those of the heartbeats sent to it in the run |
| `StoreHeartbeats.HeartbeatExactly` | signaling/session-state.ts:830-851 | a timer pass sends a surviving peer a heartbeat if and only if 2000 ms have passed since its last one or its seating |
| `StoreAnswers.MessageEffect` | signaling/session-state.ts:578-828 | a message is accepted if and only if it passes the gate and its request is in place; which messages end the session or the seat, and what a refusal of either role costs |
| `StoreAnswers.UnboundExactly` | signaling/session-state.ts:476-576 | an unbound message is accepted exactly for message one with room for a session or the capability of an open join before its expiry; a refusal changes and sends nothing; an accepted reservation sends exactly its two notices |
| `StoreAnswers.GoneExactly` | signaling/session-state.ts:593-612 | a bound message to a session that is gone is refused and changes nothing |
| `StoreAnswers.CreateJoinOpens` | signaling/session-state.ts:717-746 | the join left open is the one announced, for 600000 ms or to the absolute deadline |
| `StoreAnswers.AloneExactly` | signaling/session-state.ts:887-920 | a session without a receiver or join goes back to its creation, a receiver's leaving or a join's end, and has been so ever since |
| `StoreAnswers.HeartbeatSays` | signaling/session-state.ts:830-851 | a heartbeat carries the peer's next number and the deadline 5000 ms on, never past the absolute one |
| `Relay.RelayExactly` | signaling/session-state.ts:853-874 | any event relays exactly the sdp or candidate of its own accepted message, once, to the other peer's connection, or nothing |
| `Relay.DeliveredIsSpoken` | signaling/session-state.ts:613-697 | over every run the texts forwarded to either side of a receiver generation are, in order, those of its counterpart's accepted messages |
| `Relay.AcceptedExactly` | signaling/session-state.ts:674-776 | a description that passes the gate is accepted if and only if it is next in the schedule of what was forwarded before; a candidate if and only if the first offer was |
| `Negotiation.OneOutstandingOffer` | signaling/session-state.ts:674-776 | for each receiver generation the forwarded descriptions are a prefix of OFFER ANSWER (RESTART_OFFER RESTART_ANSWER)*, and nothing is forwarded before the OFFER (section 4 of RFC 3264) |
| `Negotiation.ApplyProgress` | signaling/session-state.ts:613-697 | any event moves a session's exchange by exactly the one message it forwards, or forwards nothing; nothing is forwarded without a receiver |
| `SignalingProtocol.DispatchEffect` | signaling/v1-server.ts:291-322 | without backpressure, dispatch appends to each open socket exactly the sends addressed to it, in order |
| `SequenceAgreement.MoveKeeps` | signaling/v1-server.ts:335-399 | every move of store, server, sockets and clients keeps bindings, sockets and counters in agreement |
| `SequenceAgreement.ReachableLinked` | signaling/v1-server.ts:291-399 | that agreement holds in every reachable world |
| `SequenceAgreement.InFlightExactly` | signaling/session-state.ts:986-1004 | messages in flight are numbered exactly from the consumer's next expected number to the producer's last, in both directions |
| `SequenceAgreement.ClientNeverRefuses` | receiver/v1-receiver.js:189-200 | no receiver page ever meets a sequence number or session it must refuse |
| `SequenceAgreement.StoreNeverRefuses` | signaling/session-state.ts:659-673 | the store never refuses a bound receiver page's message at its gate |
| `SequenceAgreement.HeartbeatAckExactly` | signaling/session-state.ts:804-828 | a seated page's acknowledgement is accepted, and its seat kept, if and only if it names the latest heartbeat issued to it |
| `SignalingWitness.LateAckReachable` | signaling/session-state.ts:804-828 | a run in which a page that acknowledged every heartbeat it read loses its seat |
| `SignalingWitness.EvictionReachable` | signaling/session-state.ts:659-670 | a run in which the message of a closed but not yet gone page evicts the next receiver |
| `SignalingWitness.OvertakingReachable` | signaling/v1-server.ts:304-311 | a reachable world whose next tick under backpressure breaks the order |
| `SignalingWitness.GenerationsRunOut` | signaling/session-state.ts:1102-1107 | a run to a valid store in which an admitted reservation throws and leaves an incoherent record |
| `ReceiverScript.V1Receiver.constructor` | receiver/v1-receiver.js:29-46 | counters at zero, nothing sent, nothing gathered |
| `ReceiverScript.V1Receiver.SendSignal` | receiver/v1-receiver.js:175-187 | one more message under the next number, or an exception and no number used |
| `ReceiverScript.V1Receiver.Opened` | receiver/v1-receiver.js:514-518 | RESERVE_JOIN is message one |
| `ReceiverScript.V1Receiver.LocalCandidate` | receiver/v1-receiver.js:387-401 | a candidate is sent after the offer, held back before it, and lost only when the socket takes no more |
| `ReceiverScript.V1Receiver.SendOffer` | receiver/v1-receiver.js:413-423 | the offer, then every candidate held back, once each and in gathering order |
| `ReceiverScript.V1Receiver.HandleSignalMessage` | receiver/v1-receiver.js:426-479 | counters move as the protocol's client does; a heartbeat is acknowledged under the next number; unless the page ends, no gathered candidate is dropped |
| `ReceiverScript.V1Receiver.ClearReceiver` | receiver/v1-receiver.js:481-500 | ends once, for good, dropping only what was held back |
| `SignalDispatch.DisconnectDetaches` | signaling/session-state.ts:396-414 | disconnecting a matching binding strictly reduces the attached peers; any other changes nothing |
| `SignalDispatch.DispatchUnder` | signaling/v1-server.ts:291-322 | dispatch terminates under any backpressure: attached peers never grow and no connection is lost |
| `SignalDispatch.V1SignalingServer.Dispatch` | signaling/v1-server.ts:291-322 | the recursive loop over store and sockets computes that function |
| `SignalDispatch.V1SignalingServer.FailConnection` | signaling/v1-server.ts:324-333 | disconnects, dispatches what follows, then closes the socket |
| `SignalDispatch.DispatchKeepsValid` | signaling/v1-server.ts:304-311 | the store stays valid through any nesting of clean-ups |
| `SignalDispatch.ClosedStays` | signaling/v1-server.ts:298-303 | a closed socket stays closed and receives nothing more; nothing queued is lost or reordered |
| `SignalDispatch.UnderAppend` | signaling/v1-server.ts:291-322 | dispatching two lists is dispatching one after the other, clean-ups included |
| `SignalDispatch.UnblockedDispatch` | signaling/v1-server.ts:291-322 | if no send of the list is blocked when its turn comes, it is the plain loop and leaves the store alone |
| `Backpressure.UnderKeeps` | signaling/v1-server.ts:304-311 | whatever sockets are full, a list with no owner's send before its receiver's leaves store and pages in step |
| `BackpressureTick.TickInterleaves` | signaling/session-state.ts:416-474 | visiting all sessions and then dispatching equals visiting and dispatching them one after the other |
| `BackpressureTick.TickOrderExactly` | signaling/v1-server.ts:304-311 | after a whole tick every page's messages are in order, and both sides in step, if and only if no session was overtaken |
| `BackpressureRuns.HandleOrderly` | signaling/session-state.ts:377-394 | no message makes the store send to an owner before its still seated receiver |
| `BackpressureRuns.MoveUnderKeeps` | signaling/v1-server.ts:291-399 | every move under any backpressure keeps both sides in step, except a tick that overtakes |
| `BackpressureRuns.MoveOrderExactly` | signaling/v1-server.ts:291-399 | a move leaves every page's messages in order if and only if it is not such a tick |
| `BackpressureRuns.NumberingExactly` | signaling/v1-server.ts:291-399 | over every run under backpressure the messages are in order up to any point if and only if no tick before it overtook |
| `BackpressureRuns.InFlightUnder` | signaling/session-state.ts:986-1004 | until then the messages in flight are numbered exactly between the two counters, in both directions |
| `ControllerLadder.TargetReachesMinimum` | tools/replay_controller_trace.py:152-154 | 0.9^p times any base reaches the minimum target within nine times the base steps |
| `ControllerLadder.AtMinimumExactly` | tools/replay_controller_trace.py:152-154 | the target is the minimum exactly from one step on |
| `ControllerLadder.DegradeClimbs` | tools/replay_controller_trace.py:176-193 | degrading climbs one rung of emphasis, threshold, payload, profile in that order, and does nothing exactly at full depth |
| `ControllerLadder.RelaxDescends` | tools/replay_controller_trace.py:195-220 | restoring descends one rung exactly when due |
| `ControllerLadder.RestoreUndoesDegrade` | tools/replay_controller_trace.py:195-220 | a restore brings back the levels and history before the last degrade |
| `ControllerLadder.UnusableIsFullDepth` | tools/replay_controller_trace.py:169-174 | the unusable test, which ignores the threshold, is equivalent to maximum depth |
| `ControllerRuns.RunLadder` | tools/replay_controller_trace.py:152-220 | in every reachable state the history length determines all four knobs |
| `ControllerRuns.DwellTimes` | tools/replay_controller_trace.py:374-382 | a degrade comes at least 500 ms and a restore at least 2000 ms after every earlier level change |
| `ControllerRuns.PressureEntry` | tools/replay_controller_trace.py:341-344 | RATE_PRESSURE is entered only after three consecutive pressured ticks |
| `ControllerRuns.RecoveryEntry` | tools/replay_controller_trace.py:345-355 | RECOVERY is entered only after at least 1000 ms of uninterrupted compliance |
| `ControllerRuns.StableEntry` | tools/replay_controller_trace.py:356-362 | STABLE is re-entered only after at least 5000 ms of uninterrupted compliance |
| `ControllerRuns.UnusableEntry` | tools/replay_controller_trace.py:364-372 | UNUSABLE is entered only after at least 3000 ms of consecutive hard ticks at full depth |
| `ControllerRuns.UnusableAbsorbs` | tools/replay_controller_trace.py:336-382 | UNUSABLE is absorbing with levels and history frozen and no further action |
| `ControllerRuns.StopOnce` | tools/replay_controller_trace.py:364-372 | STOP_UNUSABLE_LINK is emitted if and only if the tick enters UNUSABLE, and on no other tick |
| `ControllerRuns.UnusableNotBefore` | tools/replay_controller_trace.py:336-377 | UNUSABLE comes no sooner than 500 (maxDepth - 1) + 3000 ms after the first degrade |
| `ControllerRuns.NthRestoration` | tools/replay_controller_trace.py:195-220 | under calm ticks at most g apart, the n-th restoration after a recovery entry falls between 2000 n and n (2000 + g) ms |
| `ControllerRuns.FullyRestored` | tools/replay_controller_trace.py:195-220 | all levels are initial again depth (2000 + g) ms after the entry |
| `ControllerRuns.StableAgain` | tools/replay_controller_trace.py:345-362 | under calm ticks the link is STABLE 4000 ms after the entry |
| `ControllerStability.RecoverySinceExactly` | tools/replay_controller_trace.py:324-331 | the recovery timer is the time of the first tick of the present stretch of compliance |
| `ControllerStability.StableSinceExactly` | tools/replay_controller_trace.py:324-362 | in RECOVERY the stable timer runs from the start of that stretch if and only if every tick since the entry was compliant |
| `ControllerStability.StableExactly` | tools/replay_controller_trace.py:324-362 | after calm ticks the link is STABLE if and only if every earlier tick since the entry was compliant and 5000 ms have passed since the compliance began |
| `ControllerStability.StuckInRecovery` | tools/replay_controller_trace.py:324-331 | one non-compliant tick in RECOVERY, and calm ticks alone never lead to STABLE |
| `ControllerStability.StuckRun` | tools/replay_controller_trace.py:324-362 | a run stuck in RECOVERY however long the calm after its one lapse |
| `ControllerProgress.StateExactly` | tools/replay_controller_trace.py:336-372 | the state after any tick of a run is decided by the state before it and the ticks: hard ticks give CONGESTED, or UNUSABLE after 3000 ms at full depth; three pressed ticks RATE_PRESSURE; 1000 ms of compliance RECOVERY; 5000 ms STABLE |
| `ControllerProgress.DegradeExactly` | tools/replay_controller_trace.py:374-378 | a tick degrades if and only if it ends in RATE_PRESSURE or CONGESTED below full depth with no level change in the last 500 ms; it takes the next knob, by one rung |
| `ControllerProgress.RestoreExactly` | tools/replay_controller_trace.py:379-382 | a tick restores if and only if it is compliant, stays in RECOVERY or STABLE, something is degraded, and the last level change or recovery entry lies 2000 ms back; it undoes the last degrade |
| `ControllerProgress.EntriesExactly` | tools/replay_controller_trace.py:345-369 | the recovery IDR is requested exactly on entering RECOVERY, the link stopped exactly on entering UNUSABLE |
| `ControllerProgress.PressureExactly` | tools/replay_controller_trace.py:324-324 | the counter is the number of pressed ticks in a row up to now |
| `ControllerProgress.UnusableSinceExactly` | tools/replay_controller_trace.py:364-372 | the unusable timer is the time of the first tick of the present stretch of hard ticks at full depth |
| `ControllerProgress.ActionTimesExactly` | tools/replay_controller_trace.py:190-220 | the two action timers are the times of the latest level change and of the latest restoration or recovery entry |
| `ControllerProgress.HardLinkStops` | tools/replay_controller_trace.py:336-378 | hard ticks at most g ms apart reach full depth within maxDepth (500 + g) ms and UNUSABLE within 3000 + g ms more, from any reachable state |
| `ControllerProgress.KnobsExactly` | tools/replay_controller_trace.py:152-193 | four emphasis, three threshold, the payload and two profile levels follow from the depth alone, in that order |
| `ControllerProgress.TargetExactly` | tools/replay_controller_trace.py:152-154 | each payload step takes a tenth off the target before rounding, down to 100000 |
| `ControllerMeters.SmoothedRateWithin` | tools/replay_controller_trace.py:30-52 | both smoothed rates stay within the range of the measured rates, whatever the gaps |
| `ControllerReadings.StepResponse` | tools/replay_controller_trace.py:83-87 | the distance of both averages to a sample shrinks by the decay over one second and over five |
| `ControllerReadings.ReplayTells` | tools/replay_controller_trace.py:240-296 | after any accepted trace the loss, round trip and wire rate lie within the range of what the trace reported, the wire rate is present exactly when the counter did not go back last, and the latest readings are the last reported |
| `ControllerReadings.QuietTick` | tools/replay_controller_trace.py:297-323 | loss at most 0.03, round trips at most 250, wire rates at most 0.95 of the cap, age at most 50 and the base target within the budget give no pressure |
| `ControllerReadings.SoftTick` | tools/replay_controller_trace.py:297-323 | wire rates at most 1.1 of the cap, age below 100 and the queue below 4 MiB give no hard tick |
| `ControllerReadings.CompliantTick` | tools/replay_controller_trace.py:297-323 | a wire rate being known, wire rates below 0.85 of the cap, loss below 0.01 and an age below the shortest frame time give a compliant tick |
| `ControllerReadings.PressedTick` | tools/replay_controller_trace.py:297-323 | loss above 0.03 with a recent report, round trips above 250 with one, known wire rates above 0.95 of the user's cap, an age above 50 or a user's cap below 164000 give pressure |
| `ControllerReadings.HardTick` | tools/replay_controller_trace.py:297-323 | known wire rates above 1.1 of the user's cap, an age of 100 or a queue of 4 MiB give a hard tick |
| `ControllerReadings.LaxTick` | tools/replay_controller_trace.py:297-323 | no wire rate, wire rates from 0.85 of the user's cap, loss from 0.01 with a recent report or an age of the longest frame time leave the tick not compliant |
| `ControllerReadings.PredicatesExactly` | tools/replay_controller_trace.py:297-323 | each predicate is equivalent to its limits on the meters and the record, with every limit a number |
| `ControllerReadings.PredicatesMonotone` | tools/replay_controller_trace.py:297-323 | a worse record or meter or a smaller cap never turns pressure or hardness off nor, given a wire rate before, compliance on |
| `ControllerReadings.EveryTick` | tools/replay_controller_trace.py:467-506 | every tick of a replay is the last of the trace up to it, so these laws hold of each |
| `ControllerTrace.CountersExactly` | tools/replay_controller_trace.py:275-283 | each of the four rates is that of its own counter in its own unit, the queue age that of the record, smoothed over the time since the last record |
| `ControllerTrace.AcceptedExactly` | tools/replay_controller_trace.py:231-258 | a trace is accepted if and only if its records and their feedback are in order; the meters then remember its last counters and readings |
| `RateController.RateEstimator.Update` | tools/replay_controller_trace.py:30-52 | the whole new estimator, the reset flag, and the refusal of time that does not advance |
| `RateController.GaugeEstimator.Update` | tools/replay_controller_trace.py:63-75 | the whole new gauge, and the refusals |
| `RateController.NewReplay` | tools/replay_controller_trace.py:119-150 | a controller at its initial levels exactly when the base target is not below the minimum |
| `RateController.ControllerReplay.DegradeStep` | tools/replay_controller_trace.py:176-193 | computes the degrade the ladder lemmas are about |
| `RateController.ControllerReplay.RestoreStep` | tools/replay_controller_trace.py:195-220 | computes the restore; no knob goes below zero on the ladder |
| `RateController.ControllerReplay.DecideTick` | tools/replay_controller_trace.py:324-382 | one tick of counters, state, unusable check and level change, and the ladder is kept |
| `RateController.ControllerReplay.ProcessRecord` | tools/replay_controller_trace.py:222-382 | the whole new controller and meters, whether the record is refused on the way or decided on |
| `RateController.ControllerReplay.TakeEvent` | tools/replay_controller_trace.py:243-273 | one feedback event with its order checks, samples and latest values |
| `RateController.ControllerReplay.TakeEach` | tools/replay_controller_trace.py:240-273 | the feedback loop equals taking the events one by one, stopping at the first refused |
| `RateController.ControllerReplay.Count` | tools/replay_controller_trace.py:275-283 | the four counters and the queue age, each estimator updated in turn up to the first refusal |
| `RateController.ReplayIsRun` | tools/replay_controller_trace.py:467-506 | every accepted trace is a run, so all run theorems hold of it |
| `RateController.RecoveryAfterQuiet` | tools/replay_controller_trace.py:306-355 | with the pacer queue below 4 MiB a replayed link enters RECOVERY only after at least 1000 ms without a hard tick |
| `CrashModel.CrashState.CreateName` | tools/recording_crash_model.py:92-97 | new live name on a fresh file, or refused |
| `CrashModel.CrashState.WriteName` | tools/recording_crash_model.py:99-102 | one more live version, or refused |
| `CrashModel.CrashState.SyncName` | tools/recording_crash_model.py:104-108 | the live version becomes durable, or refused |
| `CrashModel.CrashState.SyncNames` | tools/recording_crash_model.py:110-111 | the live names become the durable ones |
| `CrashModel.CrashState.RenameName` | tools/recording_crash_model.py:113-116 | moves a name without replacing, or refused |
| `CrashModel.CrashState.RemoveName` | tools/recording_crash_model.py:118-121 | removes a live name, or refused |
| `CrashModel.CrashState.Apply` | tools/recording_crash_model.py:165-244 | each of the 28 operations with its guards |
| `CrashModel.VerifyCrashProtocol` | tools/recording_crash_model.py:160-254 | the loop yields the cut after every operation, or the first refusal |
| `CrashModel.OrderingChecksNeverFire` | tools/recording_crash_model.py:136-157 | for any accepted operations the crash view never finds marker before companions, journal before media, or admission without anchor |
| `CrashModel.NeverRegresses` | tools/recording_crash_model.py:136-157 | for any order and length the outcome never regresses, the journal count never shrinks or passes the media count, and COMPLETE stays COMPLETE |
| `CrashModel.CountsExactly` | tools/recording_crash_model.py:194-209 | the four counters equal what the operation list says was written, synced, journaled and committed |
| `CrashModel.CutsNeverRegress` | tools/recording_crash_model.py:245-254 | the reported cuts have nondecreasing rank and journal count, never above media |
| `RecordingOutcomes.OutcomeExactly` | tools/recording_crash_model.py:136-157 | which of the five outcomes a crash leaves, from what follows what in the operation list |
| `RecordingDurability.CrashExactly` | tools/recording_crash_model.py:136-157 | the same with the errors: which final file was not whole, from the writes and syncs of the list |
| `RecordingPrograms.RecordingReplays` | tools/recording_crash_model.py:194-213 | recording operations in any pattern are refused only at a journal sync ahead of the media |
| `RecordingPrograms.PublishExactly` | tools/recording_crash_model.py:218-254 | publishing succeeds if and only if some unit is durable; every unit is then durable in media and journal exactly when the last commit covers it |
| `RecordingPrograms.CommitGroupsComplete` | tools/recording_crash_model.py:42-71 | prepare, any commit groups with at least one unit, publish: nothing refused, COMPLETE, all units durable in both |
| `RecordingPrograms.EveryCompleteCutHasAll` | tools/recording_crash_model.py:136-146 | at every COMPLETE cut of such a program all admitted units are durable in both |
| `RecordingPrograms.UncommittedUnitIsLost` | tools/recording_crash_model.py:194-209 | a unit written after the last commit is missing from the journal although COMPLETE |
| `CheckpointCodec.FromLEOfLE` | tools/evaluate_saliency_development.cpp:514-529 | little-endian decoding inverts encoding below the width |
| `CheckpointFiles.AppendNumber` | tools/evaluate_saliency_development.cpp:514-529 | the byte loop appends exactly the little-endian encoding |
| `CheckpointFiles.AppendWords` | tools/evaluate_saliency_development.cpp:531-542 | doubles are appended as their words in order |
| `CheckpointFiles.SerializeResult` | tools/evaluate_saliency_development.cpp:544-575 | prints magic, identity, index, flag, reason, configuration, metrics of a pass, digest; refuses reasons over 65535 bytes |
| `CheckpointFiles.TakeNumber` | tools/evaluate_saliency_development.cpp:577-611 | decodes and advances, or reports truncation and stays |
| `CheckpointFiles.TakeRun` | tools/evaluate_saliency_development.cpp:613-622 | reads the words in order or reports truncation |
| `CheckpointFiles.ParseResult` | tools/evaluate_saliency_development.cpp:624-690 | the parser with all its refusals in order |
| `CheckpointLayout.DigitAt` | tools/evaluate_saliency_development.cpp:514-529 | byte i is digit i to base 256, lowest first |
| `CheckpointLayout.MetricsOrder` | tools/evaluate_saliency_development.cpp:535-542 | the six fields in order, for the aggregate, the seven strata and the 95th percentile, then the processing time |
| `CheckpointLayout.HeaderLayout` | tools/evaluate_saliency_development.cpp:544-575 | the offset of magic, identity, index, flag, length, reason and digest, and the size of the file |
| `CheckpointLayout.ValuesLayout` | tools/evaluate_saliency_development.cpp:557-575 | the offset of each configuration value and of every metric |
| `CheckpointRoundTrip.RoundTripExactly` | tools/evaluate_saliency_development.cpp:544-690 | parsing a printed result returns it if and only if it has at most 4096 bytes, index and radius fit 32 bits and no configuration value is NaN; otherwise it is refused |
| `CheckpointRoundTrip.AcceptedIsSerialized` | tools/evaluate_saliency_development.cpp:624-690 | an accepted file is the printed form of what it parses to, except for a passed byte above one |
| `CheckpointResume.CheckpointDirectory.EvaluateOrResume` | tools/evaluate_saliency_development.cpp:750-774 | directory, results, evaluated candidates and outcome of one attempt stopped anywhere |
| `CheckpointResume.CheckpointDirectory.DurableWrite` | tools/evaluate_saliency_development.cpp:720-742 | the file appears whole or not at all, no temporary stays, and only a fault after the rename leaves it published behind a failure |
| `CheckpointResume.AttemptRecords` | tools/evaluate_saliency_development.cpp:750-774 | over checkpoints that fit an attempt never fails, returns what the directory then records, and evaluates exactly what was missing |
| `CheckpointResume.ResumeReturnsFirst` | tools/evaluate_saliency_development.cpp:750-774 | after any interruptions a full attempt returns for each candidate what the first attempt to publish it measured, evaluating only unpublished ones |
| `CheckpointResume.PublishedIsFinal` | tools/evaluate_saliency_development.cpp:759-766 | a published checkpoint is never rewritten |
| `CheckpointResume.CompletesExactly` | tools/evaluate_saliency_development.cpp:624-774 | an unstopped attempt completes if and only if every checkpoint it finds fits and every reason it measures is short enough |
| `CheckpointResume.OversizedStopsResume` | tools/evaluate_saliency_development.cpp:624-630 | a reason of 3958 bytes is published without complaint, and every later attempt that gets to it fails |
| `RateLimit.NewLimit` | receiver/control-protocol.js:241-246 | a limiter exists exactly for maxima from 1 to 100 |
| `RateLimit.KeepRecent` | signaling/v1-server.ts:349-352 | the filter loop keeps exactly the admissions less than a second old, in order |
| `RateLimit.SlidingControlRateLimit.AdmitNow` | receiver/control-protocol.js:248-258 | the new list and the decision of one call |
| `RateLimit.ForgettingIsSafe` | receiver/control-protocol.js:248-258 | on nondecreasing times the pruning limiter answers every call as one that remembers all admissions |
| `RateLimit.AdmittedExactly` | receiver/control-protocol.js:252-257 | a call is admitted if and only if its time is valid and the admission `maximum` places back is a full second old |
| `RateLimit.AdmissionsSpaced` | receiver/control-protocol.js:237-259 | any admission and the one `maximum` places later are at least 1000 ms apart |
| `RateLimit.AgreeExactly` | receiver/control-protocol.js:248-258 | on a reading that goes back the two limiters agree if and only if it is not the case that the limit is free at the latest reading and taken at this one |
| `RateLimit.BackwardClockAdmits` | receiver/control-protocol.js:252-257 | an input on which they differ, so the monotone clock is needed |
| `BitrateSearch.NextRequestedRate` | tools/run_uniform_aq_development.py:160-176 | the nested loops compute the outward scan, with both refusals |
| `BitrateSearch.ScanIsNearest` | tools/run_uniform_aq_development.py:168-175 | the scan finds the free rate nearest the proposal, the lower of two, or shows none is free within reach |
| `BitrateSearch.NextRateExactly` | tools/run_uniform_aq_development.py:160-176 | with at most 1024 rates attempted a free rate always exists (pigeonhole), so the only refusal is a bad measurement |
| `BitrateAim.NextRateAims` | tools/run_uniform_aq_development.py:160-176 | the chosen rate is free and within one of the nearest free rate to requested times target over measured, exactly the nearest when that rounds to a free rate, and the lowest or highest free rate beyond the limits |
| `BitrateAim.NextRateCorrects` | tools/run_uniform_aq_development.py:160-176 | unless displaced or clamped the next request lies below the last after measuring too much and above it after too little |
| `BitrateAim.DisplacedGoesBelow` | tools/run_uniform_aq_development.py:160-176 | an input on which the chosen rate is displaced to the lower side although the upper is nearer |
| `BitrateSearch.RunTargetSearch` | tools/run_uniform_aq_development.py:636-744 | attempts and verdict of one call from the attempts stored |
| `BitrateAim.MatchesExactly` | tools/run_uniform_aq_development.py:704-704 | a stream matches exactly within 0.020000000001 of the target |
| `BitrateAim.ProportionalEncoderMatches` | tools/run_uniform_aq_development.py:672-744 | an encoder that answers in proportion to its request, with the target within its reach, passes by the second trial |
| `BitrateSearch.SearchSafe` | tools/run_uniform_aq_development.py:636-744 | over every run with restarts: at most four attempts, every request but the first within limits, a rate repeats only straight after an invalid attempt at it, never refused for want of a rate |
| `BitrateSearch.TargetsWithinLimits` | tools/run_uniform_aq_development.py:46-62 | the five targets start within the limits |
| `BitrateSearch.RestartAsksTheSame` | tools/run_uniform_aq_development.py:636-666 | a restart while the search is under way asks for the same rate |
| `BitrateSearch.RestartAgreesExactly` | tools/run_uniform_aq_development.py:636-666 | a restart just after a trial agrees with going on if and only if the verdict was not about that trial |
| `BitrateSearch.RestartLosesPass` | tools/run_uniform_aq_development.py:636-666 | a matched and verified stream passes, and does not after a restart before the verdict is written |
| `BitrateSearch.TryRaisesExactly` | tools/run_uniform_aq_development.py:163-164 | a trial raises if and only if it is unmatched and its rate or its request is not positive |
| `BitrateSearch.DriveIsRun` | tools/run_uniform_aq_development.py:672-744 | one call is part of such a run and ends in a verdict or an error |
| `RtpSender.FindNextRecovery` | tools/m0_webrtc_sender.cpp:586-599 | the loop finds the recovery point or the reason there is none |
| `RtpSender.NextRecoveryExactly` | tools/m0_webrtc_sender.cpp:586-599 | it is the first one, with only ordinary units before it; unavailable exactly when all are ordinary |
| `RtpSender.RunSender` | tools/m0_webrtc_sender.cpp:802-875 | the frame loop and every check after it, the injected indication's and the suppressed packet's included |
| `RtpSender.CompletedTrace` | tools/m0_webrtc_sender.cpp:804-851 | each reported frame told from the requests alone: position, epoch and timestamp |
| `RtpSender.FaultRunExactly` | tools/m0_webrtc_sender.cpp:862-873 | a run with a suppressed packet completes if and only if it would without and the packet was suppressed, sent again and identical |
| `RtpSender.ValidateTrace` | tools/validate_m0_browser_playback.py:58-81 | the validator's loops accept exactly the valid traces |
| `RtpSender.ReportValidExactly` | tools/validate_m0_browser_playback.py:58-81 | a completed run's report is valid if and only if it sent at 30 frames a second, at least two frames, for every pattern of requests |
| `RtpSender.EpochsOpenOnRecovery` | tools/m0_webrtc_sender.cpp:824-846 | the epoch rises exactly at a request, by one, on a parameter-set-plus-IDR frame |
| `RtpSender.KeysDistinct` | tools/validate_m0_browser_playback.py:107-109 | timestamps strictly increase at any rate, so epoch and timestamp identify a frame |
| `RtpSender.EpochRisesExactly` | tools/validate_m0_browser_playback.py:118-124 | the epoch is seen to rise exactly when a request is honoured after the first frame, which the sender's own recovery count does not ensure |
| `RtpSender.EarlyRecoveryPasses` | tools/m0_webrtc_sender.cpp:862-868 | a completed run with an injected indication whose report is valid and whose epoch never rises |

## Left out

- SequenceAgreement.ReachableLinked: worlds in which no send meets backpressure; BackpressureRuns.NumberingExactly covers all of them.
- StoreHeartbeats.PulseTells, StoreHeartbeats.HeartbeatExactly: runs in which a connection without a binding is nobody's peer, as the server, which binds a connection once, ensures.
- SessionStore.SignalingSessionStore.Tick: the order of the map's iteration is any order; session records are values written back to the map, so aliasing of records is not modelled.
- CheckpointResume.CheckpointDirectory.DurableWrite: temporary names of other processes, which carry their process number, and partial writes, which are retried until complete.
- ReceiverScript.V1Receiver.HandleSignalMessage: browser calls succeed or fail as a parameter says; a page's heartbeats are not tied to its acknowledgements beyond the run of SignalingWitness.
- The EXPIRED and REVOKED phases of a record, which is deleted in the same step that sets them; snapshots.
- HTTP, TLS, WebSocket upgrade, first-message timeout, DOM, WebRTC and control-channel code; the owner's client, which may send anything.
- JSON text, regular expressions, SDP scanning and field validation: messages and numbers start parsed.
- HMAC, SHA-256, entropy and timing-safe comparison; an exception in the store ends a run.
- IEEE rounding, the value of the exponential in the smoothing (only its range is used) and the 53-bit limit on sequence numbers.
- The controller's reported thresholds, reasons and epoch flags, and the comparison with a recorded decision stream.
- The enumeration of the 2,511 saliency configurations, the metrics themselves, the CUDA pipeline, and the AQ and playback reports beyond the trace.
- The pacer, retransmission cache, encoder coordinator, capture pool and durable recorder.
- Wire accounting of the sender; the first access unit's profile check beyond its recovery point.
