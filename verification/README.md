# A2A gateway plugin: model and proofs

The gateway plugin accepts agent tasks, forwards messages to peers, negotiates credentials with strangers through a
hub, keeps shared rooms in a log file and remembers what it has seen. This project models the parts of it in which
several things happen at once, or in which bookkeeping has to agree with a history, and proves what they keep.

Every `await` of the original is a step boundary and the code between two awaits is one atomic step. Clocks, random
numbers, fresh ids and the answers of delegates, sockets, peers and the hub are inputs, so every statement is about all
of them and about every interleaving. Most parts come as two pieces: a state and its step functions (the specification),
and a class whose methods update fields in place and are shown to take exactly those steps; a ghost history in the class
ties each object to a run of the specification, and the theorems are about all runs.

| area | files |
|---|---|
| task scheduler and its meters | `telemetry`, `scheduler`, `scheduler_safety`, `scheduler_loss`, `scheduler_pending`, `scheduler_waiting`, `scheduler_outcomes`, `queueing_executor` |
| circuit breaker, retry, transport fallback | `peer_health`, `powers`, `client`, `transports` |
| encrypted hub handshake | `gateway_config`, `handshake`, `handshake_agreement`, `handshake_once`, `handshake_poll`, `handshake_runs`, `handshake_credentials` |
| event-sourced shared rooms | `shared_context`, `shared_context_runs`, `shared_context_effects`, `shared_context_archive`, `shared_context_store` |
| RPC correlation table and challenge wait | `gateway_rpc`, `gateway_rpc_connection` |
| bounded recency stores | `recency`, `connection_state`, `task_contexts` |
| outbox, idempotency, nonces | `outbox`, `outbox_delivery`, `outbox_retention`, `outbox_relay`, `expiry` |
| stable sorting and selection | `stable_sort`, `transports`, `routing_rules` |
| IPv6 text | `ip_text`, `ip_digits`, `file_security` |

`dafny verify dfyconfig.toml` checks the whole project.

## Where the code does less than it says

Each of these is a theorem with the exact condition under which the code does keep the promise, and a concrete run or
input on which it does not.

- Two queued tasks with one id: starting the first drops the second (src/queueing-executor.ts:191), and nothing that
  happens later starts, turns away or settles it. A submission endangers this exactly when it has to wait behind a
  queued namesake: `SchedulerLoss.LossIff`; `SchedulerLoss.LostForGood`, `SchedulerLoss.DuplicateIdsLoseAnEntry`. The
  pending table is narrower: a submission keeps it exact exactly when its id is not live, running tasks included:
  `SchedulerPending.SubmitKeepsPendingIff`, `SchedulerPending.DuplicateSubmitBreaks`.
- "Non-retryable error → stop immediately" (src/client.ts:296): with several transports the error becomes a 500, which
  the retry loop above takes for a server error and repeats: `Client.NonTransientErrorRetriedIff`,
  `Client.FatalErrorRepeated`.
- A trial call that throws without retries leaves the circuit half-open with its slot taken, and every later request is
  refused until some other outcome is recorded (src/client.ts:147-157): `Client.EscapesIff`,
  `Client.HalfOpenAfterSendIff`, `Client.HalfOpenAfterQuietSendIff`, `PeerHealth.StuckWhileHalfOpen`,
  `Client.TrialErrorShutsOut`.
- An archived room can be reopened by a post that loaded the file before the archive was appended or queued
  (src/shared-context.ts:176-217): `SharedContextArchive.LateWriteHarmlessIff`,
  `SharedContextArchive.OverlappingPostReopens`.
- An offer can be answered with two tokens when two polls overlap (index.ts:596-597): `HandshakeOnce.PullIsSafeIff`,
  `HandshakeOnce.OneOfferTwoTokens`.
- The id list of a connection record drops ids that are not positive while the record list keeps them
  (src/connection-state.ts:78, 88): `ConnectionStates.ListsAgreeIff`, `ConnectionStates.RecordingKeepsAgreementIff`,
  `ConnectionStates.ZeroIdSplitsLists`.
- The context cache does not evict the empty task id (src/executor.ts:1034), and grows without bound behind it:
  `TaskContexts.OverflowIff`, `TaskContexts.EmptyIdBlocksEviction`. Whether an empty task id can ever arrive is decided
  by the A2A SDK, which is not part of this repository.

## Model

| member | source | states |
|---|---|---|
| Telemetry.GatewayTelemetry.SetQueueState | src/telemetry.ts:308-313 | the gauges are overwritten and the observed maxima only rise |
| Telemetry.GatewayTelemetry.RecordTaskQueued | src/telemetry.ts:189-191 | one more queued task, at the new depth and the old active count |
| Telemetry.GatewayTelemetry.RecordTaskStart | src/telemetry.ts:200-203 | one more started task, both gauges set |
| Telemetry.GatewayTelemetry.RecordTaskFinish | src/telemetry.ts:213-239 | one more finished task, booked under exactly one terminal state |
| Telemetry.GatewayTelemetry.RecordQueueRejected | src/telemetry.ts:254-257 | a queue rejection also counts as rejected |
| QueueingExecutor.QueueingAgentExecutor.constructor | src/queueing-executor.ts:96-103 | at least one slot, no negative queue limit, nothing submitted |
| QueueingExecutor.QueueingAgentExecutor.Execute | src/queueing-executor.ts:105-157 | a submission takes the scheduler's step and leaves it quiescent |
| QueueingExecutor.QueueingAgentExecutor.CancelTask | src/queueing-executor.ts:159-180 | cancelling removes and settles the first queued entry of the id, or changes nothing |
| QueueingExecutor.QueueingAgentExecutor.DelegateSettled | src/queueing-executor.ts:222-255 | settling a running entry frees its slot and drains the queue, as the scheduler's step does; its own promise is settled first, and rejected exactly if the delegate threw |
| QueueingExecutor.QueueingAgentExecutor.RunEntry | src/queueing-executor.ts:185-255 | the synchronous part of a start, including delegates that throw at once and the nested drain |
| QueueingExecutor.QueueingAgentExecutor.DrainQueue | src/queueing-executor.ts:257-265 | the drain loop, with starts that drain again, computes the recursive drain |
| QueueingExecutor.QueueingAgentExecutor.QueueDeleteEntry | src/queueing-executor.ts:267-272 | only the first queued entry of the id goes |
| SchedulerSafety.StepKeepsQuiescent | src/queueing-executor.ts:105-272 | every turn keeps the limits, work conservation, arrival order, unique settlement and the agreement of the meters |
| SchedulerSafety.RunIsQuiescent | src/queueing-executor.ts:105-272 | between turns of any run: active within its limit, queue within its limit, a non-empty queue means all slots busy, for any task ids |
| SchedulerSafety.PeaksAreMaxima | src/telemetry.ts:311-312 | the recorded peaks are attained and are upper bounds of all gauge readings |
| SchedulerSafety.ObservedMaximaAreTrue | src/telemetry.ts:308-313 | the observed maxima are the true maxima of the run and within the limits |
| SchedulerLoss.SubmitLossless | src/queueing-executor.ts:114-157 | a submission loses nothing by itself, and leaves two queued namesakes if and only if it has to wait behind one |
| SchedulerLoss.RunIsLossless | src/queueing-executor.ts:105-265 | every entry is queued, started or turned away after every run in which no submission waits behind a namesake; the id of a running task may be submitted again |
| SchedulerLoss.SettledExactlyOnce | src/queueing-executor.ts:105-265 | in those runs submitted = finished + rejections + active + depth; terminal counters add up; every entry is queued, running or settled, and settled once |
| SchedulerLoss.NamesakeDropped | src/queueing-executor.ts:191 | starting the first of the last two queued namesakes drops the other |
| SchedulerLoss.LostForGood | src/queueing-executor.ts:105-272 | what was dropped is never started, turned away or settled, whatever happens later |
| SchedulerLoss.LossIff | src/queueing-executor.ts:114-191 | after a submission every continuation without further waiting namesakes loses nothing, if and only if the submission did not have to wait behind a namesake |
| SchedulerLoss.DuplicateIdsLoseAnEntry | src/queueing-executor.ts:191 | a run from the start in which an entry ends up neither queued nor running nor settled |
| SchedulerPending.SubmitKeepsPendingIff | src/queueing-executor.ts:114-157 | a submission keeps the pending table exact if and only if its id is not live |
| SchedulerPending.DuplicateSubmitBreaks | src/queueing-executor.ts:114-157 | resubmitting a live id breaks the pending table on every branch |
| SchedulerPending.RunKeepsPending | src/queueing-executor.ts:105-265 | with distinct live ids `pendingByTaskId` is exactly queued plus running after every run, and no submission waits behind a namesake |
| SchedulerWaiting.QueueAdvances | src/queueing-executor.ts:257-265 | every completion moves a queued entry forward, nothing moves it back |
| SchedulerWaiting.StartsWithin | src/queueing-executor.ts:257-265 | the entry at queue index k has started or was cancelled after k + 1 completions, as long as no submission waits behind a namesake |
| SchedulerOutcomes.PromisesFollowDelegates | src/queueing-executor.ts:105-255 | in every run a settled promise is rejected if and only if its entry was started and the delegate threw, at once or later; whatever was turned away is resolved |
| SchedulerOutcomes.MetersFollowDelegates | src/queueing-executor.ts:172-255 | in every run each terminal counter is the number of settled tasks that ended in its state: the last status published, failed without one, canceled in the queue, rejected by the full queue |
| SchedulerOutcomes.MetersFollowArrivals | src/queueing-executor.ts:120-157 | in every run the queued and the queue-rejected meters count the submissions that found all slots taken, with room in the queue or without |
| SchedulerOutcomes.EntriesAreSubmissions | src/queueing-executor.ts:105-255 | in every run everything queued or running is a submission as it was made, and what runs handed out a promise |
| SchedulerOutcomes.CompletionSettles | src/queueing-executor.ts:222-255 | a completion settles its own task first and rejects its promise exactly if the delegate's threw |
| PeerHealth.PeerHealthManager.IsAvailable | src/peer-health.ts:80-104 | the answer is the one the peer's own event history determines, and in terms of the record: yes when closed, after `resetTimeoutMs` when open, once when half-open; an unknown peer is available |
| PeerHealth.PeerHealthManager.RecordSuccess | src/peer-health.ts:107-123 | a success enters the history of that peer alone, clears its count and closes its circuit |
| PeerHealth.PeerHealthManager.RecordFailure | src/peer-health.ts:126-158 | a failure enters the history of that peer alone, adds one to its count and keeps its time |
| PeerHealth.PeerHealthManager.CheckPeer | src/peer-health.ts:193-207 | a probe result enters the history of that peer alone |
| PeerHealth.BreakerRefinesHistory | src/peer-health.ts:80-158 | failure count, circuit state and trial slot are four readings of the history; closed exactly while there are fewer failures than `failureThreshold` |
| PeerHealth.AdmittedIff | src/peer-health.ts:80-104 | a request is let through if and only if there are fewer failures than the threshold, or no trial is out and `resetTimeoutMs` have passed since the last failure |
| PeerHealth.FirstAfterCooldownIsAdmitted | src/peer-health.ts:86-96 | a tripped circuit that only questions reach refuses all of them before `resetTimeoutMs` are over and admits the first one after |
| PeerHealth.OutcomesCount | src/peer-health.ts:107-158 | what each kind of event does to count, circuit, health and times, after any history |
| PeerHealth.OneTrialPerHalfOpen | src/peer-health.ts:100-103 | between two trial calls some outcome is recorded |
| PeerHealth.ProbeRateBound | src/peer-health.ts:80-158 | n admissions after a trip at t0 without a success, the last at t1: n * resetTimeoutMs <= t1 - t0, under any mix of sends, late outcomes and probes |
| PeerHealth.StuckWhileHalfOpen | src/peer-health.ts:100-103 | a trial call that never reports keeps all later requests out |
| Client.WithRetry | src/peer-retry.ts:44-94 | returns the first conclusive outcome, or the last of exactly maxRetries + 1, and the time slept; a thrown error comes back as a 500 with its message |
| Client.StopsAfterUnique | src/peer-retry.ts:52-93 | the number of calls is determined by the outcomes |
| Client.RetriedIff | src/peer-retry.ts:52-93 | after a call the loop goes on if and only if a retry is left and the call failed with 429, a status from 500 on, or a network error |
| Client.DelaysDouble | src/peer-retry.ts:28-36 | the first delay is `baseDelayMs`, each next one twice the last, capped at `maxDelayMs` |
| Client.DelaysAddUp | src/peer-retry.ts:28-36 | below the cap the waits so far add up to the next delay less the first |
| Client.SleepBounds | src/peer-retry.ts:28-36 | total sleep lies between the plain backoff sum S and 1.1 S |
| Client.DoSendMessage | src/client.ts:251-326 | the fallback loop computes the recursive fallback and counts the transports tried |
| Client.FallbackStopsAtFirstConclusive | src/client.ts:258-325 | transports are tried in order up to the first conclusive one; otherwise all were tried and the result is a 500 |
| Client.TransportAttemptsBounded | src/client.ts:141-148 | at most (maxRetries + 1) times the transport count is contacted |
| Client.NonTransientErrorRetriedIff | src/client.ts:295-301 | whichever call of a send ends with such an error, after whatever calls, it is the last one exactly when it used one transport or no retry was left |
| Client.FatalErrorRepeated | src/client.ts:295-301 | a send over two transports that repeats a fatal error |
| Client.Deliver | src/client.ts:143-148 | with retries the reply is the stopping call's and never an exception; without, the first call's |
| Client.SendMessage | src/client.ts:120-160 | an admitted send puts one question and at most one outcome into the peer's history, with anything in between; an ok reply clears the peer's failure count and closes its circuit, any other reply adds one failure at its time, an escaping error leaves the record alone; a refused send answers 503; other peers' histories gain only what others did; peers unknown to the manager, and sends without one, are served unguarded |
| Client.EscapesIff | src/client.ts:143-148 | an error escapes exactly without retries on a single transport that throws |
| Client.HalfOpenAfterSendIff | src/client.ts:150-157 | whatever happens meanwhile, a send leaves the circuit half-open exactly when its error escaped and a trial call is out |
| Client.HalfOpenAfterQuietSendIff | src/client.ts:150-157 | when others only ask meanwhile, exactly when it was a trial call whose error escaped |
| Client.TrialErrorShutsOut | src/client.ts:143-157 | a trial send that throws, after which no request is admitted at any time |
| Client.OutcomeEndsHalfOpen | src/client.ts:150-157 | right after a recorded outcome the circuit is not half-open, whatever happened meanwhile |
| GatewayConfigs.IssuedTokensAreValid | src/ephemeral-token.ts:9-19 | every issued token passes the validity check |
| GatewayConfigs.HexIsInjective | src/ephemeral-token.ts:19 | different random bytes give different tokens |
| GatewayConfigs.ValidIffIssuable | src/ephemeral-token.ts:5-19 | a token is valid if and only if it is the hex form of some 24 bytes |
| GatewayConfigs.GatewayConfig.IssueEphemeralInboundToken | src/ephemeral-token.ts:13-28 | the new token is valid, accepted from now on, and its timer is set for the end of its ttl |
| GatewayConfigs.GatewayConfig.TimerFires | src/ephemeral-token.ts:21-23 | the timer removes its own token and nothing else |
| GatewayConfigs.GatewayConfig.UpsertEphemeralPeer | index.ts:478-496 | the search loop and the two in-place updates compute the functional upsert |
| GatewayConfigs.UpsertInstalls | index.ts:478-496 | afterwards the name finds the new credentials, all other peers are where they were, distinct names stay distinct |
| HandshakePoll.Gateway.ProcessPendingHubMatches | index.ts:526-676 | the matches in which the agent is the provider are handled in order, and one that fails does not stop the next |
| HandshakePoll.Gateway.ProcessPendingMatch | index.ts:559-674 | the messages of a match in order without those processed before, up to the first call that throws |
| HandshakePoll.Gateway.HandleMessage | index.ts:562-670 | consumption first, then the processed mark; a well-formed message's sender is then found with its address and token, and an answerable offer makes one token of the agent's own valid |
| HandshakePoll.Gateway.WaitForHandshakeAnswer | index.ts:498-513 | the answer of the first round asked before the deadline that has one, or an error at the deadline or the first failing call |
| HandshakePoll.WaitedIff | index.ts:503-512 | an answer is returned if and only if the first round that is not barren was asked in time and has that answer first |
| HandshakePoll.FirstAnswerIsFirst | index.ts:505-506 | the answer taken from a round is the first message that is one |
| HandshakePoll.WaitingIsBounded | index.ts:501-510 | with 1500 ms between rounds the hub is asked at most 30 times |
| HandshakePoll.Gateway.PerformMatchRequest | index.ts:960-1172 | which stage a request fails at; ready exactly if everything before the token is there, the offer was acknowledged, a well-formed answer came in time, and consumption and ready mark went through; what is installed in each case |
| HandshakeRuns.MessageIsARun | index.ts:562-670 | handling a message is a run of the protocol: the agent's record as the code leaves it, at most the answer added to the messages, matches, sessions and jobs as before |
| HandshakeRuns.PollsAreARun | index.ts:526-676 | a whole poll over several matches is a run of the protocol, whichever matches fail on the way |
| HandshakeRuns.RequestIsARun | index.ts:1060-1172 | a match request, with anything the others do while it waits, is a run of the protocol on every branch; the session ends ready exactly when the method says so |
| HandshakeAgreement.StepKeepsInv | index.ts:526-676 | what every step of the two-party protocol keeps |
| HandshakeAgreement.Agreement | index.ts:1060-1172 | when the requester is ready: it issued its token, then the provider installed it, then the provider issued the answer's token, then the requester installed that; both well formed; every issued token accepted by its issuer until its time is up |
| HandshakeAgreement.NothingIsMalformed | index.ts:515-524 | no message between gateways is ever ignored, or given up on, as malformed |
| HandshakeAgreement.PeerNamesStayDistinct | index.ts:478-496 | peer names that start distinct stay distinct in every run |
| HandshakeAgreement.ConsumedAnswerIsCredential | index.ts:1134-1159 | right after consuming the answer the provider's entry holds the answer's token |
| HandshakeCredentials.ConsumedMessageIsCredential | index.ts:596-608 | right after the provider consumed a well-formed message, its sender is found with the message's address and token, and every other name as before |
| HandshakeCredentials.ConsumptionMarks | index.ts:577-630 | which consumption marks a message as processed and which makes a token valid, with its timer |
| HandshakeCredentials.CredentialsAreLastInstalled | index.ts:478-496 | in every run an agent finds under a name the token of its last installation under it, and without one what it started with |
| HandshakeCredentials.ReadyMeansMutualCredentials | index.ts:526-1172 | once the requester is ready, and unless something else was installed under these names, each finds under the other's name the token the other issued for the match |
| HandshakeOnce.AnsweredAtMostOnce | index.ts:562-597 | if no message is pulled while it is being consumed, no offer is ever answered twice |
| HandshakeOnce.PullIsSafeIff | index.ts:562-597 | a pull keeps at-most-once for all continuations if and only if the message is not already being consumed |
| HandshakeOnce.OneOfferTwoTokens | index.ts:562-630 | the run from the start in which two polls of one agent answer one offer with two tokens |
| SharedContext.LoadState | src/shared-context.ts:334-355 | reading the file line by line into three maps is the replay of its events |
| SharedContext.SharedState.Apply | src/shared-context.ts:358-374 | one event updates the maps as the replay step does |
| SharedContext.BatchEffect | src/shared-context.ts:316-326 | an appended batch is one step on its own room and leaves every other room alone |
| SharedContext.NewerIsSuffix | src/shared-context.ts:228-232 | on time-ordered messages the `after` filter keeps exactly a suffix |
| SharedContextRuns.GroundedLogIsSound | src/shared-context.ts:358-374 | batches that were grounded when appended replay to a sound state with exact artifact counts |
| SharedContextRuns.LogIntegrity | src/shared-context.ts:167-275 | for every interleaving of loads and appends: messages in existing rooms, artifacts in existing rooms and about messages there, artifact count = embedded + attached |
| SharedContextEffects.RequestIsStored | src/shared-context.ts:149-275 | a request queues one batch if and only if it is acceptable to the loaded copy, and appending that batch, whatever was appended before it, stores exactly what was requested: for a post one message with its id, text, time and artifacts in order |
| SharedContextEffects.CreationIsStored | src/shared-context.ts:105-129 | creating a room stores exactly that room, open and stamped with the time of the call |
| SharedContextEffects.NothingIsInvented | src/shared-context.ts:105-275 | for every interleaving: each message in the replay was posted with this id, text, time and list of artifacts, each artifact was attached or came with such a post, each room has the details and creation time it was created with |
| SharedContextRuns.ReadsNewestInOrder | src/shared-context.ts:185-232 | messages stay in time order despite overlapping posts, and a read with or without `after` returns the newest in order: 50 by default, at least one, at most the limit, and fewer than wanted only if there are no more |
| SharedContextArchive.ArchiveIsAbsorbing | src/shared-context.ts:149-183 | if operations on a room take turns, an archived room stays archived and unchanged in every later replay |
| SharedContextArchive.LateWriteHarmlessIff | src/shared-context.ts:181-183 | with any write queue: a late write leaves a room that is archived, or whose archive is queued, alone exactly when the room was not open at its load; a post then also reopens it, an attachment does not |
| SharedContextArchive.OverlappingPostReopens | src/shared-context.ts:176-217 | a run in which an overlapping post reopens an archived room |
| SharedContextStores.SharedContextStore.CreateRoom | src/shared-context.ts:105-129 | a disabled store and a blank title are refused and change nothing; otherwise a new open room is queued for the log in one step of the store |
| SharedContextStores.SharedContextStore.ArchiveRoom | src/shared-context.ts:149-165 | the archive batch computed from the loaded copy, or the error |
| SharedContextStores.SharedContextStore.PostMessage | src/shared-context.ts:167-219 | the post batch computed from the loaded copy, or the error; what is queued is the message as given, its artifacts one by one, and the room |
| SharedContextStores.SharedContextStore.AttachArtifact | src/shared-context.ts:235-275 | the attach batch computed from the loaded copy, or the error |
| SharedContextStores.SharedContextStore.WriteNext | src/shared-context.ts:320-326 | appends leave the queue in order; a failed one is lost without blocking the next |
| GatewayRpcConnections.GatewayRpcConnection.Request | src/executor.ts:571-612 | refused when not connected, otherwise one request event, also when `send` throws |
| GatewayRpcConnections.GatewayRpcConnection.RequestTimedOut | src/executor.ts:591-594 | the timer's callback is the timeout event |
| GatewayRpcConnections.GatewayRpcConnection.HandleMessage | src/executor.ts:751-812 | a response frame settles its pending request unless it is an `accepted` frame and a final one is expected; a challenge resolves the wait; any other frame changes nothing |
| GatewayRpcConnections.GatewayRpcConnection.RejectAllPending | src/executor.ts:814-820 | the loop rejects every pending request once and clears its timer |
| GatewayRpcConnections.GatewayRpcConnection.AwaitConnectChallenge | src/executor.ts:635-661 | a new wait supersedes and rejects the old one |
| GatewayRpcConnections.GatewayRpcConnection.RejectConnectChallenge | src/executor.ts:663-679 | rejects the wait if there is one and clears resolver and timer |
| GatewayRpcConnections.GatewayRpcConnection.CloseListener | src/executor.ts:536-540 | the socket's close rejects the wait and everything pending |
| GatewayRpcConnections.GatewayRpcConnection.Close | src/executor.ts:614-633 | after `close()` nothing is pending, no timer runs, no wait is left |
| GatewayRpcSettlement.SettledExactlyOnce | src/executor.ts:571-633 | over every order of events: pending exactly while nothing concluded it, otherwise exactly one settling call; one timer per pending request |
| GatewayRpcSettlement.PromiseTellsTheEvents | src/executor.ts:571-820 | the first event that does not leave a request waiting makes the one call on its promise: an ok frame its payload, any other its message, a timeout or a close an error; until then there is none |
| GatewayRpcSettlement.FirstConclusionDecides | src/executor.ts:751-820 | the first concluding event after the request decides its outcome |
| GatewayRpcSettlement.SettlementHasCause | src/executor.ts:751-820 | conversely every settlement is a send error or the first concluding event; never an `accepted` frame when the final one is expected |
| GatewayRpcSettlement.CloseSettlesEverything | src/executor.ts:614-633 | after either close every promise handed out has been settled by exactly one call |
| GatewayRpcSettlement.WaitSettledExactlyOnce | src/executor.ts:635-679 | every challenge wait is settled once, at most one waits, and the wait timer runs exactly then |
| GatewayRpcSettlement.WaitTellsTheEvents | src/executor.ts:635-679 | the first event that does not leave a challenge wait waiting settles it, and only a challenge with a nonce resolves it |
| GatewayRpcSettlement.NonceIsLastAccepted | src/executor.ts:643-647 | the nonce is that of the latest challenge somebody waited for, unless dropped since |
| Recency.TruncationCommutes | src/connection-state.ts:74-89 | cutting the older part to n entries before de-duplicating changes none of the first n |
| ConnectionStates.UniqueNewest | src/connection-state.ts:74-85 | the loop with its seen set returns the first 100 distinct positive ids in order |
| ConnectionStates.ConnectionStateStore.Load | src/connection-state.ts:119-125 | a missing or unparsable file is the empty state, otherwise the normalised one |
| ConnectionStates.ConnectionStateStore.RecordRequest | src/connection-state.ts:131-146 | the file is what the whole history of requests determines; offers and sessions untouched |
| ConnectionStates.ConnectionStateStore.RecordOffer | src/connection-state.ts:148-162 | the same for offers |
| ConnectionStates.ConnectionStateStore.RecordSession | src/connection-state.ts:164-183 | the same for sessions |
| ConnectionStates.IdsRefineHistory | src/connection-state.ts:131-191 | stored ids are the 100 most recent distinct positive ids of the history |
| ConnectionStates.RecordsRefineHistory | src/connection-state.ts:87-89 | stored records are, in order, the latest ones for the 100 most recent distinct ids |
| ConnectionStates.StoredIsNormal | src/connection-state.ts:91-106 | reloading what was stored changes nothing |
| ConnectionStates.ListsAgreeIff | src/connection-state.ts:74-89 | ids and records name the same things in the same order exactly when the 100 most recent distinct ids of the history are positive |
| ConnectionStates.RecordingKeepsAgreementIff | src/connection-state.ts:74-89 | lists that agree still agree after one more recording exactly when its id is positive |
| ConnectionStates.ZeroIdSplitsLists | src/connection-state.ts:74-89 | one recording with id zero splits the lists |
| TaskContexts.OpenClawAgentExecutor.RememberTaskContext | src/executor.ts:1027-1038 | the in-place update of the insertion-ordered map is the specified step |
| TaskContexts.OpenClawAgentExecutor.CancelTask | src/executor.ts:1002-1024 | which context a cancellation is published with, if it is published, and what is forgotten |
| TaskContexts.CacheRefinesHistory | src/executor.ts:1002-1038 | with non-empty ids the cache holds a most-recent prefix of all tasks remembered and not cancelled, with their latest contexts, within its limit |
| TaskContexts.OnlyTheLimitForgets | src/executor.ts:1027-1038 | without cancellations exactly the newest 10000 are there |
| TaskContexts.OverflowIff | src/executor.ts:1032-1036 | after any history within the limit, the limit is exceeded exactly when a new task meets a full cache whose oldest key is empty |
| TaskContexts.EmptyIdBlocksEviction | src/executor.ts:1032-1036 | histories after which the cache holds n + 1 entries, for every n |
| OutboxRelay.Outbox.Enqueue | src/internal/outbox.ts:30-48 | a pending entry, due at once, at the end of the store |
| OutboxRelay.Outbox.GetPending | src/internal/outbox.ts:51-60 | the due pending entries in stable order of creation |
| OutboxRelay.Outbox.MarkFailed | src/internal/outbox.ts:77-96 | counts the retry, and either gives the entry up or schedules it by capped exponential backoff |
| OutboxRelay.Outbox.SweepSent | src/internal/outbox.ts:122-129 | deletes exactly the sent entries created before the cutoff |
| OutboxRelay.Outbox.GetStats | src/internal/outbox.ts:108-114 | the counts by status are exact and add up to the store size; nothing is ever counted as failed |
| OutboxRelay.Outbox.RelayTick | src/internal/outbox.ts:138-145 | a tick starts a pass and offers its first entry, or does nothing while a pass runs |
| OutboxRelay.Outbox.RelayContinues | src/internal/outbox.ts:146-158 | an outcome is recorded and the next entry of the pass is offered |
| OutboxDelivery.OffersByStage | src/internal/outbox.ts:77-96 | the number of offers is fixed by the stage of the entry; the one in flight is the one offered last |
| OutboxDelivery.OffersAreBounded | src/internal/outbox.ts:136-161 | under concurrent enqueue, remove and cleanup: at most max(1, maxRetries) offers, exactly that many before giving up, none after delivery or giving up |
| OutboxDelivery.StoreTellsTheActs | src/internal/outbox.ts:63-96 | status and retry count are readings of the acts, at most one entry is sending, no retry is due later than maxDelayMs from now |
| OutboxDelivery.PassKeepsEnqueueOrder | src/internal/outbox.ts:51-60 | with a monotone clock a pass offers due entries in enqueue order |
| OutboxRetention.CleanupKeepsTheRest | src/internal/outbox.ts:122-129 | a cleanup keeps every entry that is not sent and every entry created at or after the cutoff, unchanged, and deletes the rest |
| OutboxRetention.NothingIsDropped | src/internal/outbox.ts:99-129 | in every run an enqueued entry is in the store unless it was removed by its id, or delivered and swept up after its time |
| OutboxRetention.OfferedIffDue | src/internal/outbox.ts:51-60 | a pass takes up an entry exactly if it is in the store, pending and due |
| OutboxRetention.EnqueuedIsDue | src/internal/outbox.ts:30-48 | a fresh entry is due at once |
| OutboxRetention.RefusalPostpones | src/internal/outbox.ts:77-96 | in every run a refusal counts, and the entry is dead at the limit or due again after `baseDelayMs` doubled with each refusal, plus at most one `baseDelayMs`, capped |
| Idempotency.IdempotencyStore.Check | src/internal/idempotency.ts:42-57 | answers from the latest store of the key in the whole history, if unexpired |
| Idempotency.IdempotencyStore.Store | src/internal/idempotency.ts:60-76 | the entry and its expiry, with the default ttl if none is given |
| Idempotency.IdempotencyStore.Cleanup | src/internal/idempotency.ts:79-87 | deletes what expired; entries plus expiredCleaned stay the same |
| Idempotency.CheckRefinesHistory | src/internal/idempotency.ts:42-57 | with a monotone clock the answer is the latest unexpired store's, wherever cleanups ran |
| Idempotency.AnswerTellsTheStores | src/internal/idempotency.ts:42-76 | duplicate if and only if the latest store of the key is unexpired with the same fingerprint, conflict if and only if it is unexpired with another, new otherwise |
| Idempotency.CleanupIsUnobservable | src/internal/idempotency.ts:79-87 | leaving out all cleanups and checks changes no answer |
| Nonces.NonceCache.AddNonce | src/internal/security.ts:115-127 | accepts exactly when the last acceptance of the nonce has expired |
| Nonces.NonceCache.CleanupExpired | src/internal/security.ts:135-142 | the loop deletes exactly what has expired |
| Nonces.AddRefinesHistory | src/internal/security.ts:115-142 | acceptance depends on the additions alone |
| Nonces.NoReplayWithinTtl | src/internal/security.ts:115-142 | a nonce accepted at t1 with a ttl is not accepted again before t1 + ttl |
| Nonces.AcceptedIffNothingBlocks | src/internal/security.ts:115-142 | a nonce is accepted if and only if no earlier acceptance of it is still within its ttl |
| StableSorting.SortIsStable | src/routing-rules.ts:96-97 | the sort yields a sorted sequence in which equal keys keep their order |
| StableSorting.StableSortIsUnique | src/routing-rules.ts:96-97 | there is only one such sequence |
| StableSorting.SortThenScanIsBest | src/routing-rules.ts:120-134 | the first hit after sorting is the best hit before sorting |
| StableSorting.BestIsOptimal | src/routing-rules.ts:120-134 | the best hit has least key and is the earliest of those |
| Transports.OrderTransports | src/transport-fallback.ts:30-49 | two buckets and one in-place sort give the stable sort by priority with unknown transports last |
| ConnectionDescriptors.ResolveA2aAgentCardUrl | src/connection-descriptor.ts:39-59 | the two scans return the first hits of the sorted endpoints |
| ConnectionDescriptors.ResolutionIsOptimal | src/connection-descriptor.ts:39-59 | the result is the URL of the endpoint least by (has metadata URL, transport priority, position), and there is one whenever a candidate exists |
| RoutingRules.ParseRoutingRules | src/routing-rules.ts:45-100 | the loop drops invalid entries and the sort puts higher priorities first |
| RoutingRules.MatchRule | src/routing-rules.ts:120-135 | the target of the first rule that applies |
| RoutingRules.RoutingIsOptimal | src/routing-rules.ts:45-135 | parsing then matching yields the applicable valid entry of greatest priority, earliest in the configuration among equals |
| RoutingRules.EntryAppliesIff | src/routing-rules.ts:45-135 | parsing an entry and matching the rule it becomes is testing the entry as configured: name, peer, and every condition it has |
| RoutingRules.RoutingFollowsConfiguration | src/routing-rules.ts:45-135 | in terms of the configured entries: the message goes to the peer and agent of the applying entry of greatest priority, the earliest among equals |
| AddressText.SplitOfJoin | src/file-security.ts:127-142 | splitting at a character undoes joining with it |
| AddressText.SplitAtDouble | src/file-security.ts:129-133 | text with one `::` splits there and nowhere else |
| AddressDigits.PaddedIsCanonical | src/file-security.ts:141 | padding and lower-casing any printing of a group gives its four canonical digits |
| AddressCanonicity.NormalizeIsCanonical | src/file-security.ts:127-142 | every printing of eight groups by section 2.2 of RFC 4291 normalises to the one full lower-case form |
| AddressCanonicity.PrintingDeterminesAddress | src/file-security.ts:127-142 | no text prints two addresses |
| AddressCanonicity.VerdictDependsOnAddress | src/file-security.ts:101-125 | `isPrivateIpv6` is true exactly for ::1, ::, fc00::/7, fe80::/10 and mapped private IPv4 addresses, however they are printed |
| AddressCanonicity.Ipv4TextVerdict | src/file-security.ts:78-99 | the dotted text of four octets is judged by number: 0/8, 10/8, 127/8, 169.254/16, 172.16/12 and 192.168/16 are private |
| AddressCanonicity.MappedAgreesWithIpv4 | src/file-security.ts:117-122 | a mapped address is judged like the IPv4 address inside |

## Left out

- HTTP, gRPC, WebSocket, Express and file-system calls: their outcomes are inputs; batch appends and file renames are atomic.
- Cryptography of the handshake: encryption is ideal and messages are modelled by their contents; HMAC signing, Ed25519 and SHA-256 are not modelled, fingerprints are compared as given.
- Random tokens and uuids: fresh by assumption, so collisions are not modelled.
- Hub registration, profile, match and connection-request clients; the hub is modelled only as a relay that keeps messages under unique ids.
- QueueingExecutor.QueueingAgentExecutor.constructor: expects a telemetry object that has not counted tasks yet, as index.ts:685-708 creates one per executor; several executors sharing one are not modelled.
- HandshakePoll.Gateway.ProcessPendingHubMatches: runs without interruption at the agent; what other agents and polls do at its awaits is the subject of the protocol steps in Handshake. A message that cannot be decrypted counts as one whose handling throws.
- Telemetry: HTTP, peer and security counters, durations, the `timed_out` meter, log lines and audit callbacks.
- Contents of the events published on task buses; only their terminal states and the final `finished` call are modelled.
- The list of error-message fragments that make a thrown error retryable: modelled as one flag per thrown error.
- Shared rooms: trimming and normalisation of text fields, message kinds, participants and metadata; listing and summarising rooms; several processes writing one file; malformed log lines.
- GatewayRpcConnections.GatewayRpcConnection.HandleMessage: JSON parsing happens before it; nonces arrive trimmed.
- Building the connect parameters and the device signature; the open handshake of the socket apart from its failure.
- ConnectionStates.ConnectionStateStore.Load: ids that are not integers.
- `NonceCache.has`, which can tell whether a cleanup ran; signature and timestamp checks.
- Outbox: message contents and error texts; starting and stopping the interval timer.
- RoutingRules.ParseRoutingRules: strings arrive trimmed and fields of the wrong type arrive as missing; priorities are real numbers.
- RoutingRules.MatchRule: the regular-expression engine is a parameter.
- ConnectionDescriptors.ResolveA2aAgentCardUrl: URL parsing is a parameter of each endpoint, and protocol and transport arrive trimmed in lower case.
- AddressCanonicity.NormalizeIsCanonical: printings with an embedded dotted quad, which the source hands to the IPv4 check first, and zone suffixes.
- File size, MIME and host-name checks of src/file-security.ts, and the asynchronous DNS check: list look-ups and library behaviour.
- Config parsing, tool and gateway-method registration, agent-card building, text formatting, official-agent call scanning: wide but shallow.
- Envelope hop and loop checks: the forwarding step that would extend the route is not in the repository.
