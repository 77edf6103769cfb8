# HAL-O-swarm: verified model of the event, policy, command and cache machinery

HAL-O-swarm runs coding-agent sessions on many nodes and watches them from one
supervisor. This project models the stateful core of that system and proves what it
guarantees over whole runs:

- **Event delivery.** The agent's client numbers, buffers, acknowledges and resends events
  (`WsClient`); the supervisor's pipeline dedups, reorders behind a gap buffer, asks for
  replays and feeds a bounded persist queue (`EventDedup`, `EventStream`, `EventPipeline`,
  `PipelineRuns`, `PersistQueue`); `PipelineQueue` runs the pipeline object beside the queue
  machine. `Delivery` joins both halves over a wire that loses,
  delays and duplicates; `DeliveryProgress` shows that it never gets stuck, and
  `DeliveryPersisted` and `PersistedProgress` carry both results on to the database.
- **Dependency graph and cascade** (`DependencyGraph`, `Cascade`): the depth-first cycle
  search accepts exactly the acyclic graphs, and the readiness cascade does not deadlock.
- **Policy engine** (`PolicyEngine`, `PolicyEvents`): the retry automaton per session and
  policy, its rate bound, and the engine's own event stream inside the pipeline.
- **Commands and connections** (`CommandDispatcher`, `IdempotentDispatch`, `Hub`, `HubRegistry`): reply
  matching under interleaving, the 24-hour idempotency table, and the connection table with
  its channel-closing discipline.
- **Caches that agree with something simpler** (`BoundedWindow`, `CredentialApplier`,
  `CredentialIdempotency`, `SessionTracker`, `NodeRegistry`, `ConcurrentWrites`, `Dates`, `Grouping`, `Cost`).

`Wrappers` and `Decimal` hold the shared result types and decimal rendering.

Objects whose methods change fields are classes here too, proved method by method against
functions on values; what the system promises is then proved about those functions over all
runs. Protocols are state machines over their atomic sections, so every interleaving is a run.

## What the code needs from its surroundings

- `ProcessEvent` calls for one agent follow one another (the lock is taken twice inside one
  call); different agents interleave freely. One forwarder emits per agent.
- Within one agent, and one life of agent and supervisor, an event id names one event and a
  sequence number names one event.
- Acknowledgements are steps of the environment: nothing in the repository calls
  `AcknowledgeSeq`. They are assumed never to cover a number that is not released yet.
- The LRU library is trusted; only `Contains` and `Add` of absent keys are used, so it is a
  first-in-first-out window.
- Clocks do not run backwards. Instants are integers, costs are real numbers, counters are
  unbounded; `EventStream.LastBoundedByArrivals` shows a 64-bit sequence counter cannot wrap
  before as many events have arrived.
- Command ids are distinct, and dispatches that share an idempotency key do not overlap.
- In `SessionTracker` and `NodeRegistry` operations follow one another, although the code lets go
  of its lock between statement and cache write; `ConcurrentWrites` says which interleavings of
  two operations do harm.
- Every connection is registered with the hub once.
- Map iteration order is arbitrary: loops over maps pick any remaining key.

## Where a promise fails as stated

- Dedup is transparent exactly when no agent id is another one followed by a colon
  (`PipelineRuns.DedupTransparentIff`); `CollisionLosesEvent` gives the run that loses an event.
- The cascade starts everything exactly when no project depends on the empty name, because a
  trigger for the empty name is refused (`Cascade.CascadeStartsAllIff`, `EmptyNameStrands`).
- The write-through caches agree with the database after every operation except one: a reload
  whose read fails after its update took effect, with a cached session not already unreachable
  (node not already offline) (`SessionTracker.StepAgreesIff`, `NodeRegistry.StepAgreesIff`; `HalfFailedReloadBreaks` in both
  modules gives the run).
- The outcome of `UpdateSession` depends on map iteration order exactly when two keys write
  one field with different values (`SessionTracker.UpdateDeterministicIff`; `AmbiguousOrders`
  gives the two orders).
- The planning notes ask that a repeated credential push is never applied again. The code
  ignores it exactly while fewer than a thousand other ids were remembered after it
  (`CredentialApplier.RepeatIgnoredIffRecent`); `OldPushAppliedAgain` gives a run after which an
  old push is applied over a newer one.
- The registry's online status is not hub membership; `Hub.RegistryFollowsTable` says exactly
  when they differ, `DropLeavesOnline` and `TickLeavesListed` give the two ways.
- A report's text comparison of dates is right, from a start with a four-digit year, exactly
  unless the row's year has more digits and its first four are below the start's year
  (`Dates.TextOrderFromUsualIff`). Epoch seconds beyond the year 9999 are accepted, so such rows
  can be stored: `Cost.FarRowStoredAndMissed` stores one that a report misses.
- A normalised date is a fixed point of normalisation exactly when it is empty or has ten
  characters (`Dates.NormalizeAgainIff`; `FarEpochLost` gives an epoch whose date is lost).
- Two operations that cross between statement and cache write leave a stale entry
  (`ConcurrentWrites.TwoOpsAgreeIff`, `StaleReadCached`).

## Model

| member | source | states |
|---|---|---|
| `Delivery.DeliverySafety` | integration/helpers.go:506-544 | over every run of sends, writes, failures, disconnects, dials, resends, sound acks, late deliveries and other agents' traffic, the released stream is a prefix of the sent one and every sent event is released, buffered under its number, or still in the sender's buffer |
| `Delivery.DeliveryCompletes` | internal/agent/wsclient.go:180-226 | once a connection that failed no write has finished its resend and its wire is empty, everything sent is released exactly once in order and nothing is buffered |
| `Delivery.RunKeeps` | integration/helpers.go:241-249 | the protocol invariant (consecutive sender buffer, genuine traffic, paired inputs, nothing discarded unheard) holds after every run |
| `DeliveryProgress.CanAlwaysComplete` | internal/agent/wsclient.go:153-226 | after every run some continuation that sends nothing new ends with everything sent released and nothing buffered |
| `DeliveryPersisted.AttemptedIsSubsequenceOfSent` | internal/supervisor/event_pipeline.go:87-117 | over every joint run of delivery and persist queue, the events taken to the database for a node are the sent events of strictly increasing numbers |
| `DeliveryPersisted.AttemptedIsSent` | internal/supervisor/event_pipeline.go:233-267 | once delivery has completed and nothing of the node is queued, in hand or dropped, the events taken to the database are exactly what the client sent, in order |
| `DeliveryPersisted.JointRunKeeps` | internal/supervisor/event_pipeline.go:104-117 | the queue's producers hold the pipeline's streams throughout |
| `PersistedProgress.CanAlwaysPersist` | internal/supervisor/event_pipeline.go:245-267 | after every joint run with the worker serving and nothing of the node dropped, some continuation that sends nothing new ends with everything sent taken to the database |
| `Delivery.EventIdInjective` | integration/helpers.go:515-530 | the forwarder's ids name one number each |
| `WsClient.BufferIsConsecutiveRun` | internal/agent/wsclient.go:321-351 | over every run of sends and acks the pending list is exactly the numbers above the effective ack up to the last sent one, in order, each with its own envelope |
| `WsClient.FloorIsHighestAck` | internal/agent/wsclient.go:336-351 | with acks below the next number the effective ack is the highest one so far, although the stored field is a plain assignment |
| `WsClient.StoredAckIsLast` | internal/agent/wsclient.go:336-339 | the stored acknowledgement is the last one received, even when an earlier one was higher |
| `WsClient.AckTrimsRun` | internal/agent/wsclient.go:340-350 | filtering by an ack leaves the consecutive run above it |
| `WsClient.WSClient.SendEvent` | internal/agent/wsclient.go:321-332 | the event is buffered under the next number before the write, so a failed write loses nothing |
| `WsClient.WSClient.AcknowledgeSeq` | internal/agent/wsclient.go:336-351 | the buffer becomes the order-preserving filter of what it was |
| `WsClient.WSClient.Compact` | internal/agent/wsclient.go:340-348 | compacting into the same backing array equals filtering |
| `WsClient.WSClient.SnapshotPending` | internal/agent/wsclient.go:353-358 | the snapshot is a fresh copy of the buffer |
| `WsClient.WSClient.ResendPendingEvents` | internal/agent/wsclient.go:353-365 | what is written is a prefix of the buffer at the start, all of it unless a write fails, whatever acks arrive meanwhile |
| `EventStream.RunIsLargestPrefix` | internal/supervisor/event_pipeline.go:119-137 | after any run the last number is the largest k with 1..k all arrived, exactly the arrived numbers above it are buffered (all at least last+2), and 1..last were released in order without repeats |
| `EventStream.OrderIndependence` | internal/supervisor/event_pipeline.go:172-231 | two arrival orders of the same events, repeats included, end in the same state |
| `EventStream.RunHoldsWhatArrived` | internal/supervisor/event_pipeline.go:172-231 | released and buffered numbers are exactly those that arrived, each with an event that arrived |
| `EventStream.DrainKeeps` | internal/supervisor/event_pipeline.go:207-231 | draining ends with the next number missing, extends the released stream and loses or invents nothing |
| `EventStream.ReplaySufficient` | internal/supervisor/event_pipeline.go:172-205 | a gap's request is never empty, ends just below the early event, and once its numbers have arrived in any order the stream is past that event |
| `EventStream.ReplayAsksForMissing` | internal/supervisor/event_pipeline.go:172-205 | the request covers every number below the early event that has not arrived, begins at one that has not, and asks for nothing released |
| `EventStream.LastBoundedByArrivals` | internal/supervisor/event_pipeline.go:207-231 | last number plus buffered count never exceeds the number of arrivals |
| `EventPipeline.EventPipeline.ProcessEvent` | internal/supervisor/event_pipeline.go:87-117 | errors for missing ids and number zero, silence for duplicates, otherwise the agent's stream takes the event, other agents are untouched, a gap sends its replay request, and the newly released events are offered to the queue in order |
| `EventPipeline.EventPipeline.SequenceEvent` | internal/supervisor/event_pipeline.go:104-117 | past the dedup cache an event moves only its own agent's stream, sends a replay request exactly on a gap, and offers what it released to the queue in order |
| `EventPipeline.EventPipeline.ConsumeInOrder` | internal/supervisor/event_pipeline.go:207-231 | the drain loop over the mutable maps is the drain of the stream |
| `EventPipeline.EventPipeline.TakeReady` | internal/supervisor/event_pipeline.go:213-224 | the loop that deletes buffered entries while the next number is present equals the drain |
| `EventPipeline.EventPipeline.EnqueuePersist` | internal/supervisor/event_pipeline.go:233-243 | a full queue drops the event, otherwise it is queued last |
| `EventPipeline.DropsOnlyOverflow` | internal/supervisor/event_pipeline.go:233-243 | a batch is queued as far as the 1024 places go, in order, and exactly the overflow is dropped |
| `EventPipeline.EventPipeline.PersistNext` | internal/supervisor/event_pipeline.go:245-267 | one turn of the worker attempts the oldest queued event |
| `EventPipeline.EventPipeline.HandleGap` | internal/supervisor/event_pipeline.go:172-205 | the early event is buffered and the missing range requested |
| `EventPipeline.EventPipeline.ValidateSequence` | internal/supervisor/event_pipeline.go:119-137 | old, gap or match is decided against the last released number |
| `EventPipeline.EventPipeline.Close` | internal/supervisor/event_pipeline.go:245-267 | the worker's last loop attempts everything queued, in order |
| `EventPipeline.EventPipeline.LastSequence` | internal/supervisor/event_pipeline.go:269-274 | the last released number of the agent's stream |
| `EventPipeline.EventPipeline.PendingCount` | internal/supervisor/event_pipeline.go:276-281 | the size of the agent's gap buffer |
| `PipelineRuns.DedupTransparentIff` | internal/supervisor/event_dedup.go:30-59 | for a set of agents, the bounded evicting window leaves every paired run's streams as without dedup exactly when no agent id extends another by a colon |
| `PipelineRuns.DedupTransparent` | internal/supervisor/event_pipeline.go:95-117 | with separated agents, every paired run, duplicates that outlive the window included, ends in the same streams as without dedup |
| `PipelineRuns.CollisionLosesEvent` | internal/supervisor/event_dedup.go:31-36 | two colliding agent ids make the second agent's first event vanish |
| `PipelineRuns.StreamIsOwnRun` | internal/supervisor/event_pipeline.go:124-137 | an agent's stream is the run of its own arrivals: other agents never change it |
| `PipelineRuns.ReplaySufficientWithDedup` | internal/supervisor/event_pipeline.go:172-231 | replays of a requested range advance the agent past the early event with dedup in place |
| `PipelineRuns.ProcessAll` | internal/supervisor/event_pipeline.go:87-117 | feeding a run to the pipeline object yields the states the run functions describe |
| `PipelineRuns.WindowIsLastIds` | internal/supervisor/event_dedup.go:39-58 | over every run of agents without a colon in their ids, an agent's window is the last N admissions of its own events' ids |
| `PipelineRuns.WindowIsOffers` | internal/supervisor/event_dedup.go:30-59 | over every run the window of whatever precedes the first colon is the bounded window of what follows it |
| `PipelineRuns.DuplicateIffSeenRecently` | internal/supervisor/event_dedup.go:51-58 | in the pipeline's own run an event is taken for a duplicate exactly when its id was admitted for its agent with fewer than N admissions for that agent after it |
| `EventDedup.EventDedupCache.Seen` | internal/supervisor/event_dedup.go:30-59 | reports whether the id is in its agent's window and records it there |
| `EventDedup.NewEventDedupCache` | internal/supervisor/event_dedup.go:19-28 | a non-positive size is refused |
| `EventDedup.SharedKeyMeansExtension` | internal/supervisor/event_dedup.go:31-36 | two agents share a dedup key only when one id extends the other |
| `BoundedWindow.WindowIsLastAdmissions` | internal/supervisor/event_dedup.go:39-58 | the window is the last N admissions, without repeats |
| `BoundedWindow.DuplicateIffRecent` | internal/supervisor/event_dedup.go:39-58 | a key reports duplicate exactly when admitted with fewer than N admissions after it |
| `BoundedWindow.OfferEvictsOldest` | internal/agent/credential_apply.go:83-94 | one offer admits at most one key and evicts at most the oldest, only from a full window |
| `PersistQueue.AlwaysAccounted` | internal/supervisor/event_pipeline.go:104-117 | over every interleaving, each agent's released events are in hand or an exact interleaving of attempted-then-queued and dropped ones |
| `PersistQueue.AttemptedInOrder` | internal/supervisor/event_pipeline.go:233-267 | an agent's attempted stream is strictly increasing, and attempted, queued, dropped and in-hand events partition the released ones |
| `PersistQueue.CloseFlushesEverything` | internal/supervisor/event_pipeline.go:82-85 | once the worker has returned with no later producer and nothing dropped, the attempted stream is the released stream |
| `PersistQueue.DroppedOnlyWhenFull` | internal/supervisor/event_pipeline.go:233-243 | over every interleaving an event is dropped only by an offer to a queue of 1024 events, and an offer to a shorter queue is queued last |
| `PersistQueue.QueueBounded` | internal/supervisor/event_pipeline.go:72-72 | the queue never holds more than 1024 events |
| `PipelineQueue.CallEnqueuesBatch` | internal/supervisor/event_pipeline.go:104-117 | the machine's release followed by one offer per released event does to the queue what one call of the pipeline does |
| `PipelineQueue.Drive` | internal/supervisor/event_pipeline.go:87-117 | any mix of calls and worker turns leaves the pipeline object with the streams, queue, dropped and attempted events of a run of the queue machine |
| `PipelineQueue.RunAndClose` | internal/supervisor/event_pipeline.go:82-85 | a new pipeline, after any such mix and a close, has an empty queue, and when nothing was dropped each agent's attempted events are its released ones in order |
| `DependencyGraph.NewDependencyGraph` | internal/supervisor/depgraph.go:18-94 | succeeds exactly when the edge relation has no closed walk, self-loops included, for every iteration order; on failure reports a genuine closed walk |
| `DependencyGraph.DependencyGraph.DetectCycleDFS` | internal/supervisor/depgraph.go:67-94 | returns a closed walk, or finishes the node with all its dependencies before it; terminates on the unvisited projects |
| `DependencyGraph.DependencyGraph.ExploreAll` | internal/supervisor/depgraph.go:72-89 | the loop over the neighbours returns a closed walk or finishes them all |
| `DependencyGraph.DependencyGraph.Validate` | internal/supervisor/depgraph.go:51-65 | returns a closed walk or proves a schedule of all projects |
| `DependencyGraph.ScheduleMeansAcyclic` | internal/supervisor/depgraph.go:51-94 | a graph whose search finished has no closed walk |
| `DependencyGraph.DependencyGraph.GetDependents` | internal/supervisor/depgraph.go:105-112 | the reverse index lists exactly the projects with an edge to this one |
| `DependencyGraph.DependencyGraph.GetDependencies` | internal/supervisor/depgraph.go:96-103 | the configured dependencies, none for an unknown project |
| `DependencyGraph.DependencyGraph.IsReady` | internal/supervisor/depgraph.go:114-127 | ready means every dependency has a live session |
| `DependencyGraph.DependencyGraph.HasCompletedSession` | internal/supervisor/depgraph.go:129-142 | for any name, true exactly when some tracked session of it is neither in error nor unreachable |
| `DependencyGraph.LostNodeIff` | internal/supervisor/depgraph.go:129-142 | when a node is lost, a project stays live exactly when it has a session elsewhere that is neither in error nor unreachable |
| `DependencyGraph.LostNodeReadyIff` | internal/supervisor/depgraph.go:114-127 | losing a node readies no project, and leaves ready exactly those whose dependencies all live elsewhere |
| `DependencyGraph.DependencyGraph.TriggerDependents` | internal/supervisor/depgraph.go:144-163 | returns exactly the dependents that are ready; refuses the empty name |
| `Cascade.AcceptedIffAcyclic` | internal/supervisor/depgraph.go:51-94 | a schedule exists exactly when there is no closed walk |
| `Cascade.SomeoneIsReady` | internal/supervisor/depgraph.go:114-127 | in an accepted graph, while some project has no live session one such project is ready |
| `Cascade.TurnedReadyIsTriggered` | internal/supervisor/depgraph.go:144-163 | a project that a new session makes ready is among those its trigger returns |
| `Cascade.CascadeStartsAllIff` | internal/supervisor/depgraph.go:96-163 | every finished cascade has started every project exactly when no project depends on the empty name |
| `Cascade.EachPickStartsOne` | internal/supervisor/depgraph.go:144-163 | every pick from the agenda starts one more project, so a cascade makes at most as many picks as there are projects |
| `Cascade.CascadeFinishes` | internal/supervisor/depgraph.go:144-163 | from any point, picking on comes to an end with an empty agenda, whatever is picked |
| `Cascade.EveryProjectStarts` | internal/supervisor/depgraph.go:96-163 | with no dependency on the empty name a cascade has something on its agenda until it has made as many picks as there are projects, and then every project is started |
| `Cascade.EmptyNameStrands` | internal/supervisor/depgraph.go:144-148 | a dependent of the empty name can be stranded |
| `PolicyEngine.FailingRateBound` | internal/supervisor/policy_engine.go:177-260 | over every run the failure count stays within the maximum and any stretch of failed dispatches spanning T holds at most (T/window+1)*maxRetries of them |
| `PolicyEngine.AttemptsSpaced` | internal/supervisor/policy_engine.go:223-250 | among maxRetries+1 consecutive attempts whose first maxRetries failed, first and last are at least the window apart |
| `PolicyEngine.RunReflects` | internal/supervisor/policy_engine.go:223-260 | the stored state is what the attempts say, and an attempt after a full burst waits out the window |
| `PolicyEngine.CapOncePerBurst` | internal/supervisor/policy_engine.go:199-216 | a cap alert ends maxRetries failures in a row, the next attempt waits out the window, and two alerts are at least maxRetries attempts apart |
| `PolicyEngine.WithPolicyDefaults` | internal/supervisor/policy_engine.go:338-374 | every limit, threshold and interval of a built engine is positive, and each positive setting is kept whatever the others are |
| `PolicyEngine.DefaultsApply` | internal/supervisor/policy_engine.go:338-374 | what an empty configuration stands for |
| `PolicyEngine.RefusedIff` | internal/supervisor/policy_engine.go:223-238 | over every run an attempt is refused exactly when the last maxRetries dispatches failed, filled a burst, and its window is not over |
| `PolicyEngine.PolicyEngine.TryIntervention` | internal/supervisor/policy_engine.go:177-221 | one opportunity moves only its own (session, policy), dispatches exactly when allowed, and emits exactly the events of its outcome |
| `PolicyEngine.PolicyEngine.AllowAttempt` | internal/supervisor/policy_engine.go:223-238 | an exhausted state is cleared once its window is over, otherwise nothing changes |
| `PolicyEngine.PolicyEngine.MarkFailure` | internal/supervisor/policy_engine.go:240-250 | counts the failure and its time for this pair alone |
| `PolicyEngine.PolicyEngine.MarkSuccess` | internal/supervisor/policy_engine.go:252-260 | clears the count of this pair alone |
| `PolicyEngine.PolicyEngine.SetRetryState` | internal/supervisor/policy_engine.go:278-285 | writing one pair's state in the nested map leaves every other pair's as it was |
| `PolicyEngine.PolicyEngine.EmitRetryCapAlert` | internal/supervisor/policy_engine.go:301-311 | exactly two events, an alert and a retry-cap event, with consecutive numbers |
| `PolicyEngine.PolicyEngine.EmitPolicyEvent` | internal/supervisor/policy_engine.go:313-336 | numbers the event with the next counter, and does nothing without a sink |
| `PolicyEvents.InterveneAll` | internal/supervisor/policy_engine.go:117-139 | over a whole run of the engine object each (session, policy) is driven by its own chances alone |
| `PolicyEvents.UnsuccessfulDispatchesBounded` | internal/supervisor/policy_engine.go:177-220 | while no dispatch of a session and policy returns a success, whatever it returns instead, every stretch of them obeys the rate bound of that policy's own limits |
| `PolicyEvents.OutcomeDecides` | internal/supervisor/policy_engine.go:196-220 | in any run, a dispatch that returned a success clears the count; a dispatch error, no result or any other status counts one failure; a refused attempt changes nothing |
| `PolicyEvents.AllWellNamed` | internal/supervisor/policy_engine.go:287-311 | over every run each action event names its policy's command and a success carries no error; cap events are alert and retry cap |
| `PolicyEvents.EventCarries` | internal/supervisor/policy_engine.go:313-336 | the event sent for an emission carries its session, its number in id and sequence, and its kind's name |
| `PolicyEvents.FailureText` | internal/supervisor/policy_engine.go:196-216 | the events of a failed dispatch carry its error, else the result's error text, else the fixed text |
| `PolicyEvents.CounterIsAttemptsPlusCaps` | internal/supervisor/policy_engine.go:287-336 | with a sink the counter equals attempts plus twice the cap hits, without one it stays zero |
| `PolicyEvents.EventsTellTheRun` | internal/supervisor/policy_engine.go:198-220 | for every (session, policy): one action event per dispatch with its outcome and retry count, and exactly one alert and one retry-cap event per filled burst, carrying the maximum |
| `PolicyEvents.PolicyStreamIsWholeRun` | internal/supervisor/policy_engine.go:327-336 | the pipeline's policy-engine stream, among any other agents, is everything emitted in order, last number equal to the counter, nothing buffered |
| `PolicyEvents.PolicyEventsNeverDedupOrGap` | internal/supervisor/event_pipeline.go:87-117 | no engine event is taken for a duplicate or for early |
| `PolicyEvents.PolicyEngineStream` | internal/supervisor/policy_engine.go:13-13 | both for the engine's own agent id |
| `CommandDispatcher.RepliesMatch` | internal/supervisor/command_dispatcher.go:303-385 | over every interleaving no channel holds two results, each id has one channel, and an outcome that is a result is the first one put for its own id |
| `CommandDispatcher.PendingExactlyInFlight` | internal/supervisor/command_dispatcher.go:308-336 | the pending table holds exactly the dispatches in flight and is empty when there are none |
| `CommandDispatcher.OutcomeIsFinal` | internal/supervisor/command_dispatcher.go:323-355 | a decided outcome never changes, whatever arrives later |
| `CommandDispatcher.EarlyReplyNotLost` | internal/supervisor/command_dispatcher.go:320-346 | a result put while a dispatch is undecided is, after any continuation, still in its channel and what the wait would receive, unless the dispatch received it or ended otherwise |
| `CommandDispatcher.FirstForIsFirst` | internal/supervisor/command_dispatcher.go:357-385 | the result a dispatch is given is the first to arrive under its id |
| `CommandDispatcher.OutcomeCases` | internal/supervisor/command_dispatcher.go:303-355 | a failed send decides first, then the timer; else the first arrival for the id is returned, and with none the wait times out |
| `CommandDispatcher.EmptyIdNeverHandled` | internal/supervisor/command_dispatcher.go:357-360 | over every run a result without a command id never reaches a channel |
| `CommandDispatcher.NeverStuck` | internal/supervisor/command_dispatcher.go:303-355 | a dispatch moves only by its own steps, each brings it nearer its end, and one is always enabled |
| `CommandDispatcher.NextKeepsInv` | internal/supervisor/command_dispatcher.go:303-385 | every atomic section keeps the table, channel and history invariant |
| `CommandDispatcher.CommandDispatcher.SendCommand` | internal/supervisor/command_dispatcher.go:303-321 | ends with the send error, else a timeout when the timer wins, else the first arrival for its id; the table is as before |
| `CommandDispatcher.CommandDispatcher.Register` | internal/supervisor/command_dispatcher.go:308-312 | a new dispatch gets a channel of its own |
| `CommandDispatcher.CommandDispatcher.ChannelToAwait` | internal/supervisor/command_dispatcher.go:324-330 | the wait finds the channel that was registered, so it never has to make another |
| `CommandDispatcher.CommandDispatcher.Take` | internal/supervisor/command_dispatcher.go:341-346 | the result case of the select returns what the channel holds |
| `CommandDispatcher.CommandDispatcher.Expire` | internal/supervisor/command_dispatcher.go:347-354 | the timer case of the select ends the wait with a timeout |
| `CommandDispatcher.CommandDispatcher.Forget` | internal/supervisor/command_dispatcher.go:332-336 | the deferred delete removes the table entry and keeps the outcome |
| `CommandDispatcher.CommandDispatcher.WaitForResult` | internal/supervisor/command_dispatcher.go:323-355 | takes what the channel holds or times out, and removes the entry either way |
| `CommandDispatcher.CommandDispatcher.HandleCommandResult` | internal/supervisor/command_dispatcher.go:357-385 | an empty or unknown id or a full channel is refused, otherwise the result is in its dispatch's channel |
| `IdempotentDispatch.AtMostOnePerDay` | internal/supervisor/command_dispatcher.go:113-146 | two calls with one key and payload that both get past the cache and return a result are over 24 hours apart; calls in between return the stored result and send nothing |
| `IdempotentDispatch.ServedFromCacheIff` | internal/supervisor/command_dispatcher.go:176-218 | a call is served from the cache, with no send, exactly when a result was stored under its key at most 24 hours before it starts |
| `IdempotentDispatch.RunKeepsRow` | internal/supervisor/command_dispatcher.go:220-247 | a row is the last stored result of its key and is missing only when nothing was stored or it has expired |
| `IdempotentDispatch.AttemptDecides` | internal/supervisor/command_dispatcher.go:113-174 | past the cache, a send error is returned and never stored, an unresolved target is a stored failure with no send, an answer is stored and returned, with the command's id when it has none; what is stored expires after 24 hours |
| `IdempotentDispatch.FailedSendIsRetried` | internal/supervisor/command_dispatcher.go:129-146 | after any run, a call whose send failed is not answered from the cache the next time: the command is sent again |
| `IdempotentDispatch.RejectedOrUnkeyed` | internal/supervisor/command_dispatcher.go:113-128 | a rejected command sends and stores nothing; without a key the table is never touched |
| `IdempotentDispatch.ExpiredIsPurged` | internal/supervisor/command_dispatcher.go:176-218 | an expired row that a lookup meets is deleted unless the delete fails |
| `IdempotentDispatch.BrokenStorage` | internal/supervisor/command_dispatcher.go:129-146 | without storage, or when the result cannot be stored, the call fails although the command was sent; a failing lookup counts as a miss |
| `IdempotentDispatch.PayloadTellsApart` | internal/supervisor/command_dispatcher.go:407-420 | one key with two payloads makes two rows |
| `IdempotentDispatch.KeyTellsApart` | internal/supervisor/command_dispatcher.go:407-420 | two keys without a colon make two rows, whatever the payloads |
| `IdempotentDispatch.Dispatcher.DispatchCommand` | internal/supervisor/command_dispatcher.go:113-174 | all paths of one call: rejected commands, cache hit, unresolved target cached as a failure, send errors not cached, storage errors returned |
| `IdempotentDispatch.Dispatcher.CheckIdempotency` | internal/supervisor/command_dispatcher.go:176-218 | an expired row is purged and not returned |
| `IdempotentDispatch.Dispatcher.CacheResult` | internal/supervisor/command_dispatcher.go:220-247 | the row is upserted to expire 24 hours after it is written, unless storage is missing or fails |
| `Hub.RegistryFollowsTable` | internal/supervisor/hub.go:76-140 | over every run the registry believes an id online exactly when no tick found it silent since it registered and it is on the table or was taken off by a drop or the shutdown |
| `Hub.LateUnregisterIsNoop` | internal/supervisor/hub.go:109-121 | a superseded connection's late unregister changes neither table nor registry, whatever came in between |
| `Hub.SupersededForGood` | internal/supervisor/hub.go:92-121 | over every run with each connection registered once, a superseded connection is never current again and its unregister is a no-op |
| `Hub.StaysOut` | internal/supervisor/hub.go:92-121 | a connection that is not current never becomes it unless it registers |
| `Hub.NoEmptyCalls` | internal/supervisor/hub.go:335-367 | over every run the registry is never told about an empty id |
| `Hub.DropLeavesOnline` | internal/supervisor/hub.go:123-134 | a drop leaves an id off the table and believed online |
| `Hub.TickLeavesListed` | internal/supervisor/hub.go:308-333 | a heartbeat timeout leaves an id on the table and believed offline |
| `Hub.SlowClientStaysOnline` | internal/supervisor/hub.go:123-134 | after 257 broadcasts that a client does not drain it is off the table and believed online |
| `HubRegistry.RegistryStatusOverRuns` | internal/supervisor/hub.go:335-367 | over every run, whatever statements fail, the registry's cached status of an id is that of the last successful call about it; when all writes succeed it is online under exactly the condition of `RegistryFollowsTable` |
| `HubRegistry.CachedStatusIsLastCall` | internal/supervisor/registry.go:76-139 | the cached status is that of the hub's last call about the id whose write succeeded, whatever reads fail |
| `HubRegistry.ReconnectForgets` | internal/supervisor/hub.go:335-350 | a node that reconnects is online and named by its id, and loses the credential version and authentication states it had |
| `Hub.Hub.Run` | internal/supervisor/hub.go:76-140 | on every legal list of inputs, with pumps draining and heartbeats arriving between them, no channel is closed twice or sent on after closing, and in the end all are closed |
| `Hub.Hub.Register` | internal/supervisor/hub.go:92-107 | the newcomer becomes current, a superseded connection is closed, nobody else is touched |
| `Hub.Hub.Unregister` | internal/supervisor/hub.go:109-121 | only the current connection is removed and reported offline |
| `Hub.Hub.Broadcast` | internal/supervisor/hub.go:123-134 | every client with room gets the message, every slow one is closed and removed, the registry is not told |
| `Hub.Hub.DeliverOrDrop` | internal/supervisor/hub.go:125-132 | one client gets the message or is closed and removed |
| `Hub.Hub.CheckHeartbeats` | internal/supervisor/hub.go:308-333 | exactly the silent clients are reported offline, once each, and lose their socket; the table is unchanged |
| `Hub.AnnouncedWhileRoom` | internal/supervisor/hub.go:327-330 | offline events are announced in order while the channel holds fewer than 64, the rest is lost |
| `Hub.Hub.Shutdown` | internal/supervisor/hub.go:82-90 | every open channel is closed once and the table is empty |
| `SessionTracker.StepAgreesIff` | internal/supervisor/tracker.go:67-326 | each operation, with working or failing statements, keeps cache and table in agreement exactly unless it is a reload that fails half-way |
| `SessionTracker.HalfFailedReloadBreaks` | internal/supervisor/tracker.go:260-294 | after adding any session, such a reload leaves it live in the cache and unreachable in the table |
| `SessionTracker.RunAgrees` | internal/supervisor/tracker.go:67-326 | over every run without such a reload every cached session matches its row on all persisted columns |
| `SessionTracker.ReadsRefineTable` | internal/supervisor/tracker.go:195-216 | reads through the cache are reads of the table |
| `SessionTracker.ReloadSilencesAll` | internal/supervisor/tracker.go:260-294 | after a reload the cache is exactly the readable rows, all unreachable |
| `SessionTracker.MarkSilencesNode` | internal/supervisor/tracker.go:242-258 | after a lost node every session of it, cached or stored, is unreachable and otherwise as before; every other entry is unchanged; on a failed statement all are |
| `SessionTracker.AddStores` | internal/supervisor/tracker.go:67-97 | an added session is cached and stored as given with a missing start, activity or status filled in, and nothing else changes |
| `SessionTracker.RowReadsBack` | internal/supervisor/tracker.go:332-402 | a session read back from its row has its persisted columns, and what only memory held is gone |
| `SessionTracker.RestorePutsUnderNode` | internal/supervisor/tracker.go:314-326 | every session of a snapshot restored in full sits under the given node in cache and table; the others keep their entries |
| `SessionTracker.UpdateDeterministicIff` | internal/supervisor/tracker.go:99-193 | all iteration orders of the update map end alike exactly when no two keys write one field with different values |
| `SessionTracker.AmbiguousOrders` | internal/supervisor/tracker.go:125-155 | two such keys give two orders, differing in which of them comes last, that end differently |
| `SessionTracker.OrderUpdates` | internal/supervisor/tracker.go:105-182 | every order succeeds on good updates, sets every other field alike, and leaves the contested ones at one of the given values |
| `SessionTracker.BadUpdateFails` | internal/supervisor/tracker.go:105-182 | one bad update fails the whole call in every order |
| `SessionTracker.SessionTracker.UpdateSession` | internal/supervisor/tracker.go:99-193 | the result of some iteration order on a copy is written through; on a bad update or a failed write the table is unchanged and the cache at most holds the session that was read |
| `SessionTracker.SessionTracker.AddSession` | internal/supervisor/tracker.go:67-97 | completes and writes through the session, or changes nothing |
| `SessionTracker.SessionTracker.GetSession` | internal/supervisor/tracker.go:195-216 | reads through the cache and caches what it read |
| `SessionTracker.SessionTracker.GetSessionsByProject` | internal/supervisor/tracker.go:229-240 | exactly the cached sessions of the project |
| `SessionTracker.SessionTracker.MarkUnreachable` | internal/supervisor/tracker.go:242-258 | every session of the node, cached or stored, becomes unreachable, or nothing changes |
| `SessionTracker.SessionTracker.ApplyEvent` | internal/supervisor/tracker.go:296-312 | a running, idle or error event writes that status and the time through, and nothing else of the session changes; any other event type is an error |
| `SessionTracker.SessionTracker.LoadSessionsFromDB` | internal/supervisor/tracker.go:260-294 | silences the table, loads the readable rows and counts the others, also those met before an iteration breaks off |
| `SessionTracker.SessionTracker.RestoreFromSnapshot` | internal/supervisor/tracker.go:314-326 | adds the snapshot's sessions one by one under the node until one fails |
| `SessionTracker.ApplyUpdates` | internal/supervisor/tracker.go:105-182 | the update loop does what some order of the keys says, and stops at a bad update |
| `NodeRegistry.StepAgreesIff` | internal/supervisor/registry.go:76-290 | as for sessions: agreement is kept exactly unless a reload fails half-way over a node not offline |
| `NodeRegistry.HalfFailedReloadBreaks` | internal/supervisor/registry.go:256-290 | after registering any node, such a reload leaves it online in the cache and offline in the table |
| `NodeRegistry.RunAgrees` | internal/supervisor/registry.go:76-290 | over every run without such a reload every cached node matches its row |
| `NodeRegistry.ReadsRefineTable` | internal/supervisor/registry.go:141-162 | reads through the cache are reads of the table |
| `NodeRegistry.ReloadSilencesAll` | internal/supervisor/registry.go:256-290 | after a reload the cache is exactly the readable rows, all offline |
| `NodeRegistry.RegisterStores` | internal/supervisor/registry.go:76-103 | a registered node is cached and stored as online and just heard from, otherwise as given; nothing else changes |
| `NodeRegistry.RowReadsBack` | internal/supervisor/registry.go:296-371 | likewise for a node; NULL times read as the zero time |
| `NodeRegistry.OfflineStores` | internal/supervisor/registry.go:109-139 | a node marked offline is so in cache and table, with the time of the mark; a failed statement changes nothing |
| `NodeRegistry.ReconcileRecords` | internal/supervisor/registry.go:226-254 | the reported version is recorded, in sync exactly when it is the expected one and drifted otherwise; nothing else changes |
| `NodeRegistry.LastAuthWins` | internal/supervisor/registry.go:175-204 | over any run of authentication updates of any nodes a tool's state is the one last named for the node, or what it was before; the rest of the node and the table are unchanged |
| `ConcurrentWrites.TwoOpsAgreeIff` | internal/supervisor/registry.go:109-162 | of two operations that each let go of the lock between statement and cache write, over any interleaving, agreement is lost exactly when the one whose statement came first writes the cache last, over a row the other has rewritten and that it does not match |
| `ConcurrentWrites.SessionWritesAgreeIff` | internal/supervisor/tracker.go:185-192 | two updates of one session lose agreement exactly when their cache writes cross and their rows differ |
| `ConcurrentWrites.NodeWritesAgreeIff` | internal/supervisor/registry.go:95-103 | likewise for two writes of one node |
| `ConcurrentWrites.StaleReadCached` | internal/supervisor/registry.go:149-161 | a node read before a write and cached after it hides the write |
| `NodeRegistry.NodeRegistry.MarkOffline` | internal/supervisor/registry.go:109-139 | the node is written offline through the cache, read from the table if need be |
| `NodeRegistry.NodeRegistry.Register` | internal/supervisor/registry.go:76-103 | writes the node through as online, or rejects it and changes nothing |
| `NodeRegistry.NodeRegistry.GetNode` | internal/supervisor/registry.go:141-162 | reads through the cache and caches what it read |
| `NodeRegistry.NodeRegistry.LoadNodesFromDB` | internal/supervisor/registry.go:256-290 | sets the table offline, loads the readable rows and counts the others, also those met before an iteration breaks off |
| `NodeRegistry.NodeRegistry.UpdateAuthState` | internal/supervisor/registry.go:175-204 | merges the given auth states into the cached node; the table is left alone |
| `NodeRegistry.NodeRegistry.ReconcileCredentialVersion` | internal/supervisor/registry.go:226-254 | records the reported version and whether it drifts from the expected one |
| `CredentialApplier.RunKeepsLastApplied` | internal/agent/credential_apply.go:47-94 | environment and version are always those of the last payload applied; the id window is the bounded window of the ids offered |
| `CredentialApplier.RepeatIgnoredIffRecent` | internal/agent/credential_apply.go:58-66 | a repeated command id is ignored exactly while fewer than a thousand other ids were remembered after it |
| `CredentialApplier.UnidentifiedAlwaysApplied` | internal/agent/credential_apply.go:42-70 | after any run an acceptable push without a command id is always applied and not remembered, one whose id is remembered never, and a malformed one changes nothing |
| `CredentialApplier.AcceptableIff` | internal/agent/credential_apply.go:47-53 | a payload is acceptable exactly with a non-blank target, some variable, no empty value and no negative version |
| `CredentialApplier.OldPushAppliedAgain` | internal/agent/credential_apply.go:83-94 | after 1001 pushes the first one, repeated, is applied again over the newest version |
| `CredentialApplier.CredentialApplier.ApplyIfNew` | internal/agent/credential_apply.go:47-70 | rejects malformed payloads, ignores remembered ids, otherwise replaces environment and version and remembers the id |
| `CredentialApplier.CredentialApplier.ApplyLocked` | internal/agent/credential_apply.go:72-81 | environment and version become exactly the payload's |
| `CredentialApplier.CredentialApplier.RememberCommandIDLocked` | internal/agent/credential_apply.go:83-94 | set and order list stay the same bounded window |
| `CredentialApplier.Validate` | internal/shared/auth_types.go:44-58 | accepts exactly payloads with a non-blank target, a non-empty environment and no empty value |
| `CredentialIdempotency.LookupIsLastStoreInWindow` | internal/supervisor/http_api.go:769-804 | a lookup answers with the last result stored under the key while the key is in the bounded window of stores, and not after |
| `CredentialIdempotency.SetKeepsConsistent` | internal/supervisor/http_api.go:786-804 | results and order list keep the same keys, at most one is evicted, and it is the oldest |
| `CredentialIdempotency.StoredIsFound` | internal/supervisor/http_api.go:769-804 | after any run a stored result answers the next lookup of its key; an empty key or a nil result stores nothing |
| `CredentialIdempotency.NewKeyIsKept` | internal/supervisor/http_api.go:786-804 | a result stored under a new key is found for the next 999 stores under other keys |
| `CredentialIdempotency.IdempotencyCache.CredentialPushIdempotencyGet` | internal/supervisor/http_api.go:769-784 | answers with the stored result of the key, if any |
| `CredentialIdempotency.IdempotencyCache.CredentialPushIdempotencySet` | internal/supervisor/http_api.go:786-804 | stores, and evicts the oldest beyond the maximum |
| `Cost.KeyInjective` | internal/supervisor/cost.go:433-433 | the bucket key names one provider, model and date even when model names contain the separator |
| `Dates.NormalizedIsPlain` | internal/supervisor/cost.go:680-699 | whatever a provider sends, a normalised date holds only digits and hyphens |
| `Dates.FirstUsableWins` | internal/supervisor/cost.go:680-699 | the first usable value decides: one that starts with a date yields that date whatever follows, else an instant or a positive number of seconds yields its own |
| `Dates.NoneUsableNoDate` | internal/supervisor/cost.go:680-699 | the date is empty exactly when no value is usable |
| `Dates.ParseIntOfNumber` | internal/supervisor/cost.go:694-694 | a number with or without sign and leading zeros is read exactly when it fits 64 bits |
| `Dates.ParseIntOnlyNumbers` | internal/supervisor/cost.go:694-694 | only a sign and digits are read as a number |
| `Dates.NormalizeAgainIff` | internal/supervisor/cost.go:680-699 | normalising a normalised date again changes nothing exactly when it is empty or has ten characters; otherwise it becomes empty |
| `Dates.FarEpochLost` | internal/supervisor/cost.go:694-695 | the epoch of the first second of the year 10000 becomes a date that a second normalisation loses |
| `Dates.ParseFormat` | internal/supervisor/cost.go:685-695 | a rendered valid date parses back, and is ten characters long, exactly when its year takes four digits |
| `Dates.ParsedIsFormatted` | internal/supervisor/cost.go:685-690 | a text that parses is the rendering of the date it parses to |
| `Dates.TextOrderIsDateOrderIff` | internal/supervisor/cost.go:573-621 | for all valid dates, comparing them as text compares the dates exactly when their years compare: equally wide, or the leading digits of the wider one decide alike |
| `Dates.TextOrderFromUsualIff` | internal/supervisor/cost.go:573-621 | from a four-digit year the text comparison is right exactly unless the other year has more digits and its first four are below |
| `Dates.LateYearSortsEarly` | internal/supervisor/cost.go:694-695 | 10000-01-01 sorts before 2024-01-01 |
| `Cost.CostAggregator.PersistDailyBuckets` | internal/supervisor/cost.go:420-476 | on success every bucket of the rows holds exactly their sums and other buckets are unchanged; it fails exactly when a statement does, and then nothing changes |
| `Cost.CostAggregator.CombineRows` | internal/supervisor/cost.go:425-441 | the combining loop fills in date and model and sums per key |
| `Cost.BucketPerDay` | internal/supervisor/cost.go:425-441 | the row written for a provider, model and date holds exactly the sum of the rows that have all three |
| `Cost.FilledKeepsRows` | internal/supervisor/cost.go:425-432 | a row is bucketed as it came, save that an undated one counts on the day it is looked at and one without a model under "unknown" |
| `Cost.PersistAgainIsNoop` | internal/supervisor/cost.go:443-476 | persisting the same dated rows again, on whatever later day, changes nothing |
| `Cost.BucketsConserve` | internal/supervisor/cost.go:425-469 | the buckets of the rows add up to the rows |
| `Cost.UpsertDetermined` | internal/supervisor/cost.go:464-469 | the upsert determines the table, whatever order the combined map is walked in |
| `Cost.Report` | internal/supervisor/cost.go:541-571 | each query's groups add up to the rows it selected, the total is that of the models, and both agree when no write came between the queries; a failing query fails the report; without a database or tracker the parts are empty |
| `Cost.SelectionSum` | internal/supervisor/cost.go:573-621 | the order in which a query looks at the rows does not matter |
| `Cost.ProviderLines` | internal/supervisor/cost.go:573-598 | a provider's line is in a report exactly when a selected row is the provider's, and holds what those rows amount to |
| `Cost.ModelLines` | internal/supervisor/cost.go:600-621 | likewise for a provider's model |
| `Grouping.GroupsSumToTotal` | internal/supervisor/cost.go:573-621 | however rows are grouped, the group sums add up to the total |
| `Grouping.SumSplits` | internal/supervisor/cost.go:434-440 | tokens and costs add up separately however a list is cut |
| `Cost.ProjectTotals` | internal/supervisor/cost.go:623-641 | one total per project over the sessions started in the period, adding up to them |
| `Cost.StartedAreThoseSince` | internal/supervisor/cost.go:623-641 | a report counts a session for each place in its list of sessions started in time, under its project with its tokens and cost |
| `Cost.PlacesAreRight` | internal/supervisor/cost.go:623-641 | those places are exactly the sessions started at or after the start, each once and in order |
| `Cost.ReportSelectsByDate` | internal/supervisor/cost.go:573-621 | a report selects a dated row exactly by date, exactly when start and row years compare |
| `Cost.LateRowMissed` | internal/supervisor/cost.go:573-621 | a row dated 10000-01-01 is missing from a report that starts in 2024 |
| `Cost.FarRowStoredAndMissed` | internal/supervisor/cost.go:420-476 | a provider's row with the epoch of 10000-01-01 is stored under that date and missed by a report from 2024 |

## Left out

- SQL text, JSON and SHA-256: tables are maps, codecs round-trip, digests stand for the text they digest.
- WebSocket dialing and framing, HTTP handlers, the Discord bot, the CLI, metrics, logging: the wire keeps only order, loss and lateness.
- The gap between client lookup and channel send in `hubCommandTransport.Send`, which runs outside the hub loop.
- Target resolution: `resolveTarget` appears as a parameter of a dispatch (no target, or an attempt to send).
- Restarts of agent or supervisor that reset numbers, two engines under one agent id, overlapping dispatches with one idempotency key: the code promises nothing there.
- The threshold checks that decide whether a policy applies to a session, intent parsing, timeouts' lengths: each is settled by one expression.
- Contexts: `sendCommand` ignores the one it is given.
- `GetAuthState` and snapshots handed out by the registry share no structure here; aliasing of returned maps is not modelled.
- Where a report's period starts: `Report` takes the start as text and as an instant.
- Cost polling, retries and session estimates: only persisting and reporting are modelled.
- Floating-point rounding of costs: costs are real numbers.
- Event log lines and the contents of alert payloads beyond policy, session, action, outcome, count and error text.
- A nil node registry in the hub: the calls are then made to nobody.
- CommandDispatcher.CommandDispatcher.SendCommand: results arrive only while the transport sends; arrivals at other moments are covered by the step machine and its theorems, of which the object's history is a run.
- DeliveryProgress.CanAlwaysComplete: shows that completion is always reachable, not that a given scheduler reaches it.
- WsClient.WSClient.ResendPendingEvents: at most one acknowledgement per resent entry and no send in between; `Delivery` lets acknowledgements and sends come between any two entries.
