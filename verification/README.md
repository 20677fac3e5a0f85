# InferMesh router: a verified model

InferMesh is a router that places inference calls on workers. This project models the
parts of it where several goroutines share state, where selection must stay safe on every
path, and where two pieces of code must agree about a format, and proves what they keep.

The environment is adversarial throughout: any interleaving of the critical sections, any
messages, clock readings that never go backwards, any map iteration order.

- **Protocols** (`RelayAccounting`, `DirectCalls`, `ConnectionSlots`, `StreamCalls`,
  `RegistryReplica`, `RelayBroker`) are a `State`, a `Label` per critical section, a total `Apply` (a label that
  is not enabled does nothing) and `Run`, which folds any sequence of labels. An invariant is
  kept by every step, so it holds in every run. A class with the source's fields sits
  beside each protocol; its methods are proved to perform exactly the labelled steps.
- **Scheduling and failover** (`Scheduling`, `Selection`, `Failover`) are methods with the
  source's loops, proved against filters, a first-maximum predicate and an order on workers.
  `Routing` composes selection with the registry's replica; `RelayCalls` joins the accounting
  of relay calls with the lives of the same calls.
- **Windows** (`CallCounter`, `RequestTracker`, `ConcurrencyEstimator`) are classes that refine
  a full ghost history.
- **Codecs** (`Aliases`, `AutoRouting`, `SseFraming`) are printers, parsers and readers with
  round-trip and uniqueness theorems.
- `Counting`, `Sequences`, `Ordering`, `Text` and `Protocol` hold shared definitions.

Beside the invariants stand laws that say what each operation does without naming its own
definition: from the history of labels (`AdmissionLaw`, `RegistryHistory`, `TickLaw`), on the
records and queues before and after, or by an exact difference or a concrete value; most of
them are named after the operation, with `Means`, `Law` or `Exactly`.

`dafny verify dfyconfig.toml` checks everything.

## Where the code and its comments disagree

The model follows the code. For each case below there is a lemma with a concrete input that
shows it and a lemma with the exact condition.

- pkg/router/ws_hub.go:280-289 says the semaphore bounds the registered connections. It bounds
  the slots in use; a superseder that loses the race for the freed slot leaves one connection
  more in the table than the cap allows (`SupersedeCanOvershoot`). `TableLaw` counts the table
  exactly, and `RegisteredWithinCap` says when it is within the cap.
- pkg/router/ws_pending.go:23-112 sends on a channel that another goroutine may have closed since
  the lookup. The select then picks either the closed doneCh or the send, which panics
  (`OvertakenRuns`); a run panics exactly when a handler is overtaken in this way
  (`PanicsExactlyWhenOvertaken`).
- pkg/scheduler/scheduler.go:322-323 gives the gap between a loaded and a cold worker as bonus
  plus penalty (`LoadedSpreadExample`); that holds exactly at the in-flight cap or without a
  penalty (`LoadedSpread`).
- cmd/relay/main.go:258-261, 462-464 and 509-511 say no frame enters a channel whose writer has
  exited. A frame can: with an older snapshot after an orderly teardown, and with a fresh one
  between a failed write and the writer's deferred unpublishing (`StrandingRuns`). The exact
  conditions are `StrandsExactly` for any step and `FreshSendStrands` for a whole flush or
  enqueue; such a frame is never written (`StrandedForever`).
- pkg/worker/concurrency_estimator.go:176-186 announces a check for 429s in the last 30 seconds,
  but the window it reads was cut to 10 seconds (`RecoversTwentySecondsAfterA429`).
  `TickDiffersFromAnnounced` says when a tick leaves another cap than the announced one.
- pkg/router/worker_client.go:265-282 ends frames at LF and CR LF blank lines; section 9.2.5 of the
  WHATWG HTML Standard also ends lines at a lone CR (`LoneCrExample`, `StandardBlankLines`).

Two more are properties of the functions that no present caller reaches:

- pkg/router/ws_hub.go:603-606 skips the decrement for an empty worker ID, while registration
  counts it, so the counters drain exactly when no such call was registered
  (`EmptyWorkerIdLeaks`, `DrainedHub`). Empty worker IDs are rejected where workers register
  (pkg/router/ws_hub.go:317, pkg/router/ws_hub.go:484, pkg/router/ws_relay.go:447,
  pkg/router/handlers_meta.go:527).
- cmd/relay/main.go:596-611 uses the number of frames sent as a position, so a frame that fails to
  marshal shifts what is given back (`RebufferExample`); `RebufferDuplicates` says exactly when a
  sent frame is buffered again. Buffered frames were decoded from JSON, and marshalling them
  again does not fail.

## Model

| member | source | states |
|---|---|---|
| RelayAccounting.RunsConserve | pkg/router/ws_relay.go:102-153 | In every interleaving of register, close, the two critical sections of finish, cleanup and cap changes, each worker's counter is the number of its registered calls not yet decremented, no zero entry exists, and the pending table and the calls still in it are inverse to each other |
| RelayAccounting.StepKeepsInv | pkg/router/ws_hub.go:582-608 | Every single critical section keeps that invariant |
| RelayAccounting.GuardNeverFires | pkg/router/ws_stats.go:41-51 | A call about to decrement finds a positive counter, so the `<= 0` guard is never taken |
| RelayAccounting.RemoveOwnsItsEntry | pkg/router/ws_hub.go:598-602 | A closing call still owns the table entry under its ID, so the ownership test always succeeds |
| RelayAccounting.CleanupIsIdle | pkg/router/ws_stats.go:247-267 | In every reachable state cleanup changes nothing |
| RelayAccounting.LoadRisesUnderCap | pkg/router/ws_stats.go:20-28 | A step raises a worker's load only to a value within the cap in force at that step |
| RelayAccounting.LoadWithinSomeCap | pkg/router/ws_hub.go:158-180 | In every run a worker's load is within some cap that was in force for it during the run |
| RelayAccounting.CapsFromHistory | pkg/router/ws_hub.go:146-166 | In every run the hub's caps are the ones last set: a worker's own if positive, the default if positive, else 4 |
| RelayAccounting.AdmissionLaw | pkg/router/ws_relay.go:115-125 | In every run a registration is rate limited exactly when the worker's calls not yet decremented reach the cap in force, read off the history: its own cap last set if positive, else the default last set, else 4; otherwise a duplicate exactly when a call not yet removed has its ID; otherwise admitted and registered |
| RelayAccounting.RejectionsAreCounted | pkg/router/ws_relay.go:115-118 | The 429 counter is the number of the worker's rate-limited registrations, cleanups notwithstanding |
| RelayAccounting.DrainedHub | pkg/router/ws_hub.go:597-607 | When all calls have finished the pending table is empty, and the counters are empty exactly when no call was registered for the empty worker ID |
| RelayAccounting.EmptyWorkerIdLeaks | pkg/router/ws_hub.go:603-606 | A concrete run in which a finished call without a worker ID stays counted |
| RelayAccounting.RelayHub.constructor | pkg/router/ws_hub.go:126-144 | A new hub is the empty state of the protocol |
| RelayAccounting.RelayHub.MaxInFlightFor | pkg/router/ws_hub.go:169-180 | Per-worker override, else the default, else 4; always positive |
| RelayAccounting.RelayHub.SetWorkerMaxInFlight | pkg/router/ws_hub.go:158-166 | The cap-change step: a non-positive cap removes the override |
| RelayAccounting.RelayHub.RegisterRelayCall | pkg/router/ws_relay.go:102-153 | Rate-limit, duplicate and admission outcomes, and the whole new state, keeping the invariant |
| RelayAccounting.RelayHub.DecrementRelayInFlight | pkg/router/ws_stats.go:41-51 | Decrements, dropping an entry that reaches zero, and touches nothing else |
| RelayAccounting.RelayHub.Finish | pkg/router/ws_hub.go:582-616 | Undisturbed, finish is close, remove and decrement in that order; a call that is not registered is left alone |
| RelayAccounting.RelayHub.FailAllRelayPending | pkg/router/ws_relay.go:211-221 | Every registered call is finished, every other call is untouched, and only calls already closing remain in the table |
| RelayAccounting.RelayHub.RecordRelayTimeout | pkg/router/ws_stats.go:92-96 | Bumps the worker's 504 counter and nothing else |
| RelayAccounting.RelayHub.CleanupRelayMetrics | pkg/router/ws_stats.go:247-267 | The three loops delete exactly the zero entries |
| RelayAccounting.RelayHub.RelayInFlight | pkg/router/ws_stats.go:210-213 | The relay counters add up to the number of relay calls in flight |
| RelayAccounting.RelayHub.TotalInFlight | pkg/router/ws_stats.go:177-213 | The pool total is what the direct connections have in flight plus the number of relay calls in flight |
| RelayCalls.RunsStayLinked | pkg/router/ws_hub.go:582-616 | In every joint run of hub and calls the accounting is exact, every call delivers in order, and the two agree on how far each call has got |
| RelayCalls.LookupFindsIt | pkg/router/ws_relay.go:158-167 | A message finds the call in the pending table exactly while the call's own life has it there |
| RelayCalls.ClosedIsSettled | pkg/router/ws_hub.go:595-615 | A call whose doneCh or channel is closed has left the table and returned its in-flight slot |
| RelayCalls.ClosedWorkerIsFree | pkg/router/ws_relay.go:115-118 | A worker all of whose calls have been seen to close has no slot in use, and its next call is not rate limited |
| DirectCalls.RunsConserve | pkg/router/ws_conn.go:306-319 | In every run, shutdowns and reused IDs included, the pending table holds exactly the calls added, not removed and not swapped out, and its size is their number |
| DirectCalls.StepKeepsInv | pkg/router/ws_conn.go:246-276 | Every critical section keeps that |
| DirectCalls.AdmissionLaw | pkg/router/ws_conn.go:306-319 | In every run a call is a duplicate exactly when the table holds one with its ID, else rate limited exactly when the calls held reach the cap, else registered; rejections are counted |
| DirectCalls.GrowsUnderCap | pkg/router/ws_conn.go:312-315 | The table grows only by an admission, to a size within the cap in force |
| DirectCalls.WithinSomeCap | pkg/router/ws_conn.go:306-319 | In every run the calls in flight are within a cap that admitted one of them |
| DirectCalls.RemoveSparesOthers | pkg/router/ws_hub.go:584-589 | finish never deletes the entry of another call |
| DirectCalls.ReusedIdSurvives | pkg/router/ws_conn.go:260-266 | A run in which the ownership test is what saves a reused ID after the table was swapped |
| DirectCalls.DirectConn.AddPending | pkg/router/ws_conn.go:306-319 | Duplicate before rate limit before admission, and the whole new state |
| DirectCalls.DirectConn.WorkerInFlight | pkg/router/ws_conn.go:359-363 | The size of the table is the number of calls it holds |
| DirectCalls.DirectConn.Finish | pkg/router/ws_hub.go:582-594 | Undisturbed, close and remove; a call entered before is left alone |
| DirectCalls.DirectConn.FailAll | pkg/router/ws_conn.go:260-269 | The table is empty, every registered call it held is finished, no other call is finished |
| ConnectionSlots.RunsKeepInv | pkg/router/ws_hub.go:385-436 | In every run each semaphore's occupancy is the number of connections holding one of its unreleased slots and at most its cap, each slot is returned exactly once, and table entries point to published connections of their worker |
| ConnectionSlots.StepKeepsInv | pkg/router/ws_conn.go:246-258 | Every critical section keeps it |
| ConnectionSlots.ChannelNotEmpty | pkg/router/ws_conn.go:367-378 | A connection that has not released finds its token: the empty-channel branch is unreachable |
| ConnectionSlots.SecondReleaseIsIdle | pkg/router/ws_conn.go:367-378 | After one release, another one changes nothing, whatever ran in between |
| ConnectionSlots.EntryRemovedOnlyByOwner | pkg/router/ws_conn.go:246-258 | A table entry disappears only by the shutdown of the connection it points to |
| ConnectionSlots.TableLaw | pkg/router/ws_hub.go:385-436 | In every run the table size and the slot holders outside the table add up to the slot holders and the registered connections that lost their slot |
| ConnectionSlots.RegisteredWithinCap | pkg/router/ws_hub.go:280-289 | Under one cap, the registered connections are within it exactly when those that lost their slot are no more than the free slots and the slot holders outside the table |
| ConnectionSlots.SupersedeCanOvershoot | pkg/router/ws_hub.go:385-436 | A run with cap one that leaves two registered connections |
| ConnectionSlots.ReplacementSucceeds | pkg/router/ws_hub.go:385-436 | A one-for-one replacement gets in at any occupancy, leaving the occupancy as it was |
| ConnectionSlots.HandledOutcome | pkg/router/ws_hub.go:385-436 | Undisturbed, a connection is published if the semaphore has room after the supersede, else nothing more happens |
| ConnectionSlots.AcquireMeans | pkg/router/ws_hub.go:112-122 | A slot is got exactly when the semaphore is not full, and the new connection holds it |
| ConnectionSlots.ReleaseMeans | pkg/router/ws_conn.go:367-378 | A first release gives the slot back to the semaphore it came from |
| ConnectionSlots.ShutdownMeans | pkg/router/ws_conn.go:254-258 | The shutdown of a registered connection takes its worker out of the table, that of a replaced one leaves the table alone |
| ConnectionSlots.CapMeans | pkg/router/ws_hub.go:194-213 | The cap is the one last set, 256 if it was not positive or none was set |
| ConnectionSlots.LifeLeavesNoTrace | pkg/router/ws_hub.go:385-436 | Connecting, shutting down and releasing, undisturbed, leaves table and semaphore as they were |
| ConnectionSlots.ConnHub.Enter | pkg/router/ws_hub.go:395-421 | Acquire, then publish; accepted exactly when the table points to the new connection |
| ConnectionSlots.ConnHub.ConnSemFor | pkg/router/ws_hub.go:205-213 | Creates the default semaphore once and returns the newest |
| ConnectionSlots.ConnHub.AcquireConn | pkg/router/ws_hub.go:112-122 | Succeeds exactly when there is room, and then takes one token |
| ConnectionSlots.ConnHub.ReleaseSlot | pkg/router/ws_conn.go:367-378 | The release step: one token back on the first call only |
| ConnectionSlots.ConnHub.SupersedeIncumbent | pkg/router/ws_hub.go:385-393 | The supersede step: frees the incumbent's slot |
| ConnectionSlots.ConnHub.PublishConn | pkg/router/ws_hub.go:408-421 | The publish step: the worker's entry now points to this connection |
| ConnectionSlots.ConnHub.HandleConn | pkg/router/ws_hub.go:385-436 | Supersede, semaphore, acquire, publish; accepted exactly when the table points to the new connection |
| ConnectionSlots.ConnHub.ShutdownConn | pkg/router/ws_conn.go:246-276 | The shutdown step; entries of other connections are kept |
| StreamCalls.RunsDeliverInOrder | pkg/router/ws_pending.go:23-112 | In every run, with lookup, handler, entering closeOnce, removal and the two closes as separate steps: the channel has carried an in-order subsequence of the events handlers had to send, then at most one Done; it is closed at most once; at most one error is delivered, and not with Done; a single-response call is sent at most one response and does not end without a response or an error |
| StreamCalls.StepKeepsInv | pkg/router/ws_hub.go:555-616 | Every single step keeps that invariant |
| StreamCalls.ErrorsEndTheCall | pkg/router/ws_pending.go:48-51 | An error, in a response of a stream or in an error message, ends an open call with that error, no Done and no event |
| StreamCalls.UndecodableEndsTheStream | pkg/router/ws_pending.go:28-47 | So does a payload that does not decode |
| StreamCalls.TextIsFramed | pkg/router/ws_pending.go:32-61 | Text is sent as "data: ", the text and two newlines, or dropped if 256 events wait, and the stream stays open |
| StreamCalls.DoneEndsTheStream | pkg/router/ws_pending.go:52-64 | A done response ends a stream without an error: its text first, then Done |
| StreamCalls.ResponseEndsTheCall | pkg/router/ws_pending.go:84-105 | A single-response call is sent its response as it came and ends without an error |
| StreamCalls.OthersAreIgnored | pkg/router/ws_pending.go:23-112 | Every other message leaves the call as it was |
| StreamCalls.CancelEndsTheCall | pkg/router/ws_hub.go:573-581 | A cancellation or shutdown ends an open call with its error, and what was sent stays |
| StreamCalls.HandlersBring | pkg/router/ws_pending.go:23-112 | In any interleaving the event a handler brings is the framed text or the response itself |
| StreamCalls.HandlersFail | pkg/router/ws_pending.go:48-68 | In any interleaving an error brought to an open call starts its end with that error |
| StreamCalls.TerminalIsFinal | pkg/router/ws_hub.go:582-616 | Once the channel is closed, no continuation of the run changes what was delivered, the error, or the number of closes |
| StreamCalls.OneOutcome | pkg/router/ws_hub.go:555-581 | A delivered error excludes Done, and Done is the last event of a closed stream |
| StreamCalls.HeldSinceLookup | pkg/router/ws_conn.go:279-288 | The reader holds a message exactly when it looked the call up for it, in the table, and has not acted since |
| StreamCalls.PanicsExactlyWhenOvertaken | pkg/router/ws_pending.go:23-112 | A run panics exactly when some handler, with something to send, was looked up while the call was in the table, acts after the channel was closed, and its select takes the send |
| StreamCalls.OvertakenOrder | pkg/router/ws_hub.go:582-616 | In such a run the lookup came before the removal and the close before the handler |
| StreamCalls.OvertakenRuns | pkg/router/ws_pending.go:23-112 | Concrete runs of a streaming and of a single-response call that panic, and that survive when the select takes doneCh |
| StreamCalls.RoomForReply | pkg/router/ws_pending.go:84-112 | While a single-response handler holds a message nothing has been sent, so its default case is never taken |
| StreamCalls.PendingCall.FinishCall | pkg/router/ws_hub.go:582-616 | finish, undisturbed: leave the table, close doneCh, close the channel |
| StreamCalls.PendingCall.CompleteCall | pkg/router/ws_hub.go:555-570 | completeStream and completeCall: a best-effort Done for a stream, then finish |
| StreamCalls.PendingCall.FailWith | pkg/router/ws_hub.go:573-581 | fail: the error and finish, once; nothing on a closed call |
| StreamCalls.PendingCall.Offer | pkg/router/ws_pending.go:34-41 | The select on an open call: the event is sent, or dropped when the event channel is full |
| StreamCalls.PendingCall.HandleStream | pkg/router/ws_pending.go:23-71 | The stream handler is the handler step and what it entails, for every message |
| StreamCalls.PendingCall.HandleSingle | pkg/router/ws_pending.go:84-112 | The single-response handler likewise; chunks and unknown messages are ignored |
| StreamCalls.PendingCall.RouteResponse | pkg/router/ws_conn.go:279-288 | Lookup and handler as one step; consumed exactly when the call was in the table |
| RegistryReplica.RunsMirror | internal/registry/memory.go:106-182 | In every run, dropped broadcasts included: the registry's available workers are the latest announcements, the cache with its queued and held events is the latest delivered announcements up to fetched capabilities, and a worker with statistics is cached, or its removal is in progress |
| RegistryReplica.RegistryHistory | internal/registry/memory.go:105-182 | In every run, for every worker reported so far: absent exactly when a removal, or a sweep that found it too old to keep, came after its latest added or updated event; present and unavailable exactly when only an expiry or a sweep that found it stale did; otherwise available, with the reported record and that event's time as last seen |
| RegistryReplica.NeverReported | internal/registry/memory.go:128-182 | A worker that was never reported is absent |
| RegistryReplica.ReportAnnounced | internal/registry/memory.go:139-161 | A report is announced as an update exactly when the worker was there with status available, else as an addition |
| RegistryReplica.BroadcastMeans | internal/registry/memory.go:229-239 | An announcement is queued exactly when there is a subscriber with fewer than 32 events waiting |
| RegistryReplica.ThirteenthProbeDrops | internal/registry/memory.go:76-103 | Probes that find the channel full drop the subscriber at the thirteenth in a row |
| RegistryReplica.ReportIsCached | pkg/router/capability_cache.go:87-125 | A reported worker is cached with the capabilities pushed or fetched, or as reported if the fetch fails |
| RegistryReplica.ReportHydrates | pkg/router/capability_cache.go:87-174 | Its statistics become those of the same capabilities, the last snapshot of a model counting; a failed fetch leaves them |
| RegistryReplica.DepartureIsForgotten | pkg/router/capability_cache.go:249-262 | A worker that left is neither cached nor in the statistics, the others stay |
| RegistryReplica.MirrorsExactlyInStep | internal/registry/memory.go:229-239 | In every run and for every worker: the cache with its backlog mirrors the registry there exactly when the worker's latest delivered announcement says the same as its latest announcement, whatever was dropped for others |
| RegistryReplica.DeliveredMirrors | internal/registry/memory.go:229-239 | In particular when its latest announcement was delivered: equal records for a WebSocket worker, equal up to capabilities for others |
| RegistryReplica.CaughtUp | pkg/router/capability_cache.go:249-262 | With nothing queued and the loop idle, the cache itself mirrors exactly the workers in step, and every worker with statistics is cached |
| RegistryReplica.MissedBroadcastBreaksMirror | internal/registry/memory.go:229-239 | A run that puts a worker out of step: behind a channel full of probes its registration is dropped |
| RegistryReplica.NextUpdateHeals | internal/registry/memory.go:128-182 | The same run, extended: the worker's next update, once there is room, repairs the mirror |
| RegistryReplica.SweepIsOrderFree | internal/registry/memory.go:106-125 | Whatever the iteration order, a sweep treats each worker once, and its outcome depends on that worker alone |
| RegistryReplica.MemoryRegistry.BroadcastEvent | internal/registry/memory.go:229-239 | Appends to the channel, or records a miss when it is full |
| RegistryReplica.MemoryRegistry.Handle | internal/registry/memory.go:128-182 | The discovery step: entry and announcement for added, updated, removed and expired workers |
| RegistryReplica.MemoryRegistry.Expire | internal/registry/memory.go:106-125 | Marks a worker unavailable and announces it |
| RegistryReplica.MemoryRegistry.SweepOne | internal/registry/memory.go:106-125 | One worker of the sweep: removed, marked unavailable, or left alone, by its age |
| RegistryReplica.MemoryRegistry.CheckStale | internal/registry/memory.go:106-125 | The sweep visits every worker once, in some order, as SweepAll does |
| RegistryReplica.MemoryRegistry.PruneSubscriber | internal/registry/memory.go:76-103 | The probe step: counts failures and drops the subscriber at the limit |
| RegistryReplica.CapabilityCache.SetInferenceStats | pkg/router/capability_cache.go:161-174 | Replaces a worker's statistics by model |
| RegistryReplica.CapabilityCache.Update | pkg/router/capability_cache.go:87-112 | Seed, fetch, store, hydrate, as the event loop's steps do |
| RegistryReplica.CapabilityCache.OnEvent | pkg/router/capability_cache.go:249-262 | One turn of the event loop is the undisturbed sequence of its steps |
| Scheduling.Score | pkg/scheduler/scheduler.go:179-377 | A score is between 0 and 1 |
| Scheduling.ScoreAntitone | pkg/scheduler/scheduler.go:179-377 | With non-negative weights, more in-flight calls, queue depth, latency or GPU use, in any combination, never raises the score nor changes whether and why a worker is rejected |
| Scheduling.LoadedNeverWorse | pkg/scheduler/scheduler.go:318-340 | A worker with the model loaded scores at least what the same worker scores with it unloaded |
| Scheduling.LoadedSpread | pkg/scheduler/scheduler.go:322-340 | The gap between the two is bonus plus penalty exactly at the in-flight cap or with a zero penalty |
| Scheduling.LoadedSpreadExample | pkg/scheduler/scheduler.go:322-340 | An idle worker with bonus and penalty 0.2 has a gap of 0.3 |
| Scheduling.QuantizationLaw | pkg/scheduler/scheduler.go:382-450 | A quantization scores above zero exactly when it is compatible, in full exactly for an exact match or no preference, at most 0.8 otherwise, and more capability never scores less |
| Scheduling.LoadDifference | pkg/scheduler/scheduler.go:229-312 | For signals in range, two workers' load parts differ by GPU weight times utilisation difference, queue weight times difference of the worse load ratios, latency weight times latency difference |
| Scheduling.ScoreDifference | pkg/scheduler/scheduler.go:318-368 | Beyond that, load changes the weighted sum only through half the cold penalty per unit of in-flight ratio, and only for a cold worker |
| Scheduling.StaticDifference | pkg/scheduler/scheduler.go:231-242 | Two workers' memory and throughput parts differ by the memory weight times the difference of the free ratios and the throughput weight times that of the throughputs |
| Scheduling.EntryDifference | pkg/scheduler/scheduler.go:220-229 | For two entries of one worker the sum differs by the quantization weight times the difference of their scores |
| Scheduling.UnknownMemory | pkg/scheduler/scheduler.go:231-242 | Unknown memory counts one half, all of it free counts one |
| Scheduling.UnknownSpeed | pkg/scheduler/scheduler.go:244-356 | Unknown GPU use, latency and throughput count one half, values beyond the range its end, throughput without a weight nothing |
| Scheduling.UnknownLoad | pkg/scheduler/scheduler.go:262-297 | Unknown queue depth and in-flight count one half, the cold penalty then one half |
| Scheduling.FullQueue | pkg/scheduler/scheduler.go:262-280 | A queue at its maximum, 10 by default, counts zero |
| Scheduling.FullInFlight | pkg/scheduler/scheduler.go:281-297 | A worker at its in-flight cap counts zero |
| Scheduling.BestWorker | pkg/scheduler/scheduler.go:358-367 | A worker best in every signal sums to the sum of the weights |
| Scheduling.FreeMemoryExample | pkg/scheduler/scheduler.go:231-242 | Two idle loaded workers with 10% and 90% of their memory free score 0.7 and 0.9 with the weights 0.40, 0.25, 0.15, 0.10, 0.10 |
| Scheduling.ScoreIsTheSum | pkg/scheduler/scheduler.go:358-377 | The score is the weighted sum for the first entry with the name, cut off at 0 and 1 |
| Scheduling.RejectionsExactly | pkg/scheduler/scheduler.go:179-217 | Each rejection exactly: stale; no first entry that can serve, hot or cold, in a compatible quantization; too little free memory; a score in every other case |
| Scheduling.PartialCredit | pkg/scheduler/scheduler.go:417-450 | One fifth for each quantization step above what was asked for |
| Scheduling.MoreMemoryNeverWorse | pkg/scheduler/scheduler.go:179-377 | More free memory never scores less nor turns a score into a rejection |
| Scheduling.MoreThroughputNeverWorse | pkg/scheduler/scheduler.go:338-356 | Nor does more throughput |
| Scheduling.FreshMeans | pkg/scheduler/scheduler.go:453-464 | Fresh is heard from within the limit, 30 seconds by default |
| Scheduling.ContendersMeans | pkg/scheduler/scheduler.go:541-588 | The contenders are the workers heard from in time that their allow or block lists admit |
| Scheduling.FilterUnavailable | pkg/scheduler/scheduler.go:453-464 | Keeps exactly the workers with a fresh heartbeat, in order |
| Scheduling.FilterByAllowedModels | pkg/scheduler/scheduler.go:506-536 | Keeps exactly the workers willing under the whitelist-over-blacklist rule, in order |
| Scheduling.SelectWorker | pkg/scheduler/scheduler.go:541-588 | The first maximum among fresh, willing workers; an error exactly when none of them can be scored, and which error |
| Selection.BuildCandidates | pkg/router/dispatch.go:29-97 | Exactly the candidates of the model, once each, in increasing ID order, for every iteration order |
| Selection.ScorePool | pkg/router/dispatch.go:148-165 | The winner has the best score with the lowest ID on ties, or the lowest ID if nothing can be scored |
| Selection.Fallback | pkg/router/dispatch.go:166-245 | The fallback paths return only able workers, and fail exactly when there is none |
| Selection.SelectAcrossSnapshots | pkg/router/dispatch.go:103-245 | With the cache changing between the read locks: the worker returned was cached, non-excluded and willing in the snapshot its path read, the winner of the first pool or the fallback choice of the last snapshot; an error exactly when that pool is empty and the last snapshot has no able worker |
| Selection.SelectWorkerExcluding | pkg/router/dispatch.go:103-245 | On a fixed cache every path returns a cached, non-excluded, willing worker; ErrNoMatchingWorkers exactly when none exists |
| Selection.AbleMeans | pkg/scheduler/scheduler.go:506-536 | Able is cached, not excluded, and allowed: the allow list governs alone, else the block list does |
| Selection.CandidateMeans | pkg/router/dispatch.go:29-97 | The candidates are the workers with the model loaded; if nobody has it, those that loaded it when asked; and, when cold workers are ranked, all that advertise it |
| Selection.CandidateIsLoaded | pkg/router/dispatch.go:41-76 | A candidate not ranked cold has the model loaded in its record, marked so if it was loaded on request |
| Selection.LoadedFirst | pkg/router/dispatch.go:103-165 | If some able worker has the model loaded it takes part, and, unless cold workers are ranked, the one selected has it loaded |
| Selection.AdvertisersTakePart | pkg/router/dispatch.go:78-92 | When cold workers are ranked every able advertiser takes part |
| Selection.AdvertisersFirst | pkg/router/dispatch.go:197-224 | The fallback prefers a worker that advertises the model |
| Selection.FallbackMeans | pkg/router/dispatch.go:197-241 | It is the first able advertiser in iteration order, else the able worker with the lowest ID |
| Selection.ShownToTheScorer | pkg/router/dispatch.go:556-601 | What the scorer is shown of a worker, field by field, from its record, the load snapshot and the throughput table |
| Selection.WinningMeans | pkg/router/dispatch.go:148-165 | Nobody fresh that can be scored scores higher than the winner; equal scores and unscored pools go to the lowest ID |
| Selection.MoreLoadNeverHelps | pkg/router/dispatch.go:440-451 | More load on a worker never improves its rank and touches nobody else's |
| Selection.ChosenUnique | pkg/router/dispatch.go:148-165 | A non-empty pool has one possible winner |
| Selection.OrderFreeAgrees | pkg/router/dispatch.go:103-245 | With a non-empty pool, or at most one able advertiser, the selection is the same for every iteration order |
| Selection.OrderMattersOtherwise | pkg/router/dispatch.go:166-245 | Otherwise two iteration orders select different workers |
| Routing.ServableIsAble | pkg/router/capability_cache.go:249-262 | When the cache has caught up, a worker in step is one selection may use exactly when the registry has it available, non-excluded and willing, and its record is the registry's |
| Routing.SelectAvailable | pkg/router/dispatch.go:103-245 | After any run of registry and cache with an idle event loop, a selected worker in step is such a worker, and an error means there is none in step; with every worker in step there is an error exactly when there is none |
| Failover.TakeTurn | pkg/router/dispatch.go:326-357 | An attempt goes to the worker that selection chooses among those not excluded, or finds nobody |
| Failover.ChoiceIsUnique | pkg/router/dispatch.go:332-339 | There is one such worker |
| Failover.OneAttempt | pkg/router/dispatch.go:330-398 | One pass of the loop keeps the run well formed and says when it stops |
| Failover.DispatchWithFailover | pkg/router/dispatch.go:315-398 | With the environment changing between attempts and the cache within one: each turn went to the worker selection chooses among those not tried; they are distinct, at most max(1, maxAttempts) of them; all but the last ended retryably; success and fail-fast report the last turn; giving up within the budget means every attempt was spent or found nobody, and reports what became of the last |
| Failover.CountedOnce | pkg/router/dispatch.go:315-398 | The popularity counter is bumped once if some worker was selected, else never |
| Failover.EffectsBracketed | pkg/router/dispatch.go:315-398 | Every tracker Begin is followed by exactly one Finish of the same request before the next Begin |
| Failover.EffectsTell | pkg/router/dispatch.go:341-381 | Every dispatched turn, and no other, has its own Begin and its own Finish, which tells success from failure; every rate-limited one is noted as rejected |
| Failover.RetryClasses | pkg/router/dispatch.go:259-303 | Cancellation and scheduler exhaustion are final; otherwise exactly the six transport and worker sentinels, 429 and statuses from 500 on are retried |
| Failover.VerdictMeans | pkg/router/dispatch.go:348-382 | With a hub a worker at its cap is turned down; any other worker's answer is the verdict |
| RelayBroker.RunsKeepGenerations | cmd/relay/main.go:248-294 | In every run the newest generation's connection is published exactly until its reader exits and its queue exactly until its writer clears it, and nothing else is; each socket was given, in order, a prefix of what its own queue accepted; every snapshot pairs a connection with its own queue |
| RelayBroker.OldTeardownIsHarmless | cmd/relay/main.go:355-369 | The teardown of an older generation clears nothing |
| RelayBroker.ExactlyOnePlace | cmd/relay/main.go:576-617 | In every interleaving, each frame that arrived is in exactly one of the worker queue, a flush's hand, one generation's accepted frames, the overflow-dropped frames, or the frames refused by enqueueRouter |
| RelayBroker.WholeFlushesKeepOrder | cmd/relay/main.go:434-446 | With whole flushes the queue stays within its size, frames leave in arrival order before everything still queued, and what an overflow dropped is older than everything still queued |
| RelayBroker.BufferKeepsNewest | cmd/relay/main.go:434-446 | The arriving frame is kept; a queue of 256 loses its first frame for it |
| RelayBroker.FlushMeans | cmd/relay/main.go:576-617 | A whole flush moves frames from the front of the queue to the end of the published channel and leaves some only when that is full; without connection or channel it moves none |
| RelayBroker.StepwiseFlushIsWhole | cmd/relay/main.go:576-617 | A flush taken step by step, with nobody in between, is the one-step flush |
| RelayBroker.DirectSendMeans | cmd/relay/main.go:461-487 | A direct send puts the frame at the end of the snapshot's channel exactly when there is a connection and room; otherwise it is refused |
| RelayBroker.StrandedForever | cmd/relay/main.go:512-538 | Once a writer has stopped, its socket receives nothing more in any run |
| RelayBroker.StrandsExactly | cmd/relay/main.go:461-538 | In every run a step strands a frame exactly when it sends to a queue with room whose writer has stopped |
| RelayBroker.FreshSendStrands | cmd/relay/main.go:461-538 | A whole flush or enqueue strands a frame exactly between a failed write on the published connection and the writer's unpublishing, with room and something to send |
| RelayBroker.StrandingRuns | cmd/relay/main.go:512-538 | Concrete runs: a flush and an enqueue after a failed write, and an enqueue with an older snapshot after an orderly teardown |
| RelayBroker.FlushLoop | cmd/relay/main.go:586-617 | What one pass over the taken frames sends and gives back, with frames that fail to marshal |
| RelayBroker.RebufferDuplicates | cmd/relay/main.go:596-611 | A sent frame is given back as well exactly when some sent frame came after one that failed to marshal |
| RelayBroker.RebufferExample | cmd/relay/main.go:596-611 | Three frames, the first of which does not marshal, with room for one |
| RelayBroker.FlushIsOneStep | cmd/relay/main.go:576-617 | When every frame marshals, an undisturbed flush is the one-step flush of the protocol |
| RelayBroker.Relay.BufferWorkerMessage | cmd/relay/main.go:434-446 | Drop the oldest when full, then append |
| RelayBroker.Relay.HandleRouter | cmd/relay/main.go:248-294 | Publishes a new connection and its own queue together |
| RelayBroker.Relay.ReadLoopTeardown | cmd/relay/main.go:355-369 | Clears the connection only if it is still this one |
| RelayBroker.Relay.WriterLoopTeardown | cmd/relay/main.go:512-538 | Clears the queue only if it is still this one |
| RelayBroker.Relay.EnqueueRouter | cmd/relay/main.go:461-487 | A snapshot and a send, accepted exactly when a queue took the frame; otherwise, also when the frame does not marshal or the context wins, the frame is refused |
| RelayBroker.Relay.FlushBufferedMessages | cmd/relay/main.go:576-617 | The whole new state: the published queue takes what FlushLoop sends, the worker queue is left with what it gives back |
| CallCounter.PruneLoop | pkg/router/call_counter.go:92-110 | Cuts exactly the expired front and keeps the counts in step with what is left |
| CallCounter.SuffixIsWindow | pkg/router/call_counter.go:92-110 | Counting what is left is counting the window of the full history |
| CallCounter.TalliesRefine | pkg/router/call_counter.go:50-62 | Counts of the suffix are the window counts of the history, models without calls being absent |
| CallCounter.Counter.Record | pkg/router/call_counter.go:35-47 | After recording, the counts refine the extended history |
| CallCounter.Counter.Prune | pkg/router/call_counter.go:92-110 | After pruning, the counts are those of the calls no earlier than now minus window |
| CallCounter.Counter.Snapshot | pkg/router/call_counter.go:50-62 | The snapshot has each model's number of calls in the window, and no other model |
| RequestTracker.RequestIdInjective | pkg/router/request_tracker.go:33-36 | Different counters or clock readings give different request IDs |
| RequestTracker.RetainedIsLongest | pkg/router/request_tracker.go:171-183 | The retained prefix is within the cap and unexpired, and its next entry would not be |
| RequestTracker.RetainedFromBounds | pkg/router/request_tracker.go:171-183 | It is the only prefix of that kind |
| RequestTracker.PruneBuffer | pkg/router/request_tracker.go:171-183 | Pruning leaves exactly the retained prefix |
| RequestTracker.BufferSuffices | pkg/router/request_tracker.go:171-183 | Pruning the buffer gives what pruning the whole history would |
| RequestTracker.ListingUnique | pkg/router/request_tracker.go:148-167 | There is one listing of the live and completed requests, newest start first, ID on ties |
| RequestTracker.ExactlyOneHome | pkg/router/request_tracker.go:93-183 | Every begun request is in exactly one of active, completed, reaped |
| RequestTracker.BufferMeans | pkg/router/request_tracker.go:171-183 | The buffer is the newest of the history: at most as many as allowed, none too old at the last prune, and all that meet both |
| RequestTracker.CompletionMeans | pkg/router/request_tracker.go:128-143 | Finishing notes status and end, the duration in whole milliseconds, and changes nothing else |
| RequestTracker.ListingMeans | pkg/router/request_tracker.go:148-167 | The latest start first, the lower ID first among equal starts |
| RequestTracker.Tracker.constructor | pkg/router/request_tracker.go:70-83 | Defaults for non-positive limits; nothing begun |
| RequestTracker.Tracker.Begin | pkg/router/request_tracker.go:93-107 | A new ID from one clock reading, live in the map with the given fields and the start time of a later one |
| RequestTracker.Tracker.SetStatus | pkg/router/request_tracker.go:117-123 | Changes a live request's status; ignores unknown IDs |
| RequestTracker.Tracker.Finish | pkg/router/request_tracker.go:128-143 | Moves a live request to the front of the history, and the buffer is the retained prefix of it; ignores unknown IDs |
| RequestTracker.Tracker.Snapshot | pkg/router/request_tracker.go:148-167 | Prunes, then returns the listing of active and completed requests |
| Aliases.SplitJoin | app/args.go:64-75 | Splitting at commas undoes joining when no part holds one |
| Aliases.ParsePrinted | pkg/router/aliases.go:71-99 | A printed entry parses to the trimmed entry, also when the canonical name holds "=" |
| Aliases.PrintAliases | app/args.go:64-75 | The printing loop, for any iteration order; no flag without parts |
| Aliases.ParseModelAliases | pkg/router/aliases.go:71-99 | The parsing loop: last write wins, nil without aliases |
| Aliases.BuildAliasConfig | pkg/router/aliases.go:27-44 | The building loop, for any iteration order |
| Aliases.ParsePrintAgreesWithBuild | pkg/router/aliases.go:27-99 | For every printable, coherent alias map and every two iteration orders, parsing the printed flag gives what the builder gives, nil included |
| Aliases.AgreesExactlyWhenCoherent | pkg/router/aliases.go:27-99 | A printable map agrees in every order exactly when aliases that trimming makes equal have equal targets |
| Aliases.BuiltMeans | pkg/router/aliases.go:27-44 | An alias is built exactly when some key gives it, blanks aside, with the target of the last such key in iteration order; never an empty map |
| Aliases.ParsedMeans | pkg/router/aliases.go:71-99 | An alias is parsed exactly when some part of the flag gives it, with the target of the last such part |
| Aliases.PartMeans | pkg/router/aliases.go:78-94 | A part gives what stands before and after its first "=", blanks aside |
| Aliases.SplitMeans | pkg/router/aliases.go:77-77 | The parts put together with commas are the flag, and hold no comma |
| Aliases.PrintedMeans | app/args.go:64-75 | The flag is printed exactly when some entry has alias and target, and holds exactly those entries |
| AutoRouting.TierNames | pkg/router/routing_config.go:23-61 | Names and tiers are inverse, except that "complex" reads as the hardest tier |
| AutoRouting.BuildAutoRoutingConfig | pkg/router/routing_config.go:67-119 | The building loop and the clamps, for any iteration order |
| AutoRouting.ToAutoRoutingConfigDto | pkg/router/routing_config.go:124-160 | The writing loop, with the same result for every iteration order |
| AutoRouting.BuildIsNormal | pkg/router/routing_config.go:67-119 | Whatever is built is nil or normal: known tiers, trimmed models, bounds in range with medium above simple, at most 1,000,001 |
| AutoRouting.NormalSurvives | pkg/router/routing_config.go:67-160 | A normal configuration, written and rebuilt in any order, is unchanged |
| AutoRouting.SurvivesExactlyWhenNormal | pkg/router/routing_config.go:67-160 | The fixed points of writing and rebuilding are nil and the normal configurations, nothing else |
| AutoRouting.BuiltSurvives | pkg/router/routing_config.go:67-160 | Every configuration the builder can produce is a fixed point |
| AutoRouting.BuildsWhen | pkg/router/routing_config.go:67-97 | Nil exactly without a request, when disabled, without models, or when no key names a tier with a model |
| AutoRouting.BuildMeans | pkg/router/routing_config.go:99-119 | The bounds with defaults 200 and 600 and maximum 1,000,000, the medium one raised to one above the simple one, and the mode as asked |
| AutoRouting.TierIsRead | pkg/router/routing_config.go:74-92 | A tier is set exactly when some key names it, blanks aside, "complex" being the hardest |
| AutoRouting.LastKeyWins | pkg/router/routing_config.go:74-92 | Its model is the trimmed one of the last such key in iteration order |
| AutoRouting.DtoMeans | pkg/router/routing_config.go:124-160 | Tiers are written under their names, bounds that are not positive as the defaults; nil as disabled and empty |
| SseFraming.FramingUnique | pkg/router/worker_client.go:265-282 | A body has one partition into frames that end at their only blank line, save perhaps the last |
| SseFraming.FramesAreFraming | pkg/router/worker_client.go:265-282 | The frames read are that partition, and put together they are the body |
| SseFraming.Reader.ReadString | pkg/router/worker_client.go:265-282 | The next line, with the reader's end as error when it has no LF |
| SseFraming.Reader.ReadSseFrame | pkg/router/worker_client.go:265-282 | The next frame; each call consumes input or reports the end of the body |
| SseFraming.Stream | pkg/router/worker_client.go:240-256 | Terminates; sends the frames in order up to the first send lost to the context, all of them otherwise; reports an error exactly for a failed body with a live context |
| SseFraming.RelayedIsBody | pkg/router/worker_client.go:240-256 | What was sent is a prefix of the body, and the whole body exactly when every frame was sent |
| SseFraming.StandardBlankLines | pkg/router/worker_client.go:265-282 | Its blank lines are blank by the standard, which has more exactly where a lone CR ends the line or the one before |
| SseFraming.LoneCrExample | pkg/router/worker_client.go:265-282 | A body with a blank line by the standard that is relayed as one frame |
| ConcurrencyEstimator.RankUnique | pkg/worker/concurrency_estimator.go:200-223 | There is one element of each rank |
| ConcurrencyEstimator.RankOccurs | pkg/worker/concurrency_estimator.go:200-223 | It is an element of the samples |
| ConcurrencyEstimator.InsertionSort | pkg/worker/concurrency_estimator.go:204-214 | Sorts in place; every predicate counts the same elements before and after |
| ConcurrencyEstimator.Percentile | pkg/worker/concurrency_estimator.go:200-223 | The sample of rank floor of (n-1)p, or 0 without samples |
| ConcurrencyEstimator.RankExceeds | pkg/worker/concurrency_estimator.go:166-174 | The percentile exceeds a bound exactly when at most rank-many samples stay within it |
| ConcurrencyEstimator.Estimator.constructor | pkg/worker/concurrency_estimator.go:40-58 | The seed bounded below by 1, overridden by a positive persisted cap |
| ConcurrencyEstimator.Estimator.RecordRequest | pkg/worker/concurrency_estimator.go:60-79 | Latency, baseline and 429 window after a request |
| ConcurrencyEstimator.Estimator.RecordCircuitOpen | pkg/worker/concurrency_estimator.go:81-90 | The cap becomes 1; notifies if it changed |
| ConcurrencyEstimator.Estimator.RecordCircuitClosed | pkg/worker/concurrency_estimator.go:92-103 | A cap of 1 becomes 4; notifies if it changed |
| ConcurrencyEstimator.Estimator.Prune | pkg/worker/concurrency_estimator.go:138-152 | Keeps exactly the 429s of the last 10 seconds, in order, and the last 200 latencies |
| ConcurrencyEstimator.Estimator.LowerIfThrottled | pkg/worker/concurrency_estimator.go:158-164 | One step down for two 429s in the window, not below 1 |
| ConcurrencyEstimator.Estimator.LowerIfSpiking | pkg/worker/concurrency_estimator.go:165-174 | One step down exactly when too few samples stay within twice the baseline, not below 1 |
| ConcurrencyEstimator.Estimator.Recover | pkg/worker/concurrency_estimator.go:175-193 | One step up for a low cap, unchanged for a minute, with no 429 in the window's last 30 seconds |
| ConcurrencyEstimator.Estimator.Recompute | pkg/worker/concurrency_estimator.go:134-198 | The whole new state: pruned windows, at most one step down per kind of pressure, recovery, notification |
| ConcurrencyEstimator.TickMoves | pkg/worker/concurrency_estimator.go:134-198 | One tick lowers the cap by its pressures, not below 1, or else raises it by one under the recovery condition, never both; the change time and the notification follow the cap |
| ConcurrencyEstimator.TickLaw | pkg/worker/concurrency_estimator.go:134-198 | One tick of any run, told from the 429s and latencies seen: two 429s in ten seconds, and a sample of rank 0.95 (n-1) of the last 200 above twice the baseline, each lower the cap by one, not below 1; otherwise it rises by one if under 4, unchanged for more than a minute, and without a 429 in ten seconds |
| ConcurrencyEstimator.CircuitMeans | pkg/worker/concurrency_estimator.go:81-103 | An opened circuit leaves a cap of 1, a closed one turns 1 into 4 and leaves other caps |
| ConcurrencyEstimator.RequestMeans | pkg/worker/concurrency_estimator.go:60-79 | A request adds its latency, the baseline of the first nine and averaged in afterwards, and its time if turned down |
| ConcurrencyEstimator.AverageMeans | pkg/worker/concurrency_estimator.go:70-73 | Nine parts baseline to one part latency, rounded towards zero, and between the two |
| ConcurrencyEstimator.RankIndexMeans | pkg/worker/concurrency_estimator.go:215-222 | The rank is (n-1)p rounded down |
| ConcurrencyEstimator.RecentIsWindow | pkg/worker/concurrency_estimator.go:176-186 | The 30-second look-back finds a 429 exactly when the pruned window is not empty |
| ConcurrencyEstimator.RunsKeepBounds | pkg/worker/concurrency_estimator.go:40-198 | Over any run the cap stays between 1 and the larger of its initial value and 4, and the window is exactly the 429s after the latest cutoff |
| ConcurrencyEstimator.RecoveryWaits | pkg/worker/concurrency_estimator.go:176-186 | The look-back is for 10 quiet seconds; it differs from the announced 30 exactly when the latest 429 is between 10 and 30 seconds old |
| ConcurrencyEstimator.TickDiffersFromAnnounced | pkg/worker/concurrency_estimator.go:134-198 | In every run a tick leaves another cap than the announced one exactly in that case, with a low cap unchanged for a minute that no pressure lowers |
| ConcurrencyEstimator.RecoversTwentySecondsAfterA429 | pkg/worker/concurrency_estimator.go:176-186 | A run that recovers 20 seconds after a 429 |

## Left out

- HTTP handlers, TLS, mDNS, backend adapters, the keyring, process supervision, the tray, the windows and the web frontend: input and output around the modelled logic.
- Prompt classification, URL normalisation and JSON encoding: they rest on libraries that are not part of this model; marshalling, decoding, model loading and worker replies are parameters.
- The circuit breaker, the model health tracker, backoff, flag parsing, alias and mode lookups: each is a local computation that shares no state with the parts modelled here.
- Queue depth as the length of the send channel: the counters at pkg/router/ws_conn.go:111 and 207-209 do not keep it.
- Agreement of hub connections with the registry after a supersede: the old connection still announces its removal (pkg/router/ws_conn.go:271-274).
- Supersede of relay registrations (pkg/router/ws_relay.go:474-477) and the wait averages; supersede is modelled for direct connections.
- The generation safety of the router's own relay loops (pkg/router/ws_relay.go:283-285), which read the shared connection; it is proved for cmd/relay.
- The relay's workers map, whose teardown deletes unconditionally (cmd/relay/main.go:298-301).
- Floating point: scores, latencies, averages and ranks are computed over the reals, so rounding is not modelled.
- Worker records keep the fields that selection, filtering and the cache depend on; integer widths and invalid UTF-8 are not modelled.
- The registry has the capability cache as its one subscriber; compaction of a list of several subscribers is not modelled.
- A selection reads the clock once and always has a cache; the path for a missing cache (pkg/router/dispatch.go:103-110) is not modelled.
- Persistence of the estimator's cap and its debounce timer: the persisted cap is a parameter of the constructor.
- The reasoning keyword and phrase lists of the auto-routing configuration, which the wire form does not carry.
- RelayBroker.WholeFlushesKeepOrder: does not cover interleaved flushes, for which frames given back are appended behind newer ones without the cap (cmd/relay/main.go:608-610).
- StreamCalls.RunsDeliverInOrder: takes the messages of one call to come from one reader goroutine, as the reader loops do; a worker connected directly and through the relay at once is not modelled.
- ConnectionSlots.ConnHub.SupersedeIncumbent: does not model the close request put on the incumbent's send queue; the incumbent's shutdown is a step of its own that may follow.
- ConnectionSlots.ConnHub.ShutdownConn: does not model failing the pending calls, which is DirectCalls.DirectConn.FailAll, nor the announcement to the registry.
- RelayBroker.Relay.HandleRouter: does not model closing the superseded socket, whose reader exit is a step of its own that may follow.
- RegistryReplica.MemoryRegistry.BroadcastEvent: has one subscriber, because each subscriber's channel is filled independently of the others.
- RegistryReplica.MemoryRegistry.PruneSubscriber: has one subscriber, so the compaction of the list is not modelled.
- Scheduling.Score: its own contract gives the range only; what it computes is stated by ScoreIsTheSum, the difference laws, the laws for unknown and extreme signals, BestWorker and RejectionsExactly.
- RelayAccounting.EmptyWorkerIdLeaks: is a property of registration and finish that no present caller reaches, as said above.
