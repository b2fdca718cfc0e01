# A verified model of the Wormsign controller

Wormsign is a Kubernetes controller that detects faults, correlates them, gathers diagnostics
and hands them to an analyzer. This project models its stateful core in Dafny and proves what
holds over every input, every interleaving and every run. `dafny verify dfyconfig.toml` checks
the whole project.

| module | what it models |
|---|---|
| `Hasher` | jump consistent hashing and the split of namespaces over replicas |
| `ShardManager`, `ShardProtocol`, `ShardConvergence` | the leader's shard map, one replica's state, the protocol of all replicas around the shared ConfigMap, and when they agree |
| `ShardIndexes` | the informer factories and wired namespaces that follow a replica's assignment |
| `Events`, `Correlator`, `CorrelationPriority`, `CorrelationGroups`, `CorrelationLoop` | fault events, the four correlation rules, what they yield in an operator's terms, their outcome apart from IDs, and the buffered window |
| `PriorityQueue`, `QueueConcurrency` | the severity queue, as data and as a condition-variable protocol |
| `Pipeline` | submission, correlation, gathering, analysis and delivery as one transition system |
| `RateLimiter`, `CircuitBreaker`, `Cooldown` | the three time-driven gates |
| `FilterEngine`, `PolicyWatcher`, `PolicyHandover` | the nine-level filter, the policy list that events keep for it, and handlers that overlap |
| `JsonPath` | splitting of escaped paths |
| `Prelude`, `Ordering` | sequences, sums and sorted strings |

Objects whose methods update fields are classes whose methods are proved against functions on
values; loops stay loops. Where goroutines interleave, a component is in addition a transition
system whose steps are its critical sections, and the theorems quantify over all runs. Clocks,
UUIDs, namespace hashes, regular expressions, globs and white-space trimming are parameters.
The visiting order of a Go map is an arbitrary choice (`:|`), and results are proved not to depend on it.

## Where the code and its documentation part

- **One probe.** The system design document (docs/SYSTEM_HLD.md:308) lets a half-open circuit probe one request.
  The lock is released before the primary is called, so `w` overlapping callers can all probe, from the initial state and for every `w`
  (`CircuitBreaker.ProbesAttained`). All runs keep to one probe if and only if calls do not overlap (`CircuitBreaker.SingleProbeIff`); a single run
  does if and only if every caller that reads half-open finds no probe out (`CircuitBreaker.OneProbeThroughoutIff`).
- **Replica count.** `reconcile` reads the replica count several times without its lock. If it changes in between,
  a written map can leave namespaces to nobody (`ShardManager.RacingReadsDropNamespaces`); `ShardManager.HandedExactly`
  says exactly when it does. No interleaving makes two replicas share a namespace under one map.
- **Drain.** `PriorityQueue.Drain` wakes nobody. It keeps the wakeup guarantee exactly when an item is in flight or no drain-waiter
  sleeps (`QueueConcurrency.DrainKeepsInvariantIff`); otherwise all can sleep over a pending item (`QueueConcurrency.UnsafeDrainLosesWakeup`).
  The controller does not call it.
- **Wasted signals.** `Add` signals one sleeper. A drain-waiter can take the signal while a worker sleeps, so an item may wait
  for a busy worker although another one is idle (`QueueConcurrency.WaiterTakesSignal`). Every pending item has a worker on its way all through a run
  if and only if no `Add` signals a waiter while a worker sleeps and the awake ones have enough to do (`QueueConcurrency.ServedThroughoutIff`).
- **Unnamed policies.** The policy lookups report a match by name, so an applicable policy with the empty name hides
  the ones behind it (`FilterEngine.UnnamedPolicyMasks`). `FilterEngine.EvaluateMeetsPromiseIff` gives the exact condition. The API server does not admit empty names.
- **Label selectors.** The comment at internal/filter/engine.go:555 wants every listed label present. The code reads a missing label as empty, so a
  selector that wants an empty value matches an object without the label (`FilterEngine.EmptyLabelMatchesMissing`); `FilterEngine.SelectorIsDocumentedIff` is exact.
- **Policy hand-over.** The rebuilt list is handed to the engine after the watcher's lock is released. Overlapping handlers can
  leave a deleted policy in the engine for good (`PolicyHandover.OverlapResurrects`). Once no handler is in flight, the engine reflects every change
  if and only if none lies between the list it shows and the newest list it was ever handed (`PolicyHandover.QuietEngineReflectsAllIff`);
  serial delivery always ends that way (`PolicyHandover.SerialEngineIsCurrent`).
- **Repeated triggers.** Of several unconsumed triggers with one key, a cascade takes only the latest; the others stay in the window for
  the later rules. Conservation holds regardless.
- **Recording before creating.** `Emit` starts the cooldown before it knows whether the event could be created.
- **Interleaved `Emit`.** Asking and recording are separate sections, so two callers that both ask first can fire at the same instant
  (`Cooldown.OverlappingCallersFireTogether`). For every interleaving and every clock, fires are a cooldown apart if and only if each record finds the
  cooldown over at its own time in the run without its cleanups (`Cooldown.SpacedIff`).
- **Delayed callers and cleanups.** The cooldown gate reads its clock before it takes the lock, so sections need not run in clock order. A caller delayed in
  between can find its resource's entry already pruned (`Cooldown.DelayedCallerFiresTogether`, `Cooldown.DelayedCallerSeesCleanup`). Cleanups are
  invisible if and only if no call carries a time less than a cooldown after an entry they removed (`Cooldown.CleanupIsInvisibleIff`,
  `Cooldown.SpacedIffClearInTime`), which clock order ensures.
- **Rest after an opening.** The open circuit is meant to spare the primary for the open duration. It does in every run if and only if calls do not overlap
  (`CircuitBreaker.AlwaysRestsIff`); with overlap a call within the duration needs a success recorded since the opening (`CircuitBreaker.EarlyCallAfterSuccess`).

## Model

| member | source | states |
|---|---|---|
| `Hasher.NextJumpBounds` | internal/shard/hasher.go:29 | for every monotone rounding that is exact on float64's exact integers, a jump moves strictly forward and its value fits an int64 |
| `Hasher.JumpIsQuotient` | internal/shard/hasher.go:29 | without rounding, a jump is the integer quotient of (b + 1) * 2^31 by the key's top 31 bits plus one |
| `Hasher.JumpByTopBits` | internal/shard/hasher.go:29 | under every rounding, larger top bits never jump further and a larger bucket never jumps less far |
| `Hasher.SameTopBitsJumpAlike` | internal/shard/hasher.go:29 | under every rounding, only the top 31 bits of the key matter |
| `Hasher.GeneratorSteps` | internal/shard/hasher.go:28 | the generator maps key 0 to 1, its values at neighbouring keys are 2862933555777941757 apart modulo 2^64, and it is iterated |
| `Hasher.TwoBuckets` | internal/shard/hasher.go:19-32 | in literal terms, a key goes to bucket 1 of 2 exactly when key * 2862933555777941757 + 1 modulo 2^64 has its top bit set |
| `Hasher.JumpHash` | internal/shard/hasher.go:19-32 | the loop ends with a bucket in `[0, n)`, the one found by searching the jump sequence |
| `Hasher.BucketIsLastJump` | internal/shard/hasher.go:19-32 | a bucket is the result iff it is the last jump below `n` of a sequence that does not depend on `n` |
| `Hasher.BucketConsistent` | internal/shard/hasher.go:10-18 | a key whose bucket among `n` is below `m <= n` has the same bucket among `m`; keys only move to new buckets |
| `Hasher.AssignNamespaces` | internal/shard/hasher.go:49-60 | every index below the count has an entry: the namespaces hashing to it, in input order |
| `Hasher.AssignmentPartitions` | internal/shard/hasher.go:43-60 | the bucket lists together are the input multiset, and no namespace is in two of them |
| `Hasher.GrowthKeepsOrder` | internal/shard/hasher.go:10-18 | when replicas are added, an old bucket's new list is a subsequence of its old list, and what leaves it goes to a new bucket |
| `Hasher.FloatJumpConsistent` | internal/shard/hasher.go:19-32 | both for the float64 expression itself, under every rounding |
| `Hasher.ShortJumpLands` | internal/shard/hasher.go:27-30 | a concrete key goes to bucket 1 of 2 under every rounding |
| `ShardManager.DiscoverPeers` | internal/shard/manager.go:376-403 | the names of the pods that are neither succeeded nor failed, as a multiset, sorted |
| `ShardManager.Manager.SetNumReplicas` | internal/shard/manager.go:548-557 | counts below one are ignored |
| `ShardManager.Manager.ListNamespaces` | internal/shard/manager.go:300-308 | the sorted listing without the excluded namespaces |
| `ShardManager.Manager.ComputeShardMap` | internal/shard/manager.go:293-354 | without interference the map is the planned one, for one replica, for matching peers and after adjusting the count to the peers |
| `ShardManager.MapFromReads` | internal/shard/manager.go:300-354 | the computation with each unlocked read on its own yields the planned map for every combination of reads |
| `ShardManager.Manager.ApplyShardMap` | internal/shard/manager.go:482-519 | the new assignment is the replica's entry or nothing; added and removed are the exact sorted differences |
| `ShardManager.BuildEntries` | internal/shard/manager.go:349-353 | bucket `i` goes, sorted, to owner `i` |
| `ShardManager.EntryOwner` | internal/shard/manager.go:310-354 | a namespace is in a replica's entry iff it is wanted and its bucket points at that replica |
| `ShardManager.EntriesDisjoint` | internal/shard/manager.go:310-354 | a map never gives a namespace to two replicas, whatever the unlocked reads saw |
| `ShardManager.HandedExactly` | internal/shard/manager.go:293-354 | a map hands out exactly the wanted namespaces whose bucket has an owner, hence all of them iff none hashes past the owners |
| `ShardManager.HandedByReads` | internal/shard/manager.go:310-354 | the same in terms of the five reads: bucket 0 for a read of one, everything after an adjustment, the buckets below the loop's read otherwise; and the recorded count |
| `ShardManager.StableReadsCover` | internal/shard/manager.go:310-354 | if the replica count does not change during the computation, everything wanted is handed out |
| `ShardManager.RacingReadsDropNamespaces` | internal/shard/manager.go:310-328 | a count that drops to one between hashing and the mode test leaves a namespace of bucket 1 to nobody |
| `ShardManager.RacingReadsCanDrop` | internal/shard/manager.go:310-328 | with the float64 jump, under every rounding, some hash of the namespace makes that happen |
| `ShardManager.ListingOrderIrrelevant` | internal/shard/manager.go:300-308 | the map does not depend on the order of the namespace listing |
| `ShardProtocol.StepKeepsInvariant` | internal/shard/manager.go:293-371 | join, crash, compute, observe, commit, abort, apply, fetch and deletion all keep: the store holds the last written map, and every replica follows a written map |
| `ShardProtocol.RunKeepsInvariant` | internal/shard/manager.go:293-371 | the invariant holds after every run of any number of replicas and leaders |
| `ShardProtocol.AssignmentsComeFromTheStore` | internal/shard/manager.go:407-427 | in every run a replica's assignment is empty or is its entry in a map that was written |
| `ShardProtocol.NoNamespaceIsShared` | internal/shard/manager.go:482-519 | in every run two replicas that last applied the same map share no namespace |
| `ShardProtocol.SettledOwnership` | internal/shard/manager.go:293-371 | once all replicas of a written map applied it, they own exactly the wanted namespaces whose bucket has an owner |
| `ShardProtocol.SettledCoverage` | internal/shard/manager.go:293-371 | with stable reads they own exactly the non-excluded namespaces |
| `ShardProtocol.OneWritePerVersion` | internal/shard/manager.go:430-478 | in every run at most one write succeeds on top of any version of the ConfigMap |
| `ShardConvergence.SyncAppliesNewest` | internal/shard/manager.go:407-427 | in every run a sync leaves its replica with the newest map at the time it read the store |
| `ShardConvergence.ReconcileWritesItsMap` | internal/shard/manager.go:293-359 | in every run a reconcile adds to the history exactly the map of the inputs it computed from |
| `ShardConvergence.ReconcileAppliesItsMap` | internal/shard/manager.go:356-362 | and applies that map to its own replica |
| `ShardConvergence.WriteReplacesWhatItRead` | internal/shard/manager.go:451-477 | in every run a write that found a ConfigMap replaces exactly the one it read: nobody wrote in between |
| `ShardConvergence.OperationsBelongToTheLiving` | internal/shard/manager.go:264-289 | a crash takes the replica's operations with it |
| `ShardConvergence.AbortedIsOver` | internal/shard/manager.go:455-475 | an operation that returned an error neither writes nor applies anything any more |
| `ShardConvergence.NoSyncAfterDeletion` | internal/shard/manager.go:408-413 | after the ConfigMap is deleted no sync succeeds before the next write, and replicas keep what they hold |
| `ShardConvergence.FreshReplicasSettle` | internal/shard/manager.go:407-427 | after the last write, if every listed replica ends on an apply of that write or of a later sync, all are settled on the newest map |
| `ShardConvergence.FreshReplicasCover` | internal/shard/manager.go:293-371 | so with stable reads they own exactly the non-excluded namespaces, with no assumption on what they hold |
| `ShardConvergence.SerialReplicaStaysFresh` | internal/shard/manager.go:233-289 | for replicas that do one thing at a time, one such apply is enough for good |
| `ShardConvergence.RunBehaves` | internal/shard/manager.go:293-371 | these results, stated on sequences of states, are about the runs above: every run passes through such states |
| `ShardConvergence.BehavesRuns` | internal/shard/manager.go:293-371 | and such states make a run |
| `ShardIndexes.InformerManager.HandleShardChange` | internal/shard/informer_manager.go:103-138 | removed namespaces lose their factory, added ones get a new one, the rest keep theirs; each factory ever created is live or was cancelled exactly once; nothing happens after `Stop` |
| `ShardIndexes.InformerManager.StartFactory` | internal/shard/informer_manager.go:144-177 | the namespace gets one fresh factory |
| `ShardIndexes.InformerManager.Stop` | internal/shard/informer_manager.go:245-257 | every factory ever created has then been cancelled exactly once |
| `ShardIndexes.DetectorBridge.HandleShardChange` | internal/controller/detectors.go:230-252 | the wired set loses the removed and gains the added namespaces that have a factory, registering handlers once on each newly wired one |
| `ShardIndexes.RegistrationKept` | internal/controller/detectors.go:238-250 | replaying a difference keeps: no factory has its handlers twice and every live one has them |
| `ShardIndexes.ShardedReplica.Apply` | internal/shard/manager.go:519-543 | factory keys, assigned namespaces and wired namespaces stay equal until the informers stop; afterwards the wired set only shrinks |
| `ShardIndexes.ShardedReplica.Run` | internal/shard/manager.go:482-544 | the same after any run of applications and stops |
| `Events.HighestSeverity` | internal/model/types.go:323-331 | the loop computes the maximum characterised by `Events.HighestIsMaximum` |
| `Events.HighestIsMaximum` | internal/model/types.go:308-331 | no event is more severe, and some event is as severe unless none has a known severity |
| `Events.HighestByName` | internal/model/types.go:308-331 | critical iff some event is, else warning iff some event is, else info |
| `Correlator.GroupFacts` | internal/pipeline/correlator/rules.go:67-74 | a group consists of different live events that all belong to its key |
| `Correlator.BuildFacts` | internal/model/types.go:251-280 | for a qualifying key only drawing a UUID can fail, and the super-event carries the group and its highest severity |
| `Correlator.FindTriggers` | internal/pipeline/correlator/rules.go:29-37 | per key, the latest unconsumed trigger |
| `Correlator.GroupMembers` | internal/pipeline/correlator/rules.go:43-60 | per key, the unconsumed members in window order |
| `Correlator.EvaluateCascade` | internal/pipeline/correlator/rules.go:27-100 | one super-event for exactly the keys with a trigger and enough members, whatever the map order; node and storage cascade (lines 183-262) share it |
| `Correlator.EvaluateGrouping` | internal/pipeline/correlator/rules.go:109-174 | one super-event for exactly the keys with enough members; rollout and namespace storm (lines 271-322) share it |
| `Correlator.Evaluate` | internal/pipeline/correlator/correlator.go:302-340 | the result is explained by four phases, each seeing what the earlier ones left; disabled rules contribute nothing |
| `Correlator.RuleConserves` | internal/pipeline/correlator/rules.go:75-95 | one rule moves events into super-events and loses or repeats none, also when creation fails for some groups |
| `Correlator.CorrelationConserves` | internal/pipeline/correlator/correlator.go:302-340 | the window is the disjoint union of all constituents and the uncorrelated events |
| `Correlator.RuleDeterministic` | internal/pipeline/correlator/rules.go:62-95 | for one table of UUIDs, two evaluations of a rule give the same super-events up to order and consume the same IDs |
| `Correlator.CorrelationDeterministic` | internal/pipeline/correlator/correlator.go:302-340 | for one table of UUIDs, two evaluations of a window differ at most in the order of the super-event list |
| `CorrelationGroups.GroupsDeterministic` | internal/pipeline/correlator/correlator.go:302-340 | whatever UUIDs two evaluations draw, if drawing succeeds for the same groups they form the same groups, with the same primaries and severities, and leave the same events |
| `Correlator.SuperEventSeverity` | internal/model/types.go:267-277 | every super-event in a result has the maximum severity of its constituents |
| `Correlator.StormBoundsLeftovers` | internal/pipeline/correlator/rules.go:264-322 | with the storm rule on, at most the threshold of uncorrelated events is left per namespace |
| `CorrelationPriority.NodeCascadesFirst` | internal/pipeline/correlator/rules.go:27-100 | a window's NodeCascade super-events are exactly: for each node with a NodeNotReady event and at least the minimum of pods annotated with it, the latest such event with all those pods |
| `CorrelationPriority.RolloutsSecond` | internal/pipeline/correlator/rules.go:109-174 | the DeploymentRollout ones are exactly the deployments with enough annotated pods among the events in no NodeCascade super-event |
| `CorrelationPriority.StorageThird` | internal/pipeline/correlator/rules.go:183-262 | the StorageCascade ones are exactly the latest stuck-claim events with the pods of their namespace that use the claim, among what both left |
| `CorrelationPriority.StormsLast` | internal/pipeline/correlator/rules.go:271-322 | the NamespaceStorm ones are exactly the namespaces with more than the threshold of events that all three left |
| `CorrelationPriority.NothingElse` | internal/pipeline/correlator/correlator.go:302-340 | there is no other super-event, and the uncorrelated events are those that none holds, in window order |
| `CorrelationLoop.CorrelationEngine.Submit` | internal/pipeline/correlator/correlator.go:200-210 | buffers the event, or passes it through when correlation is off |
| `CorrelationLoop.CorrelationEngine.EvaluateAndEmit` | internal/pipeline/correlator/correlator.go:265-297 | empties the buffer, delivers a correlation of exactly the buffered events, and stays silent only on an empty window; then all that was submitted has been delivered once |
| `PriorityQueue.PriorityQueue.Add` | internal/pipeline/queue/queues.go:189-200 | appends to the pending sequence, or drops the item after shutdown |
| `PriorityQueue.PriorityQueue.Get` | internal/pipeline/queue/queues.go:205-229 | takes the earliest item of the best class and counts it in flight; nothing only after shutdown with nothing pending |
| `PriorityQueue.PriorityQueue.Done` | internal/pipeline/queue/queues.go:232-239 | one item less in flight, never below zero |
| `PriorityQueue.PriorityQueue.Drain` | internal/pipeline/queue/queues.go:276-286 | hands over what repeated `Get` would have delivered, in that order |
| `PriorityQueue.NextIndexIsNext` | internal/pipeline/queue/queues.go:217-225 | the chosen item has no better one and is the earliest of its class |
| `PriorityQueue.NextUnique` | internal/pipeline/queue/queues.go:217-225 | there is only one such item |
| `PriorityQueue.NextIsForemost` | internal/pipeline/queue/queues.go:176-229 | in severity names: the next item is the earliest critical one, without any the earliest warning, otherwise the first item |
| `PriorityQueue.DeliveryBySeverity` | internal/pipeline/queue/queues.go:276-286 | repeated `Get` delivers all critical items, all warnings, then info and unknown severities together, each in order of arrival |
| `PriorityQueue.DeliveryDescends` | internal/pipeline/queue/queues.go:276-286 | so nothing critical follows anything else and no warning follows the rest |
| `PriorityQueue.GetTakesFirstHead` | internal/pipeline/queue/queues.go:176-225 | the head of the first non-empty slice is that item, and the other slices do not change |
| `PriorityQueue.DeliveryIsByClass` | internal/pipeline/queue/queues.go:276-286 | repeated `Get` delivers class by class, in order of arrival within a class, everything pending |
| `PriorityQueue.GetConserves` | internal/pipeline/queue/queues.go:205-229 | what `Get` takes and what it leaves are what was pending |
| `QueueConcurrency.AddLeavesSomeoneAwake` | internal/pipeline/queue/queues.go:189-200 | whichever sleeper the signal wakes, some worker is awake after `Add` |
| `QueueConcurrency.CheckKeepsInvariant` | internal/pipeline/queue/queues.go:205-229 | the wait loop of `Get` and what follows it keep the invariant |
| `QueueConcurrency.DoneKeepsInvariant` | internal/pipeline/queue/queues.go:232-239 | `Done` keeps the invariant |
| `QueueConcurrency.ShutDownKeepsInvariant` | internal/pipeline/queue/queues.go:260-265 | `ShutDown` keeps the invariant |
| `QueueConcurrency.RunKeepsInvariant` | internal/pipeline/queue/queues.go:189-239 | the invariant holds in every run whose drains are safe |
| `QueueConcurrency.NoLostWakeup` | internal/pipeline/queue/queues.go:189-239 | in every run a pending item has a worker awake for it; none exits while items remain; none sleeps after shutdown; in flight equals busy workers; a sleeping waiter has work to wait for |
| `QueueConcurrency.CheckTakesForemost` | internal/pipeline/queue/queues.go:217-225 | a worker that finds work takes the foremost item by severity name and leaves the rest in place |
| `QueueConcurrency.ShutDownIff` | internal/pipeline/queue/queues.go:260-265 | in every run the queue is shut down iff `ShutDown` was called |
| `QueueConcurrency.TakenInOrder` | internal/pipeline/queue/queues.go:189-286 | in every run, for each severity, the items added before shutdown are those taken, in order of addition, followed by those still pending |
| `QueueConcurrency.WorkersProgress` | internal/pipeline/queue/queues.go:205-239 | while there is work, some worker can take a step that reduces it |
| `QueueConcurrency.WorkersCanFinish` | internal/pipeline/queue/queues.go:205-239 | from every reachable state the workers alone can finish, in exactly the number of steps the work asks for, and wake every waiter |
| `QueueConcurrency.WorkerRunsAreBounded` | internal/pipeline/queue/queues.go:205-239 | however they are scheduled, the workers alone take a bounded number of steps from every reachable state |
| `QueueConcurrency.StuckWorkersAreDone` | internal/pipeline/queue/queues.go:205-239 | and when none can take another step, nothing is pending or in flight and no waiter sleeps |
| `QueueConcurrency.WaitReturnsAfterQuiet` | internal/pipeline/queue/queues.go:300-338 | a waiter succeeds only after a state, since its call, with nothing in flight and (for drain) nothing pending |
| `QueueConcurrency.WaiterKind` | internal/pipeline/queue/queues.go:300-338 | a waiter waits for what it was called for |
| `QueueConcurrency.DrainKeepsInvariantIff` | internal/pipeline/queue/queues.go:276-286 | `Drain` keeps the invariant iff an item is in flight or no drain-waiter sleeps |
| `QueueConcurrency.GuaranteedThroughoutIff` | internal/pipeline/queue/queues.go:189-338 | the guarantees hold after every prefix of a run iff every `Drain` in it is safe where it happens |
| `QueueConcurrency.UnsafeDrainLosesWakeup` | internal/pipeline/queue/queues.go:276-286 | a run with an unsafe `Drain` after which everybody sleeps and an item is pending |
| `QueueConcurrency.AddKeepsFullyServedIff` | internal/pipeline/queue/queues.go:189-200 | `Add` keeps every pending item served iff its signal is not taken by a waiter while a worker sleeps and the awake ones have enough to do |
| `QueueConcurrency.StepKeepsFullyServedIff` | internal/pipeline/queue/queues.go:189-338 | the same for every step: no other step, with or without waiters, can leave an item unserved |
| `QueueConcurrency.ServedThroughoutIff` | internal/pipeline/queue/queues.go:189-338 | in every run all pending items are served after each prefix iff no `Add` wastes its signal |
| `QueueConcurrency.WithoutWaitersFullyServed` | internal/pipeline/queue/queues.go:189-229 | in particular, without waiters a worker sleeps only if the workers on their way can take everything pending |
| `QueueConcurrency.WaiterTakesSignal` | internal/pipeline/queue/queues.go:300-317 | with a waiter that fails: a run with one busy worker, one asleep and a pending item |
| `Pipeline.HandledCounted` | internal/pipeline/pipeline.go:267-286 | the items the handler enqueues hold as many copies of each event as the window did |
| `Pipeline.HandleCorrelationResult` | internal/pipeline/pipeline.go:267-286 | the loops append one item per super-event and then one per uncorrelated event |
| `Pipeline.HandledInOrder` | internal/pipeline/pipeline.go:267-286 | which items these are, position by position |
| `Pipeline.StepConserves` | internal/pipeline/pipeline.go:498-554 | every step of submission, correlation and the three stages moves events between places and loses or creates none |
| `Pipeline.SubmitEnters` | internal/pipeline/pipeline.go:221-262 | an excluded event changes nothing; an admitted one enters the buffer, or the gathering queue when correlation is off, and touches no other place |
| `Pipeline.StepFlows` | internal/pipeline/pipeline.go:267-684 | every later step carries what it picks up (the buffer, the window, the head of a queue, the foremost analysis item, a worker's item) to the next place and moves nothing else |
| `Pipeline.StagesKeepSubject` | internal/pipeline/pipeline.go:498-630 | gathering keeps the subject and takes its severity, analysis keeps the bundle and falls back only when it failed |
| `Pipeline.StepKeepsInvariant` | internal/pipeline/pipeline.go:472-684 | every step keeps: items refer to exactly one event or super-event, IDs stay distinct, and what was accepted equals what is in all places together |
| `Pipeline.RunKeepsInvariant` | internal/pipeline/pipeline.go:221-286 | in every run what was accepted equals what is in all places together |
| `Pipeline.ExactlyOnePlace` | internal/pipeline/pipeline.go:576-630 | at every moment of every run an accepted event is in exactly one place, once, and no other event is anywhere |
| `Pipeline.AcceptedIff` | internal/pipeline/pipeline.go:221-262 | in every run an event is accepted iff some step submits it and the filter lets it pass |
| `Pipeline.ExcludedIsNowhere` | internal/pipeline/pipeline.go:228-245 | an event the filter excludes every time is at no place |
| `Pipeline.EventsMoveForward` | internal/pipeline/pipeline.go:221-684 | in every run an event stays where it is or goes on to the next place |
| `Pipeline.DrainedMeansProcessed` | internal/pipeline/pipeline.go:660-684 | when the stages are empty, each accepted event is covered by the processed reports exactly once |
| `Pipeline.RunKeepsLabels` | internal/pipeline/pipeline.go:498-630 | in every run analysis items carry the severity of the event or super-event they are about, and reports, also after a failed analysis, its ID |
| `RateLimiter.RateLimiter.IsOverBudget` | internal/analyzer/rate_limiter.go:106-127 | over iff a budget is set and the current day or hour has reached it |
| `RateLimiter.RateLimiter.RecordTokens` | internal/analyzer/rate_limiter.go:131-162 | positive tokens are added to the current day and hour, after a roll-over resets them |
| `RateLimiter.RateLimiter.TokenUsage` | internal/analyzer/rate_limiter.go:166-183 | the counters of the current day and hour, zero after a roll-over |
| `RateLimiter.ClockUnits` | internal/analyzer/rate_limiter.go:113-120 | a window is an hour of 3600 seconds or a day of 24 hours, and an hour belongs to one day |
| `RateLimiter.ReplayTracks` | internal/analyzer/rate_limiter.go:131-153 | after recording any log under a nondecreasing clock, each counter is the log's sum for its window and later windows are empty |
| `RateLimiter.UsageMatchesLog` | internal/analyzer/rate_limiter.go:166-183 | reported usage equals the log's sums for the current day and hour, and the hour never exceeds the day |
| `RateLimiter.CheckMatchesLog` | internal/analyzer/rate_limiter.go:81-127 | in every run a call is admitted exactly when the full log is below both budgets, and denied exactly when it is not |
| `RateLimiter.InflightIsOutstanding` | internal/analyzer/rate_limiter.go:81-97 | calls in flight are those admitted less those that ended |
| `RateLimiter.OvershootBounded` | internal/analyzer/rate_limiter.go:81-97 | with `w` callers and at most `M` tokens a call, no day and no hour ever records more than its budget - 1 + w*M, in every interleaving |
| `RateLimiter.OvershootAttained` | internal/analyzer/rate_limiter.go:81-97 | for all budgets, `w` and `M` some run records exactly that much of the tightest budget that is set, in one day and one hour |
| `CircuitBreaker.CircuitBreaker.CurrentState` | internal/analyzer/circuit_breaker.go:177-188 | reading moves an open circuit to half-open once the duration has passed |
| `CircuitBreaker.CircuitBreaker.RecordSuccess` | internal/analyzer/circuit_breaker.go:191-204 | closes the circuit and clears the count |
| `CircuitBreaker.CircuitBreaker.RecordFailure` | internal/analyzer/circuit_breaker.go:208-234 | counts, reopens from half-open, and opens from closed at the threshold |
| `CircuitBreaker.CircuitBreaker.Analyze` | internal/analyzer/circuit_breaker.go:119-153 | a call without interference goes to the fallback alone iff the circuit reads open, and leaves the state of its sections in sequence |
| `CircuitBreaker.ClosedIffShortRun` | internal/analyzer/circuit_breaker.go:177-234 | for every interleaving, the count is the number of failures since the last success, and the circuit is closed iff that is below the threshold |
| `CircuitBreaker.OpenedAtIsLastOpening` | internal/analyzer/circuit_breaker.go:208-234 | the recorded time is that of the last opening; failures recorded while already open do not move it |
| `CircuitBreaker.ReadOpensUpIff` | internal/analyzer/circuit_breaker.go:177-188 | an open circuit turns half-open at a read exactly when the open duration has passed since it last opened |
| `CircuitBreaker.SharedRunsSections` | internal/analyzer/circuit_breaker.go:119-153 | overlapping calls drive the breaker through an interleaving of its sections, so the result above applies to them |
| `CircuitBreaker.ProbesBounded` | internal/analyzer/circuit_breaker.go:119-153 | with at most `w` overlapping callers at most `w` probes are out, in every run |
| `CircuitBreaker.ProbesAttained` | internal/analyzer/circuit_breaker.go:119-139 | for every `w` some run from the initial state has `w` probes out at once |
| `CircuitBreaker.SingleProbeIff` | internal/analyzer/circuit_breaker.go:119-139 | every run has at most one probe out iff calls do not overlap |
| `CircuitBreaker.OneProbeThroughoutIff` | internal/analyzer/circuit_breaker.go:119-139 | a run never has two probes out iff every caller that reads half-open finds none out |
| `CircuitBreaker.EarlyCallAfterSuccess` | internal/analyzer/circuit_breaker.go:119-153 | in every run of overlapping callers, a call of the primary within the open duration of an opening follows a success recorded since that opening |
| `CircuitBreaker.OverlapDisturbsRest` | internal/analyzer/circuit_breaker.go:119-153 | for every configuration and two or more callers some run has such a call |
| `CircuitBreaker.AlwaysRestsIff` | internal/analyzer/circuit_breaker.go:119-153 | so the primary rests after every opening of every run iff calls do not overlap |
| `CircuitBreaker.PrimaryRestsAfterOpening` | internal/analyzer/circuit_breaker.go:119-153 | for serial callers the primary is never called within the open duration of any opening |
| `CircuitBreaker.LogIsOfCalls` | internal/analyzer/circuit_breaker.go:119-153 | the times in these results are those at which calls of the primary were checked, and at which failed calls ended |
| `CircuitBreaker.FailingCallsBackOff` | internal/analyzer/circuit_breaker.go:208-234 | if every call fails after opening at `t0`, the k-th further primary call is no earlier than `t0` plus k durations |
| `Cooldown.BaseDetector.ShouldFire` | internal/detector/base.go:113-136 | false iff a recorded fire is more recent than the cooldown |
| `Cooldown.BaseDetector.RecordFire` | internal/detector/base.go:140-151 | remembers the fire of this detector and resource |
| `Cooldown.BaseDetector.Emit` | internal/detector/base.go:157-182 | records a fire iff the cooldown allows it, even when the event then cannot be created |
| `Cooldown.BaseDetector.CleanupExpiredEntries` | internal/detector/base.go:186-198 | keeps exactly the entries no older than twice the cooldown, whatever the map order |
| `Cooldown.CleanupsOnlyForget` | internal/detector/base.go:186-198 | whatever the clock does, cleanups only lose table entries and change no recorded fire |
| `Cooldown.CleanupIsInvisibleIff` | internal/detector/base.go:113-198 | for every interleaving and every clock, cleanups change no `ShouldFire` answer iff no ask carries a time less than a cooldown after an entry they removed |
| `Cooldown.CleanupIsInvisible` | internal/detector/base.go:184-198 | in particular when the sections run in clock order, as they do for serial callers |
| `Cooldown.DelayedCallerSeesCleanup` | internal/detector/base.go:113-121 | an ask whose clock was read before a cleanup it follows passes, and would not without the cleanup |
| `Cooldown.RecordKeepsSpacedIff` | internal/detector/base.go:140-151 | a record keeps the fires apart iff the cooldown is over at its own time |
| `Cooldown.SpacedIff` | internal/detector/base.go:113-161 | for every interleaving and every clock, each fire of a resource is at least a cooldown after the earlier ones iff every record finds the cooldown over at its own time in the run without its cleanups |
| `Cooldown.SpacedIffClearInTime` | internal/detector/base.go:113-198 | in terms of the pruned table: iff every record finds the cooldown over and none carries a time less than a cooldown after a removed entry |
| `Cooldown.SpacedIffAllClear` | internal/detector/base.go:113-198 | when the sections run in clock order: iff every record finds the cooldown over |
| `Cooldown.UndisturbedFiresAreSpacedIff` | internal/detector/base.go:157-161 | callers that ask first, whose own clocks do not go back and whom nobody overtakes for their resource, fire apart iff none records too early for a cleanup; the clocks of different callers are unrelated |
| `Cooldown.FiresAreSpaced` | internal/detector/base.go:157-161 | and so for serial callers of `Emit` and cleanup |
| `Cooldown.OverlappingCallersFireTogether` | internal/detector/base.go:157-161 | two overlapping callers that both ask first and pass fire at the same instant, so the fires are not spaced |
| `Cooldown.DelayedCallerFiresTogether` | internal/detector/base.go:139-151 | a caller delayed between clock and lock, with a cleanup in between: every record finds the cooldown over and the fires are not spaced |
| `FilterEngine.Engine.SetPolicies` | internal/filter/engine.go:232-237 | replaces the list |
| `FilterEngine.Engine.MatchesGlobalNamespace` | internal/filter/engine.go:354-367 | some global pattern matches the namespace |
| `FilterEngine.Engine.MatchesSuppressPolicy` | internal/filter/engine.go:386-418 | the name of the first active suppress policy that applies, or nothing |
| `FilterEngine.Engine.MatchesExcludePolicy` | internal/filter/engine.go:422-459 | the name of the first exclude policy that applies, or nothing |
| `FilterEngine.LookupIsExactIff` | internal/filter/engine.go:386-459 | a lookup reports a match iff some policy applies, exactly when the first applicable policy is not unnamed |
| `FilterEngine.GetOwnerExcludedDetectors` | internal/filter/engine.go:524-537 | the owners' lists joined, without repetitions, in order of first appearance |
| `FilterEngine.SplitCommasInverse` | internal/filter/engine.go:503-520 | joining the parts of an annotation list gives the text back |
| `FilterEngine.SplitCommasComplete` | internal/filter/engine.go:503-520 | no part contains a comma |
| `FilterEngine.ListedDetectors` | internal/filter/engine.go:503-520 | a detector is listed iff it is not empty and some part of the annotation trims to it |
| `FilterEngine.OperatorsByName` | internal/filter/engine.go:576-611 | In and Exists need the key; NotIn and DoesNotExist are their exact complements; any other operator matches nothing |
| `FilterEngine.SelectorIsDocumentedIff` | internal/filter/engine.go:550-573 | the selector matches as its comment says unless a label is wanted empty and missing, exactly |
| `FilterEngine.EmptyLabelMatchesMissing` | internal/filter/engine.go:556-564 | an object without a label matches a selector that wants it empty |
| `FilterEngine.TrueInAnyCase` | internal/filter/engine.go:484-489 | only "true" in any mixture of cases counts |
| `FilterEngine.AnnotationLevels` | internal/filter/engine.go:272-311 | levels 4 to 6 by the annotation names an operator writes |
| `FilterEngine.NamespaceScope` | internal/filter/engine.go:465-473 | without a selector a policy covers its own namespace only; with one it covers what the selector matches, wherever it lives |
| `FilterEngine.DetectorScope` | internal/filter/engine.go:540-547 | an empty detector list means every detector |
| `FilterEngine.OwnerPatterns` | internal/filter/engine.go:614-629 | an owner has to match a well-formed pattern; a malformed one matches nobody |
| `FilterEngine.ScheduleIsClosed` | internal/filter/engine.go:398-403 | a schedule includes both its ends and nothing outside them |
| `FilterEngine.Engine.Evaluate` | internal/filter/engine.go:242-350 | the result is the one of the least of the nine levels that holds, with the detector list for levels 7 and 8 |
| `FilterEngine.DecisionUnique` | internal/filter/engine.go:242-350 | the levels determine the result |
| `FilterEngine.ExcludedIffSomeLevel` | internal/filter/engine.go:242-350 | excluded iff one of the nine levels holds |
| `FilterEngine.EvaluateMeetsPromiseIff` | internal/filter/engine.go:242-350 | the result is the promised one iff no unnamed policy masks another at a level that would decide |
| `FilterEngine.NamedPoliciesMeetPromise` | internal/filter/engine.go:242-350 | with named policies every result is the promised one |
| `FilterEngine.PolicyOrderIrrelevant` | internal/filter/engine.go:386-459 | any permutation of named policies gives the same result |
| `FilterEngine.UnnamedPolicyMasks` | internal/filter/engine.go:386-418 | without names the order can change the result |
| `PolicyWatcher.CrdKeyInjective` | internal/config/crd_watcher.go:207-212 | names without a slash are recovered from a key |
| `PolicyWatcher.Validate` | internal/config/crd_watcher.go:633-666 | no defect iff the action is known, a schedule belongs to a suppress policy and is not empty, and no owner pattern is empty |
| `PolicyWatcher.CRDWatcher.HandlePolicy` | internal/config/crd_watcher.go:629-714 | a valid version goes into force and an invalid one changes nothing; the engine's list stays the one of the history; the Active status is true iff some version of the key is in force |
| `PolicyWatcher.CRDWatcher.OnPolicyDelete` | internal/config/crd_watcher.go:616-627 | the key goes out of force and the engine's list follows |
| `PolicyWatcher.CRDWatcher.RebuildPolicies` | internal/config/crd_watcher.go:745-768 | the engine gets the converted version in force of every live key, in sorted key order, whatever the map order |
| `PolicyWatcher.CRDWatcher.Run` | internal/config/crd_watcher.go:606-680 | the same after any sequence of events |
| `PolicyWatcher.LastValidIsInForce` | internal/config/crd_watcher.go:616-680 | a version is in force iff some event put it there and no later valid version or deletion of the key followed |
| `PolicyWatcher.DeletedStaysOut` | internal/config/crd_watcher.go:616-627 | a deleted key stays out of force until a valid version arrives |
| `PolicyWatcher.SameVersionsSameList` | internal/config/crd_watcher.go:742-768 | histories that leave the same versions in force give the engine the same list |
| `PolicyWatcher.InterleavingIrrelevant` | internal/config/crd_watcher.go:742-768 | the list depends only on the order of events of the same key |
| `PolicyWatcher.ListedIffInForce` | internal/config/crd_watcher.go:771-801 | some listed policy applies iff some version in force, converted, applies |
| `PolicyWatcher.ConvertKeepsMeaning` | internal/config/crd_watcher.go:771-801 | a converted policy suppresses and excludes exactly what the resource says, and keeps its name |
| `PolicyWatcher.HistoryDecides` | internal/filter/engine.go:242-350 | the filter's answer follows from the nine levels and what the policy resources in force say |
| `PolicyWatcher.WatchThenEvaluate` | internal/config/crd_watcher.go:606-801 | the same from start-up, through any events, to an answer about any input |
| `PolicyHandover.StepKeepsInvariant` | internal/config/crd_watcher.go:668-675 | every section of overlapping handlers keeps: each valid version or deletion was brought to the engine at least once or a handler in flight will bring it there |
| `PolicyHandover.EffectiveIffSettles` | internal/config/crd_watcher.go:629-680 | a handler starts a rebuild exactly for the events that settle a key |
| `PolicyHandover.RunKeepsInvariant` | internal/config/crd_watcher.go:616-680 | the same in every interleaving |
| `PolicyHandover.QuietEngineReflectsAllIff` | internal/config/crd_watcher.go:745-768 | once no handler is in flight, the engine reflects every change iff none lies between the list it shows and the newest list it was ever handed, in every run |
| `PolicyHandover.QuietEngineIsCurrentIff` | internal/config/crd_watcher.go:745-768 | and its list is the one of the whole history iff it is the one of that newest hand-over |
| `PolicyHandover.QuietEngineIsCurrent` | internal/config/crd_watcher.go:745-768 | hand-overs that never go back leave a quiet engine with the list of the whole history |
| `PolicyHandover.SerialIsInOrder` | internal/config/crd_watcher.go:745-768 | one event at a time never hands over an older list |
| `PolicyHandover.SerialEngineIsCurrent` | internal/config/crd_watcher.go:745-768 | so its quiet engine is always current |
| `PolicyHandover.OverlapResurrects` | internal/config/crd_watcher.go:745-768 | an interleaving of an update and a deletion that ends with the deleted policy in the engine and nobody left to correct it |
| `JsonPath.SplitJSONPath` | internal/gatherer/custom.go:267-295 | the loop computes the split |
| `JsonPath.SplitRender` | internal/gatherer/custom.go:265-295 | splitting undoes dot-joining escaped segments, for every list of non-empty segments |
| `JsonPath.RenderSplit` | internal/gatherer/custom.go:265-295 | every path splits into non-empty segments, and rendering those gives a path that splits the same way |

## Left out

- Kubernetes clients, informers, listers and leader election: the ConfigMap is a register with versions, and any replica may act as leader at any time.
- Whether informers really stop when a namespace is removed: the bridge starts them on its own channel; only the factory entry's cancel is modelled.
- Callbacks delivered out of order: they run outside the manager's lock, so the index results are for serial application.
- No loss across shutdown: the gathering and sink drains look only at the queue length, so no such claim is made.
- LLM backends, prompts, sinks, redaction, rule analysis and CEL: I/O or regular expressions that are not part of this model.
- Regular expressions, globs, white-space trimming, FNV hashing, UUIDs and JSON encoding: parameters, or assumed to round-trip.
- Hasher.JumpHash: stated for at most 2^32 - 1 buckets, where the source's conversion to int64 is always defined, and for any jump that moves forward; `Hasher.NextJumpBounds` shows the float64 expression is one. A count of zero or less, where the source panics, is excluded.
- ShardManager.Manager.ComputeShardMap: multi-replica mode requires at least one peer, because the source indexes an empty peer list otherwise; the timestamp of the map is dropped.
- Errors of `syncFromConfigMap` on a missing key or malformed data: they are the `Abort` step.
- Correlator.RuleDeterministic: stated for one table of UUIDs, because the source draws them in visiting order; `CorrelationGroups.GroupsDeterministic` is the statement without IDs.
- Correlator.CorrelationDeterministic: likewise for one table of UUIDs.
- UUIDs of super-events: a table by rule and group, where the source draws one per created event in visiting order. Equality of IDs is therefore relative to that table (`CorrelationGroups.GroupsDeterministic` drops it), and draws that fail for different groups in two evaluations are not compared.
- Ticker periods and timeouts: windows and waits end at arbitrary moments; a timed-out wait is one whose answer nobody reads.
- The work queues of the gathering and sink stages: modelled as first in, first out; their deduplication never applies because every item is a fresh pointer.
- A successful analysis report: assumed to carry the bundle it was made from and that bundle's event ID; its own severity and text are dropped.
- The worker loops of `Pipeline` are steps of a transition system, not methods on mutable queues, because they interleave.
- Metadata-only informer factories: they share the cancel function of the entry that is modelled.
- Calendar formatting of window keys: a key is the number of the day or hour since the epoch, which UTC formatting separates in the same way.
- Saturation of `time.Sub` beyond 292 years, and of the integer counters.
- A policy update between levels 3 and 9 of one `Evaluate`, which reads the list once for each: `Evaluate` is modelled on one list.
- Case folding in `isAnnotationTrue`: ASCII only, which is all that folds to the letters of "true".
- Config defaults, registries, deep copies, health handler and metrics: easy members only.
