# Verified model of the reactive pipeline

A Dafny model of RIManager, the printer firmware library whose main tree is `core/`, and proofs
about it. The library takes raw device values, keeps them in partitioned stores, derives
capabilities from data and facades from capabilities, and publishes what changed.

What the files cover, in the order of their dependencies:

- `Values`, `Bits`, `BinaryHash`: tagged values, bitwise operators on naturals, 64-bit FNV-1a
  (section 2 of draft-eastlake-fnv).
- `Queues`, `PublisherQueue`, `Histories`, `Compression`: the four insertion policies, the event
  queue, and which events wait in each kind of queue after any history.
- `Product`, `Rules`, `Storage`, `Context`, `Partitioning`: definitions and validation, partitions
  with binary buffers in step, hash indexes and domain numbers, and when the partitions of the three
  kinds of value are disjoint.
- `Snapshots`, `SnapshotAgreement`, `Evaluation`, `Workers`: snapshots, evaluation and the two
  workers, as loops and methods on shared objects, proved equal to functions on values.
- `Derivation`, `Pipeline`, `Consistency`, `Publication`, `Convergence`: the pipeline as a state
  machine over whole turns of the workers, with any number of routes: consistency in every
  reachable state, no lost publication, independence of queue policies and schedules.
- `Settling`, `Announcements`, `GlitchExample`, `Folding`: what a turn does not do, what exactly it
  publishes and in which order, and what arbitrary store callbacks add up to.
- `Interleaving`, `OneRoute`, `OneRouteSteps`, `OneRouteWork`, `FinePublication`, `FineConvergence`: the
  same pipeline in single steps: consistency in every interleaving under the one-route condition, no
  lost publication, and where interleavings end.
- `Grain`, `Schedules`, `RouteRace`, `FacadeRace`, `RaceExample`: every run of whole turns is a run of
  single steps, and the races that values with inputs on two routes run into.
- `Routing`, `Execution`, `SteppedRuns`, `StopOrder`: queues per route, the dispatcher, executors,
  and starting and stopping threads.
- `RateLimiter`, `Subscriptions`, `Delivery`, `FanOut`, `Periodic`, `Publishing`, `Unrouted`,
  `Served`: the publisher, which route serves a value, and what becomes of values without one.
- `PrinterA`, `PrinterAReadiness`, `PrinterAReadings`: the shipped product, which meets every
  assumption made above, and what its facades say of the readings as they were dispatched.
- `SnapshotRing`, `IncludeClosure`: the earlier sixteen-slot snapshot ring, and the include closure
  of the audit tool.

A product definition is an arbitrary record whose normalise, store, build and diff entries are
functions. The assumptions named in the results are: the product passes validation (`Valid`), its
partitions are disjoint (`Separated`), no data item uses the id that the capability worker ignores
(`UsesValidIds`), a capability's builder looks only at what it declares (`Framed`), and diffs hide no
change (`ExactDiffs`, `StoresWhatItGets`), as the identity diff and the identity store do.

## Findings

- Validation compares domain names by address and every other name by its characters, because the
  name of a domain is a `const char*`. Two items may therefore point at two copies of one domain
  definition and pass; they then get two numbers, and a capability can share a partition with data
  (`Partitioning.CopiedDomainCollides`; `Partitioning.SeparatedExactly` is the exact condition).
- Stopping a route loses no stored change as long as Stop is not begun while Start is under way and
  no Start follows it (`StopOrder.NothingIsLost`). It can lose one when the two overlap
  (`StopOrder.OverlapLosesAChange`), and also when Start, Stop and Start follow each other: a queue
  once shut down is never opened again, so the restarted store worker stores what was left waiting
  and its push is refused (`StopOrder.RestartLosesAChange`). `StopOrder.RefusedExactly` says exactly
  when a push is refused.
- A capability with inputs on two routes can be left stale: its snapshot, its evaluation and its write
  are separate steps, so an older value can be written after a newer one
  (`RouteRace.TwoRoutesGoStale`). So can a facade whose capabilities live on two routes
  (`FacadeRace.FacadeGoesStale`). With all inputs on one route, as in PrinterA, neither can
  (`OneRouteWork.CalmHoldsBatch`), and even with two routes no change goes unannounced
  (`FinePublication.NoStepLosesAPublication`).
- A facade over two capabilities that one item feeds is evaluated between the two: within one turn it
  can take an in-between value, which is stored and announced, and return to the value it had
  (`GlitchExample.FacadeFlickers`). If the item feeds only one of its capabilities, as in PrinterA,
  it is announced exactly if it changed (`Announcements.TurnAnnouncesChangedFacade`).
- The identity diff calls every struct, array and object different from itself, so an item of these
  types is stored and pushed again by every dispatch (`Settling.WritesExactly`).
- `ExecuteOnce` answers false for an item that was popped and found unchanged, so its answer does not
  say whether more items wait (`SteppedRuns.AnswersWhetherChanged`).
- A periodic pass notifies every periodic mailbox on a target once per due timer on that target, so k
  subscribers with due timers get k messages each (`Publishing.PassPushesPerDueTimer`).
- Route ids are not checked for duplicates; the first route with an id serves it
  (`Unrouted.RouteIdsAreUnchecked`). A capability's or facade's route is not checked at all
  (`Unrouted.DerivedRoutesAreUnchecked`); without one, its events are not compressed and its changes
  never pass the rate limiter (`Unrouted.UnroutedNeverPasses`, `Unrouted.PassesExactlyIfRouted`).
- In `AdapterDispatcher::Dispatch` the assignment of `setValueType` is overwritten by the next
  statement, and the answer of the push is ignored (`Execution.AdapterDispatcher.Dispatch`).
- All events of the capability worker have the lowest priority, as the priority is never set, so the
  priority queue orders nothing (`FinePublication.AlwaysLow`, `FinePublication.LowGoesLast`).

## Model

| member | source | states |
|---|---|---|
| BinaryHash.CalculateBinaryHash | core/common/include/BinaryHash.hpp:9-30 | The loop computes the 64-bit FNV-1a hash of the bytes, and the result fits 64 bits |
| BinaryHash.TimesPrimeInjective | core/common/include/BinaryHash.hpp:27 | Multiplying by the prime modulo 2^64 never maps two 64-bit numbers to one |
| BinaryHash.StepInjective | core/common/include/BinaryHash.hpp:26-27 | One round is injective in the running hash and, for a fixed hash, in the byte |
| BinaryHash.SuffixInjective | core/common/include/BinaryHash.hpp:22-28 | Reading the same bytes never lets two different running hashes meet |
| BinaryHash.OneByteChangesHash | core/common/include/BinaryHash.hpp:13-30 | Two buffers of equal length that differ in exactly one byte always hash differently |
| BinaryHash.CommonSuffixIrrelevant | core/common/include/BinaryHash.hpp:22-30 | Appending the same bytes to two buffers neither makes nor hides a collision |
| BinaryHash.ListedHashes | core/common/include/BinaryHash.hpp:9-30 | No bytes and the letter a hash to the values that the draft lists for 64-bit FNV-1a |
| Queues.FirstIndex | core/common/include/QueuePolicy.hpp:31-43 | The scan stops at the first event that satisfies the test, or at the end |
| Queues.EventQueue.Push | core/common/include/EventQueue.hpp:31-60 | Refused exactly when shut down, otherwise the queue becomes what its policy makes of the event |
| Queues.EventQueue.Insert | core/common/include/QueuePolicy.hpp:17-128 | Erasing and inserting in place has the effect of the policy's insertion, for all four policies |
| Queues.EventQueue.EraseFirst | core/common/include/QueuePolicy.hpp:31-43 | Removes the first event that satisfies the test and no other, and reports whether there was one |
| Queues.EventQueue.InsertByPriority | core/common/include/QueuePolicy.hpp:54-64 | The event goes in front of the first event of lower priority |
| Queues.EventQueue.Position | core/common/include/QueuePolicy.hpp:54-62 | The scanning loop finds the first event that satisfies a test |
| Queues.EventQueue.TryPop | core/common/include/EventQueue.hpp:62-83 | Takes the front event, or reports an empty queue and changes nothing |
| Queues.EventQueue.WaitAndPop | core/common/include/EventQueue.hpp:85-115 | Once its wait has ended: the front event, or nothing exactly when the queue is empty, which only happens after shutdown |
| PublisherQueue.StampsAreInvisible | core/common/include/QueuePolicy.hpp:73-128 | Marking events with their position in the history changes nothing about the queue, so statements about marked events are statements about the queue |
| PublisherQueue.AlwaysOrdered | core/common/include/QueuePolicy.hpp:49-71 | After every history of insertions and pops the compressing queue is in non-increasing priority and, within a priority, in order of insertion |
| PublisherQueue.InsertLosesNoTarget | core/common/include/QueuePolicy.hpp:73-128 | Whatever KeepOldest or KeepLatest discard, the set of queued targets becomes the old set and the new target |
| PublisherQueue.CompressedTargetQueuedOnce | core/common/include/QueuePolicy.hpp:80-114 | A target whose insertions all ask for compression is queued at most once after any history, however the two policies are mixed and whatever other targets ask for |
| PublisherQueue.UncompressedConserves | core/common/include/QueuePolicy.hpp:116-126 | Without compression, what was inserted is exactly what was popped together with what still waits |
| PublisherQueue.UncompressedPopsOldestOfHighest | core/common/include/QueuePolicy.hpp:116-126 | Without compression, the next pop is the oldest of the events of highest priority among all inserted and not yet popped |
| Histories.PositionsAreInvisible | core/common/include/QueuePolicy.hpp:17-47 | Marking events with their position in the history changes nothing about a buffered or coalescing queue |
| Histories.WaitsExactly | core/common/include/QueuePolicy.hpp:17-47 | After any history of insertions and pops an event waits exactly if it was not taken and, in a coalescing queue, no later event came under its key; what waits stands in the order of insertion |
| Histories.KeysDiffer | core/common/include/QueuePolicy.hpp:26-47 | A coalescing queue holds each key at most once |
| Histories.StoreQueueHolds | core/common/src/RouteProvider.cpp:10-64 | In the store queue of a route an item waits exactly until it is taken or, only if the route coalesces, until a later item of its id replaces it |
| Histories.CapabilityQueueHolds | core/common/src/RouteProvider.cpp:10-64 | The same of the ids in its capability queue |
| Compression.KeepLatestKeepsLast | core/common/include/QueuePolicy.hpp:96-114 | If every announcement of a target asks for KeepLatest, what waits for it after any history is the last one inserted |
| Compression.KeepOldestKeepsFirst | core/common/include/QueuePolicy.hpp:80-95 | If every announcement of a target asks for KeepOldest, what waits for it after any history is the one with which its wait began |
| Product.FindWith | products/common/ProductDefinition.cpp:45-61 | A linear search fails exactly when no entry has the key, and otherwise returns an entry with the key |
| Product.Search | products/common/ProductDefinition.cpp:45-61 | The search loop returns the first entry with the key |
| Product.HasDuplicate | products/common/ProductDefinition.cpp:12-38 | True exactly when two entries share a key |
| Product.DomainsKnown | products/common/ProductDefinition.cpp:222-240 | True exactly when every data item has a domain and a product domain has that domain's name |
| Product.RoutesKnown | products/common/ProductDefinition.cpp:291-302 | True exactly when the route of every data item exists |
| Product.RequiredDefined | products/common/ProductDefinition.cpp:333-354 | True exactly when every required id is defined |
| Product.ValidateProductDefinition | products/common/ProductDefinition.cpp:205-410 | Returns true exactly when all twelve rules hold |
| Rules.ValidExactly | products/common/ProductDefinition.cpp:205-410 | A product is valid exactly if the twelve rules hold as they read: names, ids and addresses differ pairwise, and every route, domain, data item and capability referred to is defined |
| Storage.PartitionStorage.Store | core/storage/include/PartitionStorage.hpp:24-66 | Storing changes one item's value, and keeps the invariant that binary buffers exist for exactly the binary items, with equal bytes and their FNV-1a hash |
| Storage.PartitionStorage.Find | core/storage/include/PartitionStorage.hpp:68-88 | Finds exactly what is stored under the id |
| Storage.PartitionStorage.GetAll | core/storage/include/PartitionStorage.hpp:90-111 | Lists each stored item once, in some order, and nothing else |
| Storage.PartitionStorage.GetBinaryInfo | core/storage/include/PartitionStorage.hpp:135-161 | Succeeds exactly for binary items, with their bytes, size and FNV-1a hash |
| Storage.PartitionStorageRegistry.GetOrCreate | core/storage/include/PartitionStorageRegistry.hpp:20-38 | Returns the one partition of the domain, making an empty one the first time, and changes no stored value |
| Storage.PartitionStorageRegistry.Find | core/storage/include/PartitionStorageRegistry.hpp:40-57 | Null exactly when no partition was made for the domain |
| Storage.PartitionStorageRegistry.StoreIn | core/store/src/DataStoreWorker.cpp:201-205 | Storing through a domain's partition changes one value of one domain, and no two domains share a partition object |
| Storage.FindAfterPut | core/storage/include/PartitionStorageRegistry.hpp:20-57 | After a put, only the one id of the one domain reads differently |
| Context.NumberedIsModulo | core/common/src/ProductContext.cpp:67-80 | Numbers given out by a 32-bit counter are their position modulo 2^32 |
| Context.DataDomainMap.NumberItems | core/storage/src/DataDomainMap.cpp:13-55 | Each data item gets the position, counted from one, at which its domain pointer first appears among the items |
| Context.CapabilityRequiredDomainMap.constructor | core/storage/src/CapabilityRequiredDomainMap.cpp:12-53 | Each capability gets the domains of its required data, in order and without repetition |
| Context.DependencyMap.constructor | core/capability/src/CapabilityDependencyMap.cpp:8-29 | The inverted index lists under each id, in order, the definitions that require it; the facade index is the same loop |
| Context.DependentsMembers | core/capability/src/CapabilityDependencyMap.cpp:31-48 | The inverted index holds a definition under an id exactly when the definition requires the id |
| Context.DependentsCount | core/capability/src/CapabilityDependencyMap.cpp:11-28 | The inverted index lists a definition under an id as often as the definition requires it |
| Context.DependentsInOrder | core/capability/src/CapabilityDependencyMap.cpp:11-28 | The inverted index lists definitions in the order of the product |
| Context.IndexById | core/common/src/ProductContext.cpp:36-58 | The hash index finds under each id the first entry with it, as the linear search does |
| Context.NumberById | core/common/src/ProductContext.cpp:71-80 | Derived items are numbered one after the other from the given number on, the first of a repeated id keeping its number, with 32-bit wrap-around |
| Context.NumberAll | core/common/src/ProductContext.cpp:67-102 | Capabilities are numbered after the domains and facades after the capabilities |
| Context.ProductContext.constructor | core/common/src/ProductContext.cpp:26-103 | Every index of the context agrees with the definition: lookups with the linear first-match searches, domain numbers with their definition, inverted indexes with the required lists |
| Context.ProductContext.FindDomainId | core/common/src/ProductContext.cpp:148-184 | The number of the partition that holds a target's value |
| Context.ProductContext.ResolveRoute | core/common/src/ProductContext.cpp:267-312 | The route of a data item, capability or facade found by linear search, or none |
| Partitioning.SeparatedExactly | core/common/src/ProductContext.cpp:67-102 | For a valid product whose counts fit 32 bits, the partitions of data, capabilities and facades are disjoint and valid exactly when there are no more distinct data domain pointers than product domains, or nothing derived |
| Partitioning.ManyDomainsCollide | core/storage/src/DataDomainMap.cpp:37-52 | With one data domain pointer too many, a data item and a derived value are given the same partition number |
| Partitioning.SharedExactly | core/storage/src/DataDomainMap.cpp:16-54 | Two data items share a partition exactly if they point at the same domain definition |
| Partitioning.NumberOf | core/common/src/ProductContext.cpp:67-102 | Data numbers lie between 1 and the number of data domains; the i-th capability has the number of domains plus i plus 1, and facades follow |
| Partitioning.NamedDomainsAreSeparated | core/storage/src/DataDomainMap.cpp:16-54 | If different domain pointers have different names, validation and 32-bit counts suffice (pigeonhole): data domain numbers lie in 1 to the domain count, and the three kinds are disjoint and injective |
| Partitioning.GetAfterSet | core/common/src/ProductContext.cpp:67-102 | Storing one target's value changes no other target's, even when the numeric ids coincide |
| Partitioning.CopiedDomainCollides | core/storage/src/DataDomainMap.cpp:30-45 | Counterexample: a product that passes validation, in which two items point at two copies of one domain definition and storing a capability overwrites a data item |
| Snapshots.FindInSnapshot | core/storage/snapshot/include/RIMSnapshot.hpp:24-38 | Returns the value of the first item with the id |
| Snapshots.BuildSnapshot | core/storage/snapshot/src/SnapshotBuilder.cpp:16-42 | The snapshot is a concatenation of listings of the given partitions, in the given order, skipping those that were never made |
| Snapshots.CreateFacadeSnapshot | core/capability/include/FacadeSnapshotProvider.hpp:30-104 | The facade snapshot lists the stored values of the required capabilities in order, and is empty for an unknown facade |
| Snapshots.InputSnapshotView | core/capability/include/FacadeSnapshotProvider.hpp:63-103 | Such a list finds under each required id exactly what is stored, and nothing under any other id |
| SnapshotAgreement.CoverIsCover | core/storage/src/CapabilityRequiredDomainMap.cpp:28-51 | The de-duplicated domain list holds the domain of every required item, no other domain, and none twice |
| SnapshotAgreement.CoverSnapshotAgrees | core/storage/snapshot/src/SnapshotBuilder.cpp:16-42 | A snapshot over such a list holds each item once and finds each required id exactly as its own partition does |
| SnapshotAgreement.CapabilitySnapshotAgrees | core/storage/src/CapabilityRequiredDomainMap.cpp:18-52 | The same for the domains that the context computes for a capability |
| Snapshots.FramedBuild | core/capability/src/CapabilityWorker.cpp:123-124 | A capability built from the snapshot of whole partitions has the value built from its declared inputs alone |
| Evaluation.FastPathIsExact | core/store/src/DataStoreWorker.cpp:129-199 | With the identity diff, the cascade of size, hash and diff decides changed exactly as the diff alone |
| Evaluation.FastPathExactly | core/store/src/DataStoreWorker.cpp:129-199 | For any diff, the cascade agrees with it on all values exactly when the diff reports all binaries that differ in size or hash |
| Values.Retag | core/store/src/DataStoreWorker.cpp:126-127 | The stored value carries the store type of its definition, and a value that carries it already keeps its payload |
| Workers.Evaluate | core/capability/src/CapabilityManager.cpp:9-70 | Stores and reports a change exactly when the value is new or the diff says so, and otherwise changes nothing; facades take the same steps; Settling.RenewedDiffers and Settling.CurrentIsNotRenewed say what that verdict means for the stored value |
| Settling.IdentityDiffExactly | products/common/CommonDiffFunctions.hpp:10-58 | The identity diff reports exactly the values that differ, and every struct, array and object |
| Settling.RenewedDiffers | core/capability/src/CapabilityManager.cpp:44-69 | If the diff never reports what a builder builds as different from itself, an evaluation that reports a change leaves another value than it found |
| Settling.CurrentIsNotRenewed | core/capability/src/CapabilityManager.cpp:44-69 | With such a diff, a value that is up to date is neither stored nor reported again |
| Workers.DataStoreWorker.Process | core/store/src/DataStoreWorker.cpp:73-214 | The store and the capability queue afterwards: the item's value is written and its id pushed exactly when the item is defined, has a partition, and is new, undiffed or changed |
| Settling.WritesExactly | core/store/src/DataStoreWorker.cpp:120-199 | An item stored as it comes and compared by the identity diff is written exactly when another value is stored, or none, or the value is a struct, array or object |
| Settling.SameValueIsOnlyPopped | core/store/src/DataStoreWorker.cpp:73-214 | Dispatched again, the stored value is popped and changes neither the store nor any capability queue |
| Workers.DataStoreWorker.HasChanged | core/store/src/DataStoreWorker.cpp:132-193 | The nested comparison of kept size and hash with those of the new bytes decides as the cascade on the values does |
| Workers.DataStoreWorker.ExecuteOnce | core/store/src/DataStoreWorker.cpp:59-71 | One turn of the store worker, or nothing when its queue is empty |
| Workers.CapabilityWorker.Process | core/capability/src/CapabilityWorker.cpp:90-176 | The loops over two inverted indexes, with snapshots, evaluation, storing and publishing, leave the store and the publisher queue that the specification of the turn says; the invalid id does nothing |
| Settling.SecondTurnOnlyTells | core/capability/src/CapabilityWorker.cpp:90-176 | A turn settles: whatever was stored before, the same id processed again from an emptied publisher queue changes no stored value and announces the data item and nothing else |
| Announcements.TurnAnnouncesOneItem | core/capability/src/CapabilityWorker.cpp:101-115 | Of the data, a turn announces the item that it was told about and no other |
| Announcements.TurnAnnouncesChangedCapabilities | core/capability/src/CapabilityWorker.cpp:117-146 | If diffs tell values apart exactly when they differ, a turn announces exactly the capabilities whose stored value it changed |
| Announcements.TurnAnnouncesFacadesForACause | core/capability/src/CapabilityWorker.cpp:148-176 | It announces no facade without having changed a capability that the facade requires |
| Announcements.TurnAnnouncesChangedFacade | core/capability/src/CapabilityWorker.cpp:148-176 | If the item feeds at most one capability of a facade, a turn announces the facade exactly if it changed its stored value |
| Announcements.TurnAnnouncesInOrder | core/capability/src/CapabilityWorker.cpp:101-176 | From an emptied queue a turn announces the item first, and every facade after a capability that it requires, whatever the routes compress |
| GlitchExample.FacadeFlickers | core/capability/src/CapabilityWorker.cpp:117-176 | Counterexample: with two capabilities fed by one item, their facade is announced by a turn that leaves it with the value it had |
| Workers.CapabilityWorker.PublishCapabilityChanges | core/capability/src/CapabilityWorker.cpp:117-146 | Every capability that depends on the data item is evaluated in order, and the facades of those that changed |
| Workers.CapabilityWorker.PublishFacadeChanges | core/capability/src/CapabilityWorker.cpp:148-176 | Every facade that depends on the capability is evaluated in order and published if it changed |
| Workers.CapabilityWorker.CapabilitySnapshot | core/capability/include/CapabilitySnapshotProvider.hpp:25-34 | The capability built from its snapshot has the value implied by what is stored |
| Workers.CapabilityWorker.ExecuteOnce | core/capability/src/CapabilityWorker.cpp:76-88 | One turn of the capability worker, or nothing when its queue is empty |
| Derivation.EvaluatedEffect | core/capability/src/CapabilityManager.cpp:44-69 | An evaluation changes no other target, and leaves its own up to date as its diff sees it |
| Derivation.AfterFacadesEffect | core/capability/src/CapabilityWorker.cpp:150-175 | A round over facades leaves every facade in it up to date and disturbs no other value |
| Derivation.AfterCapabilitiesEffect | core/capability/src/CapabilityWorker.cpp:119-145 | A round over capabilities leaves every capability in it up to date, and no facade out of date |
| Pipeline.InsertedWaits | core/common/include/QueuePolicy.hpp:17-47 | A buffered and a coalescing capability queue both keep every waiting id and add the new one |
| Consistency.AlwaysConsistent | core/capability/src/CapabilityWorker.cpp:90-176 | In every reachable state of the pipeline, with any number of routes and any schedule: each capability with a stored input is up to date or has a required id waiting in a capability queue, each facade with a stored capability is up to date, and nothing waits or is derived without stored data |
| Consistency.QuietHoldsBatch | core/capability/src/CapabilityWorker.cpp:90-176 | Whenever the capability queues are empty, the stored capabilities and facades equal a batch recomputation from the data |
| Consistency.BatchReadsDataOnly | core/capability/src/CapabilityWorker.cpp:117-176 | The batch recomputation is a function of the data alone |
| Consistency.IdentityDiffIsExact | products/common/CommonDiffFunctions.hpp:10-58 | The identity diff never calls two different values the same, which the batch results ask of a product's diffs |
| Publication.ProcessedAnnounces | core/capability/src/CapabilityWorker.cpp:101-176 | One turn of the capability worker queues the target of everything it changes, and that of the data item |
| Publication.NoLostPublication | core/capability/src/CapabilityWorker.cpp:101-176 | Between any two moments with the publisher queue open, a target whose stored value changed and that was not popped meanwhile is queued for publication, or its data id waits in a capability queue, whatever compression discarded |
| Publication.ShutQueueOnlyEmpties | core/common/include/EventQueue.hpp:31-60 | Once the publisher queue is shut down, what it holds at any later moment is what is left of what it held |
| Convergence.DrainedHoldsLastAccepted | core/store/src/DataStoreWorker.cpp:120-214 | Once the store queues are empty, each data item holds its last accepted value, whatever the policies and the schedule |
| Folding.DrainedHoldsFold | core/store/src/DataStoreWorker.cpp:110-214 | For any store callback, an item of a buffered route holds, when its store queue has drained, the fold of the callback over all accepted normalised values in their order, starting from a zeroed value |
| Convergence.PoliciesDoNotMatter | core/common/include/QueuePolicy.hpp:17-47 | Two drained pipelines that differ in routes, queue policies and schedule and accepted the same last values hold the same data, capabilities and facades: coalescing refines first-in first-out |
| OneRouteSteps.StoreStepKeeps | core/store/src/DataStoreWorker.cpp:73-214 | Each single step of a store worker (pop, decide, write, push) keeps the invariant of its route |
| OneRouteWork.WorkStepKeeps | core/capability/src/CapabilityWorker.cpp:90-176 | Each single step of a capability worker (pop, tell, take next, read one partition, decide, write, publish) keeps the invariant of its route |
| OneRoute.LocalOkElsewhere | core/storage/snapshot/src/SnapshotBuilder.cpp:22-39 | Steps of one route's workers leave the invariant of every other route alone |
| OneRouteWork.AlwaysOk | core/capability/src/CapabilityWorker.cpp:117-176 | If all data under a capability and all capabilities under a facade belong to one route, then in every interleaving of single steps each derived value with an input is up to date, in its worker's hands, or has an input that is due |
| OneRouteWork.CalmHoldsBatch | core/capability/src/CapabilityWorker.cpp:117-176 | Under that condition, in every interleaving, empty capability queues and idle workers mean that the derived values equal the batch recomputation |
| RouteRace.TwoRoutesGoStale | core/capability/src/CapabilityWorker.cpp:123-146 | The condition cannot be dropped: for every product in which a capability requires items of two routes and its builder notices the second, some interleaving ends with all queues empty, all workers idle and the capability stale; if the capability lists the first item more than once, its diff has to tell the two values apart |
| FacadeRace.FacadeGoesStale | core/capability/src/CapabilityWorker.cpp:148-176 | Nor can its second half: for every product in which two items of different routes feed one capability each and these feed one facade, whose builder notices the second, some interleaving ends at rest with the facade stale |
| RaceExample.StaysAtZero | core/capability/src/CapabilityWorker.cpp:123-146 | Counterexample: a valid product of two items on two routes and one capability, and an interleaving that ends at rest with the capability at 0 although the data say 5 |
| RaceExample.FacadeStaysAtZero | core/capability/src/CapabilityWorker.cpp:148-176 | Counterexample: a valid product whose two capabilities have one input each, and an interleaving that ends at rest with their facade at 0 although its second capability says 5 |
| FinePublication.NoStepLosesAPublication | core/capability/src/CapabilityWorker.cpp:90-176 | In every interleaving of single steps, with any routes: between any two moments, a target whose stored value changed and that was not popped meanwhile is queued for publication, or a worker is about to announce it, or its data id is on its way to the capability worker |
| FinePublication.AlwaysLow | core/capability/src/CapabilityWorker.cpp:103-114 | In every interleaving, every event in the publisher queue has the lowest priority |
| FinePublication.LowGoesLast | core/common/include/QueuePolicy.hpp:49-128 | On such a queue the new event goes to the end, unless KeepOldest drops it, and KeepLatest first removes the old event of its target: priority decides nothing |
| FineConvergence.LatestIsLastArrived | core/store/src/DataStoreWorker.cpp:73-214 | In every interleaving of single steps, at every moment, an item's last accepted value is the last one in its store queue, in the hands of its store worker, or stored |
| FineConvergence.InterleavingsDoNotMatter | core/common/include/QueuePolicy.hpp:17-47 | Two interleavings on one-route products that differ in routes, queue policies and order of steps and accepted the same last values hold the same data, capabilities and facades at rest |
| FineConvergence.StepsEndWhereTurnsEnd | core/capability/src/CapabilityWorker.cpp:61-176 | Under the one-route condition, single steps in any order end with the values that whole turns in any order end with, if both accepted the same last values |
| Schedules.TurnsAreInterleavings | core/capability/src/CapabilityWorker.cpp:61-99 | While the publisher queue is open, every run of whole turns, on any valid product with any routes, is a run of single steps with the same arrivals, the same store, queues and publications, and all workers at rest |
| Grain.ReadShows | core/storage/snapshot/src/SnapshotBuilder.cpp:22-39 | The list that a half-read snapshot is, and the map that stands for it, show the same values after every read |
| Grain.ListAndMapBuildAlike | core/storage/snapshot/src/SnapshotBuilder.cpp:16-42 | However the store changed while a snapshot was read, a framed builder makes the same value from the list as from the map |
| Grain.StoreTurnAloneIsTurn | core/store/src/DataStoreWorker.cpp:44-71 | A store worker that nobody interrupts does in two or four single steps what its whole turn does |
| Grain.TurnAloneIsProcessed | core/capability/src/CapabilityWorker.cpp:90-176 | A capability worker that was told of a change and that nobody interrupts ends its single steps with the store and publications of the whole turn, as long as the publisher queue is open |
| Routing.RouteProvider.Initialize | core/common/src/RouteProvider.cpp:10-64 | Afterwards each route name has its own pair of new queues with the policies of its first route, each data id leads to those of its route, and the assertions hold; known routes are all that is asked |
| Routing.NameOfRoute | core/common/src/RouteProvider.cpp:48-54 | The route of a data item is found and its name has queues, so neither assertion can fail |
| Execution.AdapterDispatcher.Dispatch | core/adapter/src/AdapterDispatcher.cpp:11-56 | Exactly one queue may change, and changes by the normalised item under its policy unless shut down; the answer is true exactly when the item is defined, of its raw type and routed |
| Execution.FoundQueues | core/common/src/RouteProvider.cpp:66-75 | The routing table answers for exactly the defined data ids, with the queues of their route |
| Execution.DispatchedExactly | core/adapter/src/AdapterDispatcher.cpp:14-50 | A validated product dispatches exactly the items it defines, with values of their raw type |
| Execution.QueuesNormalized | core/adapter/src/AdapterDispatcher.cpp:14-50 | What a validated product queues is the dispatched value normalised by the one definition with its id, and nothing if the value is not of the raw type |
| Execution.RouteExecutor.ExecuteOnce | core/common/src/RouteExecutor.cpp:77-101 | The call does a turn of the store worker and, if there was one, a turn of the capability worker, as the state machine of the pipeline says, and answers whether both had work |
| SteppedRuns.CalledIsRun | core/common/src/RouteExecutor.cpp:77-101 | Every sequence of calls is a run of the pipeline, and leaves every capability queue empty after each call |
| SteppedRuns.SteppedRunsHoldBatch | core/common/src/RouteExecutor.cpp:77-101 | Driven by ExecuteOnce, the store holds the batch recomputation of its data after every single call |
| SteppedRuns.AnswersWhetherChanged | core/common/src/RouteExecutor.cpp:77-101 | ExecuteOnce answers whether the head item changed the store, and so answers false for an unchanged item even if more wait |
| SteppedRuns.IdleCallsDoNothing | core/common/src/RouteExecutor.cpp:77-101 | With no item waiting for the store worker, no number of calls changes anything, whatever waits for the capability worker |
| SteppedRuns.CallsDrain | core/common/src/RouteExecutor.cpp:77-101 | As many calls as items wait drain the route, whatever they answer |
| StopOrder.AlwaysFine | core/common/src/RouteExecutor.cpp:48-75 | In every interleaving of Start, called any number of times, Stop, both threads and dispatching callers: flags and shutdowns follow from where the calls stand, joined threads work on nothing, and every stored change was processed, waits, is about to be pushed, or was refused |
| StopOrder.AtMostOneMore | core/store/src/DataStoreWorker.cpp:44-57 | In every interleaving each worker takes at most one item after its running flag was cleared |
| StopOrder.RefusedExactly | core/common/src/RouteExecutor.cpp:48-75 | The push of a stored change is refused exactly when the capability queue is shut, and at that moment it is shut exactly when Stop has got that far and had passed over the store worker because its flag was not yet set, or Start set that flag again after Stop had cleared it |
| StopOrder.NothingIsLost | core/common/src/RouteExecutor.cpp:48-75 | When Stop is not begun while Start is under way and no step of Start is taken after it, no push is refused, and once Stop has returned every stored change was processed or is still queued |
| StopOrder.StopReturns | core/common/src/RouteExecutor.cpp:60-75 | Once Start has returned and is not called again, Stop cannot hang: one step of a known party always brings its return nearer, and no step of anyone puts it off |
| StopOrder.OverlapLosesAChange | core/common/src/RouteExecutor.cpp:48-75 | Counterexample: with Start and Stop overlapping, a change is stored and its push refused after Stop has returned, for every product, route and item that changes an empty store |
| StopOrder.RestartLosesAChange | core/store/src/DataStoreWorker.cpp:15-42 | Counterexample: without any overlap, after Start, a dispatch, Stop and Start again, the item left waiting is stored and its push refused, for every product, route and item that changes an empty store |
| RateLimiter.KeyInjective | core/common/include/NotificationTargetKey.hpp:10-18 | The shifted key fits 64 bits and is the same for two targets only if type and id are |
| RateLimiter.NotificationRateLimiter.ShouldNotify | core/publisher/include/NotificationRateLimiter.hpp:16-52 | Granted exactly when the target has no earlier grant or the last is at least the interval ago; only a grant is remembered |
| RateLimiter.SuppressedExactly | core/publisher/include/NotificationRateLimiter.hpp:30-43 | With a clock that never goes back, a request is suppressed exactly when one for the same type and id was granted less than its interval ago |
| RateLimiter.RateBound | core/publisher/include/NotificationRateLimiter.hpp:16-52 | With such a clock, n grants to one target within a span of time need n - 1 intervals |
| Publishing.ChangesAreSpread | core/publisher/src/PublishManager.cpp:30-65 | Over any run of published changes, those of one target that are let through are spread over the interval of the target's route |
| Served.ServedExactly | core/common/src/ProductContext.cpp:267-312 | A data item, capability or facade is served by the first route with the id that its definition names, and by none if there is no such route or definition |
| Served.NotifiedExactly | core/publisher/src/PublishManager.cpp:30-65 | Changes of a value can be notified exactly if its definition names the id of some route |
| Served.CompressedAsServed | core/capability/src/CapabilityWorker.cpp:103-114 | The first route with the named id decides how announcements of a value are compressed; without one they are not |
| Served.SpreadAsServed | core/publisher/src/PublishManager.cpp:30-65 | The changes of a value that are let through are spread over the milliseconds that its route asks for, on a clock of nanoseconds |
| Subscriptions.SubscriptionStore.Subscribe | core/publisher/src/SubscriptionStore.cpp:6-26 | Ids are given out in order from one on and registered in order |
| Subscriptions.SubscriptionStore.Find | core/publisher/src/SubscriptionStore.cpp:28-47 | Returns the first subscription with the id |
| Subscriptions.SubscriptionStore.GetSubscriptions | core/publisher/src/SubscriptionStore.cpp:49-82 | Returns the subscriptions with the type, id and trigger, in the order of registration |
| Subscriptions.ConcernedExactly | core/publisher/src/SubscriptionStore.cpp:61-81 | The search returns each subscription with this very target and trigger as often as it is registered, and no other |
| Subscriptions.ConcernedInOrder | core/publisher/src/SubscriptionStore.cpp:49-82 | It returns them in the order of their ids, until the counter has wrapped around |
| Subscriptions.FoundIsFirst | core/publisher/src/SubscriptionStore.cpp:28-47 | The subscription found for an id is the first one registered with it |
| Subscriptions.UniqueUntilWrap | core/publisher/src/SubscriptionStore.cpp:6-15 | Ids are unique exactly until the 64-bit counter has wrapped around |
| Delivery.SubscriberMailbox.Push | core/publisher/include/SubscriberMailbox.hpp:21-44 | A full mailbox refuses and counts, otherwise the message is appended |
| Delivery.SubscriberMailbox.Pop | core/publisher/include/SubscriberMailbox.hpp:46-65 | Takes the oldest message, or reports an empty mailbox |
| Delivery.SubscriberMailbox.Count | core/publisher/include/SubscriberMailbox.hpp:67-77 | The number of waiting messages, which never exceeds the capacity, cast to 32 bits; the cast loses nothing while the capacity fits 32 bits |
| Delivery.SubscriberMailboxManager.GetMailbox | core/publisher/src/SubscriberMailboxManager.cpp:6-16 | The one mailbox of the subscription, made with capacity 1000 the first time |
| Delivery.SubscriberMailboxManager.TryGetNotification | core/publisher/include/NotificationReceiver.hpp:20-29 | Takes the oldest message of the one mailbox and touches no other |
| Delivery.ChangeNotifyManager.Notify | core/publisher/include/ChangeNotifyManager.hpp:30-86 | The loop makes one delivery per matching subscription, in order: mailbox, callback queue or custom handler, with both counters and a record of what the handler was given |
| FanOut.NotifyReachesEachOnce | core/publisher/include/ChangeNotifyManager.hpp:34-55 | While ids are unique, a notification is pushed exactly once to the mailbox of every matching subscription, and touches no other mailbox |
| FanOut.NotifyQueuesEachCallbackOnce | core/publisher/include/ChangeNotifyManager.hpp:57-63 | While ids are unique and the callback queue is open, a notification is queued exactly once for every matching callback subscription |
| FanOut.NotifyHandsOverEachOnce | core/publisher/include/ChangeNotifyManager.hpp:65-86 | While ids are unique and a custom handler is set, it is given a notification exactly once for every matching subscription with custom delivery |
| FanOut.NothingVanishes | core/publisher/include/SubscriberMailbox.hpp:21-65 | In every run, for every mailbox: attempts equal taken plus waiting plus refused; what was taken followed by what waits are attempted messages in their order; at most 1000 wait |
| FanOut.MailboxKeepsWhatItTookIn | core/publisher/include/SubscriberMailbox.hpp:21-65 | In every run a mailbox never gives up a message it has taken in; of the messages of one notification it takes in, after all others, as many as there is room for up to 1000 waiting, and refuses the rest |
| FanOut.FailuresAreCounted | core/publisher/include/ChangeNotifyManager.hpp:65-86 | The failure counter grows by one for each concerned subscription with custom delivery whose handler answers that it did not deliver, and not at all without a handler |
| FanOut.CounterIsSum | core/publisher/include/ChangeNotifyManager.hpp:42-55 | In every run the manager's overflow counter equals the sum over all mailboxes |
| FanOut.RunsHaveUniqueIds | core/publisher/src/SubscriptionStore.cpp:6-15 | In every run, subscription ids are unique exactly until 2^64 subscriptions were made |
| Periodic.PeriodicNotifyManager.GetDueConditions | core/publisher/src/PeriodicNotifyManager.cpp:19-42 | Lists each condition whose time has come, once, and no other |
| Periodic.PeriodicNotifyManager.UpdateNextTime | core/publisher/src/PeriodicNotifyManager.cpp:44-62 | Moves one timer on by its interval, and no other |
| Periodic.NeverDrifts | core/publisher/src/PeriodicNotifyManager.cpp:60-61 | After any passes, a timer's next time is its first one plus a whole interval for each firing |
| Periodic.FiresOnSchedule | core/publisher/src/PeriodicNotifyManager.cpp:33-41 | After k firings the next is due k + 1 intervals after registration, and a pass fires exactly when that time has come |
| Periodic.CatchesUp | core/publisher/src/PeriodicNotifyManager.cpp:37-61 | At a frozen clock, a timer that is behind fires in each pass until it has caught up, which takes floor((now - next) / interval) + 1 passes, and then in none |
| Periodic.ZeroIntervalFiresAlways | core/publisher/src/PeriodicNotifyManager.cpp:60-61 | With an interval of zero a due timer fires in every pass and never catches up |
| Publishing.PublishManager.Publish | core/publisher/src/PublishManager.cpp:30-65 | A change is notified and remembered exactly when its target has a route and the limiter grants it; a periodic notification always |
| Publishing.PublishManager.ProcessPeriodicNotifications | core/publisher/src/PublishManager.cpp:7-28 | The due subscriptions are notified in some order, every due timer with a subscription moves on by one interval, and the limiter is not consulted |
| Publishing.EachAdvancedOnce | core/publisher/src/PublishManager.cpp:18-27 | Whatever the order of the due conditions, each due timer is advanced exactly once and timers without a subscription not at all |
| Publishing.PassPushesPerDueTimer | core/publisher/src/PublishManager.cpp:18-27 | A pass pushes to the mailbox of a periodic subscription once for every due timer subscribed to the same target, its own or another's |
| Unrouted.DerivedRoutesAreUnchecked | products/common/ProductDefinition.cpp:205-410 | Two products that differ only in the routes of capabilities and facades pass validation together or not at all |
| Unrouted.RouteIdsAreUnchecked | products/common/ProductDefinition.cpp:270-302 | A valid product stays valid with one more route of a new name, whatever its id, and every id that was found leads to the same route as before |
| Unrouted.PassesExactlyIfRouted | core/publisher/src/PublishManager.cpp:30-65 | Some change of a target can pass the rate limiter exactly when the target has a route |
| Unrouted.UnroutedNeverPasses | products/common/ProductDefinition.cpp:270-302 | Any capability of any valid product can be given an unknown route: the product stays valid, no change of that capability ever passes the limiter, and its events are never compressed |
| SnapshotRing.SnapshotStorage.Store | old_0818/core/storage/src/SnapshotStorage.cpp:6-32 | The snapshot gets the next id and overwrites the oldest of sixteen; counters and slots stay in step |
| SnapshotRing.SnapshotStorage.TryGet | old_0818/core/storage/src/SnapshotStorage.cpp:34-56 | Finds exactly the ids of the last sixteen snapshots, each with its own snapshot |
| SnapshotRing.SnapshotStorage.GetCount | old_0818/core/storage/src/SnapshotStorage.cpp:58-65 | The number of snapshots stored, at most sixteen |
| SnapshotRing.FoundExactly | old_0818/core/storage/src/SnapshotStorage.cpp:34-56 | After n stores, the ids found are exactly max(1, n - 15) to n, until the 64-bit counter wraps around |
| SnapshotRing.HeldIdsDiffer | old_0818/core/storage/src/SnapshotStorage.cpp:13-24 | Even beyond that, no two snapshots held share an id |
| IncludeClosure.TransitiveClosure | tools/missing_include_audit.py:296-305 | The work list ends and returns exactly the files reachable from the start, on any finite graph |
| PrinterA.CapabilityBuildersAreFramed | products/printer_a/CapabilityItem/PrinterACapabilityBuilders.cpp:11-46 | The capability builders look at nothing but the data they declare |
| PrinterA.FacadeBuildersAreFramed | products/printer_a/CapabilityItem/PrinterAFacadeBuilders.cpp:8-30 | The facade builders look at nothing but the capabilities they declare |
| PrinterA.IsValid | products/printer_a/PrinterAProductDefinition.hpp:15-86 | The PrinterA product passes validation |
| PrinterA.IsSeparated | products/printer_a/PrinterAProductDefinition.hpp:15-86 | Its data, capability and facade partitions are disjoint |
| PrinterAReadiness.IsOnOneRoute | products/printer_a/DataItem/PrinterADataItems.hpp:18-28 | All data under each of its capabilities and facades belong to one route |
| PrinterAReadiness.EnvironmentMeans | products/printer_a/CapabilityItem/PrinterACapabilityBuilders.cpp:11-31 | On a store that has settled on the last accepted readings, the Environment capability is 2, 1 or 0 by the thresholds on the last accepted temperature and humidity, and absent exactly when none of its sensors has reported |
| PrinterAReadiness.PrintReadyMeans | products/printer_a/CapabilityItem/PrinterACapabilityBuilders.cpp:33-46 | On such a store, PrintReady says whether no door was last reported open, and is absent exactly when no door has reported |
| PrinterAReadiness.OperationReadyMeans | products/printer_a/CapabilityItem/PrinterAFacadeBuilders.cpp:19-30 | On a store that has settled on the last accepted readings, the facade says exactly whether the last readings are not both hot and damp, some door has reported, and none is open |
| PrinterAReadiness.OperationReadyAfterSteps | products/printer_a/CapabilityItem/PrinterAFacadeBuilders.cpp:19-30 | So it does whenever everything has come to rest, after any dispatches and any interleaving of the workers' single steps |
| PrinterAReadiness.OperationReadyAfterTurns | products/printer_a/CapabilityItem/PrinterAFacadeBuilders.cpp:19-30 | And after any schedule of whole turns |
| PrinterAReadiness.EnvironmentReadyMeans | products/printer_a/CapabilityItem/PrinterAFacadeBuilders.cpp:8-17 | On such a store, the facade says exactly whether the last readings are not both hot and damp |
| PrinterAReadiness.CalmPrinterHoldsBatch | products/printer_a/DataItem/PrinterADataItems.hpp:18-28 | No interleaving of single steps of PrinterA's workers leaves a stale derived value behind |
| PrinterAReadings.ReadingIsAccepted | products/printer_a/DataItem/PrinterANormalizationFunctions.cpp:9-39 | PrinterA accepts exactly the readings of its eleven items in their types, and queues them as they are, sensor A in kelvins |
| PrinterAReadings.SaysAfterSteps | products/printer_a/CapabilityItem/PrinterACapabilityBuilders.cpp:11-46 | At rest after any interleaving, the store holds the last dispatched reading of every item, and both capabilities and both facades say of the raw readings what they should: hot is 60 degrees Celsius, damp 60 percent |
| PrinterAReadings.SaysAfterTurns | products/printer_a/CapabilityItem/PrinterAFacadeBuilders.cpp:8-30 | The same after any schedule of whole turns |
| PrinterAReadings.TurnAnnouncesChanges | core/capability/src/CapabilityWorker.cpp:90-176 | On PrinterA, from an emptied queue, a turn announces its item and exactly the capabilities and facades whose stored value it changed |
| PrinterAReadings.FacadesAreServed | products/printer_a/Route/PrinterARoute.hpp:8-14 | Every facade of PrinterA can be notified and keeps its oldest announcement |

## Left out

- Storage.BinaryEntry: kept as a value inside the map that owns it, so the reuse of its buffer in place is not modelled; pointers into that buffer are byte sequences.
- Storage.PartitionStorage.GetAll: the order of a hash table is left open, so results about snapshots hold for every order.
- Queues.EventQueue.WaitAndPop: starts where the wait has ended; waiting itself is an enabling condition in StopOrder, and the wait with a timeout is not modelled.
- Evaluation.FastPathIsExact: equality of doubles is that of reals, and strings are compared by address; not-a-number and signed zero are not modelled.
- Convergence.PoliciesDoNotMatter: asks that the stores keep what they get and diffs hide no change, as the identity functions do; FineConvergence asks the same.
- OneRouteWork.CalmHoldsBatch: only under the one-route condition, which RouteRace.TwoRoutesGoStale shows is needed; shutting the publisher queue down is left to the coarse machine.
- RouteRace.TwoRoutesGoStale: a capability that lists the first item more than once and whose diff takes one of the two values for the other is not treated.
- FacadeRace.FacadeGoesStale: for items that feed a single capability each; products in which they feed more are not treated.
- Grain.ListAndMapBuildAlike: asks that the builder looks only at its declared inputs, for facades too, because a facade that requires one capability twice could be read twice in between.
- StopOrder.NothingIsLost: one route, whose executor is stopped at most once, as its stopped flag makes every later Stop return at once; the destructors are not modelled. The flags are atomic, and creating and joining a thread are single steps.
- Folding.DrainedHoldsFold: for buffered routes and diffs that hide no change; a coalescing queue drops values before the callback sees them.
- Announcements.TurnAnnouncesChangedFacade: for facades of which the item feeds at most one capability; GlitchExample.FacadeFlickers shows why.
- FinePublication.NoStepLosesAPublication: the publisher queue stays open, as it does until RIM_Stop or RIM_Destroy.
- Schedules.TurnsAreInterleavings: for runs in which the publisher queue is not shut down.
- FanOut.NotifyHandsOverEachOnce: a custom handler is a function of what it is given; a handler that is changed in the middle of a run or keeps state of its own is not modelled.
- RateLimiter.RateBound: time is an integer argument, because the publisher's worker is the only caller and reads a steady clock.
- Execution.AdapterDispatcher.Dispatch: the bytes of a binary are taken at dispatch, where the C interface keeps the caller's pointer.
- Values.Retag: giving a value a tag other than its own is undefined in C++ and reads zero in the model.
- Publication after RIM_Stop or RIM_Destroy, which shut the publisher queue down before the routes stop.
- Mutexes, condition variables and real clocks; steps are atomic and time is an argument.
- Snapshots' own binary entries, GetBinaryHash and TryGetBinary, GetDomainIds, FindData and the registry's GetAll: plain accessors of state that is modelled.
- The C interface, callbacks and the callback worker, custom delivery handlers beyond their answer, version strings, dumps and logging, DefaultDiff, and the skeleton product.
- The earlier copies of the tree other than the snapshot ring, and the text-processing parts of the tools.
