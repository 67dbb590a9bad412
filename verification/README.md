# A verified model of blob-stream

blob-stream is a partitioned log. Brokers reserve sequence numbers under leases, buffer accepted batches,
pack them into shared blob objects, publish one metadata row per topic and object, and serve those rows to
consumers through a metadata cache. This project states in Dafny what that machinery does and proves what
it is relied on for. `dafny verify dfyconfig.toml` verifies all of it. Nothing here was executed against
the Rust program.

## What is proved

**Leases and sequence numbers.** `LeaseStore` and `DynamoLeases` hold the two lease stores, `Allocation` and
`Transitions` the broker's local allocator and the two halves of an allocation transition, and
`LeaseProtocol` puts any number of broker processes around one lease row: starting, crashing, losing and
regaining the assignment, cancelled and stale transitions, lost answers, takeovers, draining, releasing and
fenced publication.

- `SequenceUniqueness`: over every run, with no clock assumption, no number below `u64::MAX` is given to two
  batches or published twice, and none exceeds the durable high-water mark.
- `EpochOrder`, `LeaseTiming`: publication order is lease-epoch order and a later epoch has only larger
  numbers, if lease calls are timely. A maintenance call that saw a live lease is made before that lease's
  local expiry and does not renew an epoch taken at or after it. A call that rewrites the caller's own lease
  sets an expiry that lies neither before the reading with which the epoch was taken nor before the local
  expiry the broker relies on. Readings of one process that do not go back, with maintenance calls made
  before the local expiry, are timely.
- `LateRenewal`, `StaleReadings`: each of these conditions is needed. The design promises the ordering without
  them, but maintenance reads the clock twice, and a produce request makes its call with a reading taken
  before its waits. For all readings that violate one of the conditions there is a run, timely in every other
  step, that publishes a later epoch with smaller numbers.
- `BufferFences`: over every run each buffered batch was accepted under the fence its process holds, and a
  publication only holds batches of the lease it is checked against.
- A reservation that ends at `u64::MAX` hands that number out twice; `Allocation` gives the exact condition.

**Sealed metadata cache.** `SealedCache` models strong reads for one cache key; rows become visible no later
than creation plus publication lag plus skew, identifiers encode creation time through a monotone function,
and a scan is any set between what is visible at its start and at its end. `SealedCacheSafety` proves over
every run that each strong answer (loaded, prefix plus suffix, or sealed to the window's end) is a legal
result of one plain scan and that nothing below its seal can still be missing, even with a broker clock that
runs slow or backwards; `SealBounds` says how far each seal reaches. `MetadataDecode` and `MetadataAcceptance` prove, in every run and with any readings,
that the consumer's validator accepts an answer to a request that asks for a seal exactly when the reading
that proves the seal is not later than the reading that dates the answer. So every such answer is accepted if
the broker's readings do not go back, however slow its clock is, and for every pair of readings that do go
back there is a run in which one is refused. A request without a seal is accepted exactly when it joined a
refill without one.

**Flush pipeline.** `FlushPipeline` is the state machine from buffer to metadata row. `FlushInvariants`,
`FlushConservation` and `FlushDrain` prove order and failure propagation inside a publication chain, that
every accepted batch is in exactly one place, what the outstanding count means, and that plans drain.
`FlushOrder` and `FlushRestart` settle order across chains: the comment at
`blob-stream-broker/src/write/buffer.rs:30-33` promises it always, but the scheduler clears a failed tail
without looking at what is still outstanding. Order holds if chains restart only when nothing of the old chain
can still publish, and from every reachable state in which that fails some continuation breaks it.
`FlushScheduler` ties the scheduler's locked passes to the state machine: a pass makes a plan exactly when some
partition may be taken and calls for a flush, and a time plan serves every buffered partition.

**Object packing** (`Packing`): the suffix table is the optimum over all contiguous splits, and the
balancing packer always emits that minimum, each object as near to an equal share as the rest allows.

**Smaller parts**: offsets through merge and discard (`Offsets`), fenced row writes (`FencedWrites`), ordered
keys and the row codec (`Keys`, `Codec`), the adaptive flush delay (`AdaptiveDelay`), balanced assignment
(`PartitionOrder`, `CanonicalMembership`, `Assignment`), and gap analysis (`Continuity`).

## How the source is represented

- Time is whole milliseconds and an explicit parameter of every call (nanoseconds in `Codec`, where
  truncation matters). The random, network and storage choices of a run are parameters of its actions.
- A storage call takes effect atomically when it is made. Its answer may be lost, late, or applied after the
  assignment changed, and the read that explains a refusal may be stale. A lease release and the local clear
  that follows a reported release are one step; an unreported release leaves the local state alone.
- Lease rows are never deleted by their time-to-live attribute. For the publication order lease durations are
  not negative; uniqueness of numbers does not need that.
- Assignment and cache generations are unbounded counters. Pointer identity of cache entries is equality of
  entries, which generations make unique.
- Hash functions, identifier generation from timestamps, hash-map iteration order and protobuf sizes are
  arbitrary function or sequence parameters.

## Model

| member | source | states |
|---|---|---|
| LeaseStore.ReserveRangeIsFresh | blob-stream-metadata-store/src/producer_partition_leases_memory.rs:317-329 | a reservation is exactly the next `size` numbers above the old high-water mark, and fails exactly when they do not fit in a u64 |
| LeaseStore.AcquireContract | blob-stream-metadata-store/src/producer_partition_leases_memory.rs:89-162 | an acquisition never lowers mark or epoch, hands out only fresh numbers, and changes the fence only by raising the epoch over an absent or expired lease |
| LeaseStore.ReserveContract | blob-stream-metadata-store/src/producer_partition_leases_memory.rs:199-241 | a reservation leaves fence and expiry alone, needs the caller's own live lease, and hands out only fresh numbers |
| LeaseStore.InMemoryLeaseStore.AcquireLeaseAndReserve | blob-stream-metadata-store/src/producer_partition_leases_memory.rs:89-162 | the map update is the row step on that key and nothing else |
| LeaseStore.InMemoryLeaseStore.HeartbeatLease | blob-stream-metadata-store/src/producer_partition_leases_memory.rs:164-197 | a heartbeat renews only the caller's own live lease |
| LeaseStore.InMemoryLeaseStore.ReserveSequences | blob-stream-metadata-store/src/producer_partition_leases_memory.rs:199-241 | the map update is the reservation step on that key and nothing else |
| LeaseStore.InMemoryLeaseStore.ReleaseLease | blob-stream-metadata-store/src/producer_partition_leases_memory.rs:243-276 | a release expires only the caller's own live lease |
| DynamoLeases.RangesAgree | blob-stream-metadata-store/src/producer_partition_leases_dynamo.rs:852-883 | the ranges recovered from the old and from the new maximum are both the in-memory store's range, and the overflow guard refuses the same cases |
| DynamoLeases.RenewalMatches | blob-stream-metadata-store/src/producer_partition_leases_dynamo.rs:293-423 | a renewal that passes its condition changes the row and answers as the in-memory store would |
| DynamoLeases.ClaimMatchesIffPortable | blob-stream-metadata-store/src/producer_partition_leases_dynamo.rs:172-244 | a claim that passes its condition matches the in-memory store exactly when an absent row comes with a positive duration and a present one has room for an epoch |
| DynamoLeases.BothRefuseTogether | blob-stream-metadata-store/src/producer_partition_leases_dynamo.rs:293-423 | renewal and claim are both refused exactly when the in-memory store leaves the row alone |
| DynamoLeases.OverflowReportIsExact | blob-stream-metadata-store/src/producer_partition_leases_dynamo.rs:885-900 | the overflow report is the in-memory store's overflow on a live own lease |
| DynamoLeases.AcquireRefusalMatchesIffLive | blob-stream-metadata-store/src/producer_partition_leases_dynamo.rs:885-900 | a refusal read from the row that refused is the in-memory store's exactly when that row is live |
| DynamoLeases.ExpiredRowWithoutRoom | blob-stream-metadata-store/src/producer_partition_leases_dynamo.rs:885-900 | an expired row without room is reported as held by another, where the in-memory store reports the overflow |
| DynamoLeases.DynamoLeaseStore.AcquireLeaseAndReserve | blob-stream-metadata-store/src/producer_partition_leases_dynamo.rs:293-423 | renew, claim, read, with other writers in between and a stale read: whichever update passes does to the row of that moment, and answers, what the in-memory store would; a refusal changes nothing, reports exactly the lease it read as held by another, or failure exactly when it read no row or the caller's own live lease without room |
| DynamoLeases.DynamoLeaseStore.HeartbeatLease | blob-stream-metadata-store/src/producer_partition_leases_dynamo.rs:425-531 | same row and same success as the in-memory store; same refusal if the read is current |
| DynamoLeases.ReserveMatches | blob-stream-metadata-store/src/producer_partition_leases_dynamo.rs:533-661 | a reservation that passes its condition changes the row and answers as the in-memory store would |
| DynamoLeases.ReserveRefusalMatches | blob-stream-metadata-store/src/producer_partition_leases_dynamo.rs:533-661 | a refused reservation is one the in-memory store refuses, for the same reason |
| DynamoLeases.DynamoLeaseStore.ReserveSequences | blob-stream-metadata-store/src/producer_partition_leases_dynamo.rs:533-661 | same row and same success as the in-memory store; same refusal if the read is current |
| DynamoLeases.ReleasesAgreeIff | blob-stream-metadata-store/src/producer_partition_leases_dynamo.rs:663-756 | the two stores release alike exactly when the lease is not the caller's own expired one |
| DynamoLeases.DynamoLeaseStore.ReleaseLease | blob-stream-metadata-store/src/producer_partition_leases_dynamo.rs:663-756 | a release expires the caller's own lease, live or not, and changes nothing otherwise |
| Allocation.SeqAllocator.AllocateRange | blob-stream-broker/src/write/state.rs:286-308 | succeeds exactly when the reservation has room, returns the next `count` numbers and consumes exactly those, except that u64::MAX is never consumed |
| Allocation.SeqAllocator.InstallOrExtendReservation | blob-stream-broker/src/write/state.rs:320-347 | the free numbers become exactly the new range together with the old free ones that a contiguous range keeps |
| Allocation.HandedOutIsIncreasing | blob-stream-broker/src/write/state.rs:298-308 | below u64::MAX a reservation's batches are increasing and disjoint |
| Allocation.ReservationIsHandedOutOnceIff | blob-stream-broker/src/write/state.rs:298-308 | no series of batches gets a number twice if and only if the reservation ends below u64::MAX |
| Allocation.LastNumberTwice | blob-stream-broker/src/write/state.rs:298-308 | a reservation that ends at u64::MAX gives that number to two batches |
| Transitions.OldNumberSurvivesIff | blob-stream-broker/src/write/allocation.rs:94-127 | an unused number survives a change of fence exactly when the transition saw no expiry and no disjoint range replaced the reservation |
| Transitions.ApplyLease | blob-stream-broker/src/write/allocation.rs:94-107 | the buffer is emptied exactly when the fence is lost or changes, every batch of it is returned in order, and expiry, fence and all other fields are the answered or the old ones |
| Transitions.ApplyAnswer | blob-stream-broker/src/write/allocation.rs:94-127 | after an answer the fence is the answered one, the numbers of an expired or lost lease are forgotten, an answered range is free, and each buffered batch is kept or returned |
| Transitions.WriteState.PublishAssignment | blob-stream-broker/src/write/state.rs:34-51 | a changed set invalidates every generation captured for an added or removed partition |
| Transitions.BeginDecides | blob-stream-broker/src/write/allocation.rs:237-361 | which answer a transition gives, for every partition state: draining, waiting, ready, or claimed |
| Transitions.ClaimAsksFor | blob-stream-broker/src/write/allocation.rs:290-361 | a claimed transition asks for a lease exactly when it maintains one or none is live, and for numbers exactly when there is no room or maintenance finds few left |
| Transitions.ClaimedSize | blob-stream-broker/src/write/allocation.rs:290-361 | it asks for the target, doubled up to u32::MAX when a reservation ran out or was used up quickly |
| Transitions.WriteState.BeginAllocationTransition | blob-stream-broker/src/write/allocation.rs:237-361 | decides from the partition's state alone, creates no state for an unassigned partition, and touches no other partition |
| Transitions.WriteState.FinishAllocationTransition | blob-stream-broker/src/write/allocation.rs:55-160 | applies exactly when the captured generation is current, with the partition's new fence, free numbers and buffer stated on its fields; otherwise only clears the in-flight mark |
| Transitions.WriteState.ClearTerminallyReleasedPartition | blob-stream-broker/src/write/state.rs:125-166 | forgets fence, expiry, numbers and reservation size, keeps buffer and outstanding work, and removes the partition exactly when it is unassigned, draining and drained |
| SequenceUniqueness.StoreCallContract | blob-stream-broker/src/write/engine.rs:186-250 | whichever store call a transition makes, mark and epoch never go down and an answered range is fresh |
| SequenceUniqueness.MovesKeepPlaced | blob-stream-broker/src/write/engine.rs:96-161 | numbers that move to new places from sources they leave keep at most one place |
| SequenceUniqueness.FinishFrees | blob-stream-broker/src/write/allocation.rs:94-141 | finishing or dropping a transition frees at most the answered range beyond what was free |
| SequenceUniqueness.SpanIsCovered | blob-stream-broker/src/write/flush.rs:555-576 | a contiguous run of batches covers every number of its merged range |
| SequenceUniqueness.NextPlaces | blob-stream-broker/src/write/allocation.rs:55-160 | every action of the protocol keeps each number below u64::MAX in at most one place and the mark from falling |
| SequenceUniqueness.HighWaterNeverDecreases | blob-stream-metadata-store/src/producer_partition_leases_memory.rs:89-276 | the durable mark never decreases along a run |
| SequenceUniqueness.SequenceNumbersAreUnique | blob-stream-broker/src/write/engine.rs:96-161 | in every run no number below u64::MAX is given to two batches or published in two rows, and all are at most the mark |
| LeaseProtocol.RefusedFinishMeans | blob-stream-broker/src/write/lease/assignment.rs:472-476 | a maintenance call that another holder refused clears fence, expiry, numbers and buffer; a refused produce request, a lost answer, a dropped or a stale transition changes nothing |
| BufferFences.NextFences | blob-stream-broker/src/write/allocation.rs:94-107 | every action keeps each process's buffer under the fence it holds and each flush under one fence |
| BufferFences.BufferedUnderHeldFence | blob-stream-broker/src/write/scheduler.rs:203-249 | in every run each buffered batch was accepted under the fence now held, so a flush drops none of them |
| BufferFences.PublishedUnderLiveFence | blob-stream-metadata-store/src/dynamo.rs:511-549 | in every run all batches of a publication were accepted under the lease it is checked against, which is live at that moment |
| EpochOrder.FinishEpochs | blob-stream-broker/src/write/allocation.rs:94-127 | a finish that carries nothing over leaves only numbers above the base of its fence's epoch |
| EpochOrder.PublishEpochs | blob-stream-metadata-store/src/dynamo.rs:511-549 | a fenced publication has the current epoch and lies above that epoch's base |
| EpochOrder.NextEpochs | blob-stream-broker/src/write/allocation.rs:55-160 | every action keeps the epochs of fences, batches and rows apart, if it carries no unused number into another fence |
| EpochOrder.CarefulRunsPublishInOrder | blob-stream-metadata-store/src/dynamo.rs:429-590 | in every such run epochs never go back in publication order and a later epoch publishes only larger numbers |
| LeaseTiming.UnresetCallKeepsFence | blob-stream-broker/src/write/lease/assignment.rs:545-578 | a maintenance call made before the local expiry, on a lease taken before it, answers with the fence already held or with none |
| LeaseTiming.NextTiming | blob-stream-broker/src/write/allocation.rs:237-361 | every timely action keeps each process's belief about its lease true |
| LeaseTiming.TimelyRunsAreCareful | blob-stream-broker/src/write/allocation.rs:108-113 | in every timely run each applied change of fence resets the allocator |
| LeaseTiming.TimelyRunsPublishInOrder | blob-stream-metadata-store/src/dynamo.rs:429-590 | timely runs publish in epoch order with increasing numbers |
| LeaseTiming.ForwardRunsAreTimely | blob-stream-broker/src/write/allocation.rs:237-361 | a run is timely if each process's readings do not go back and maintenance calls are made before the local expiry |
| LateRenewal.LateCallBreaksTheOrder | blob-stream-broker/src/write/lease/assignment.rs:545-578 | for all readings with begin < expiry <= call there is a run, timely in every other step, that publishes a later epoch with smaller numbers |
| StaleReadings.ShorteningRenewalBreaksTheOrder | blob-stream-broker/src/write/lease/assignment.rs:545-578 | the same for every maintenance call whose new expiry lies before the local one |
| StaleReadings.ForgottenTakeoverBreaksTheOrder | blob-stream-broker/src/write/lease/assignment.rs:545-578 | the same for every maintenance call that renews an epoch taken, with a lost answer, at or after the local expiry |
| StaleReadings.StaleRequestBreaksTheOrder | blob-stream-broker/src/write/engine.rs:96-250 | the same for every produce request whose new expiry lies before its epoch began |
| StaleReadings.StaleHeartbeatBreaksTheOrder | blob-stream-broker/src/write/lease/assignment.rs:873-905 | the same for every heartbeat of a draining broker whose new expiry lies before its epoch began |
| StaleReadings.StaleReleaseBreaksTheOrder | blob-stream-broker/src/write/lease/assignment.rs:745-790 | the same for every release with a reading before its epoch began |
| FencedWrites.AcceptableFencesCover | blob-stream-metadata-store/src/dynamo.rs:429-468 | an accepted fence list names exactly the row's partitions |
| FencedWrites.AcceptableMeans | blob-stream-metadata-store/src/dynamo.rs:429-468 | a fence list is accepted exactly when it has 1 to 99 entries, repeats no partition, and names every partition of the row and no other |
| FencedWrites.DynamoMetadataStore.WriteSegment | blob-stream-metadata-store/src/dynamo.rs:410-590 | a fenced row is put exactly when its fences are 1 to 99 distinct ones that cover it and each is its lease's current holder, epoch and session with an expiry after now; otherwise nothing changes, and the answer says which |
| SealedCacheSafety.CompletenessLasts | blob-stream-broker/src/read/metadata_cache.rs:1668-1675 | what is complete below a proved seal stays complete whatever is published later |
| SealedCacheSafety.InstalledLoadIsSealed | blob-stream-broker/src/read/metadata_cache.rs:1417-1461 | what a load installs holds exactly the visible rows of its sealed interval |
| SealedCacheSafety.PrefixThenSuffixIsScan | blob-stream-broker/src/read/metadata_cache.rs:1199-1210 | retained rows before the bound followed by a scan from it are one sorted scan without loss or duplicate |
| SealedCacheSafety.PromotedIsSealed | blob-stream-broker/src/read/metadata_cache.rs:1128-1197 | a promoted entry holds exactly the visible rows of the longer interval |
| SealedCacheSafety.LoadAnswerIsOk | blob-stream-broker/src/read/metadata_cache.rs:967-1001 | the answer a waiter derives from a shared load is a scan with a proved seal, whatever the other waiters asked for |
| SealedCacheSafety.SuffixAnswerIsOk | blob-stream-broker/src/read/metadata_cache.rs:861-912 | the same for a waiter of a shared suffix scan |
| SealedCacheSafety.SealedAnswerIsOk | blob-stream-broker/src/read/metadata_cache.rs:861-919 | a prefix sealed to the window's end is a scan of the whole window |
| SealedCacheSafety.NextInv | blob-stream-broker/src/read/metadata_cache.rs:855-1463 | publications, loads, suffix scans, promotions, late installs, failures and evictions all keep retained entries sealed and answers legal |
| SealedCacheSafety.StrongAnswersAreScans | blob-stream-broker/src/read/metadata_cache.rs:855-1211 | in every run each strong answer, cut to the request's floor, is a legal plain scan started no earlier than its proof time, and no row below its seal is ever missing |
| MetadataCache.StrongCache.CompleteLoad | blob-stream-broker/src/read/metadata_cache.rs:1337-1463 | numbers the entry and replaces the retained one unless that proves at least as much, for this key only |
| MetadataCache.StrongCache.CompleteSuffix | blob-stream-broker/src/read/metadata_cache.rs:1084-1211 | assembles the composite entry and promotes only the prefix that was extended, for this key only |
| SealBounds.LoadSealIs | blob-stream-broker/src/read/metadata_cache.rs:1337-1463 | a load seals up to the least of what was asked and what its start reading proves under the larger horizon |
| SealBounds.LoadAnswerIs | blob-stream-broker/src/read/metadata_cache.rs:967-1001 | a waiter is answered exactly when the load reached its floor, sealed to the least of the load's seal, its own and its own horizon |
| SealBounds.ReuseBoundIs | blob-stream-broker/src/read/metadata_cache.rs:861-919 | a retained entry serves a sealing request exactly when it reaches its floor, covers its horizon and seals something above the floor; and how far |
| SealBounds.PromotionIs | blob-stream-broker/src/read/metadata_cache.rs:1128-1197 | a suffix scan promotes exactly when it starts within the seal, its readings follow the proof in order, and it proves more than the seal |
| SealBounds.SuffixedIs | blob-stream-broker/src/read/metadata_cache.rs:1199-1210 | a suffix answer is the retained rows below the bound, then the scanned rows, under the promoted seal if there is one |
| SealBounds.RetainedAfterLoadIs | blob-stream-broker/src/read/metadata_cache.rs:1417-1461 | a load's rows below its seal, and only those, replace the retained entry unless that proves as much |
| SealBounds.RetainedAfterSuffixIs | blob-stream-broker/src/read/metadata_cache.rs:1128-1197 | a promotion replaces only the prefix it extended, adding exactly the scanned rows between the old and the new seal |
| MetadataRead.MinSnowflake | blob-stream-broker/src/read/metadata_cache.rs:1661-1666 | the loop finds the least bound |
| MetadataRead.ResponseRows | blob-stream-broker/src/read/metadata_cache.rs:1951-2007 | returns exactly the rows that hold something the caller asked for, in order, each with exactly the asked partitions placed as in the scan, and fails exactly when these are too many rows or bytes |
| MetadataRead.ProjectionShows | blob-stream-broker/src/read/metadata_cache.rs:1961-1985 | the projection shows every row that holds an asked partition, once and in order, with exactly the asked partitions |
| MetadataRead.ProjectionIgnoresExtraRows | blob-stream-broker/src/read/metadata_cache.rs:1961-1985 | rows below the caller's floor never change its projection |
| MetadataRead.PendingRefill.Admit | blob-stream-broker/src/read/metadata_cache.rs:1795-1814 | until completion each partition gets the lower of the two bounds, or the one stated; afterwards nothing changes |
| MetadataRead.CoalescedCoversAll | blob-stream-broker/src/read/metadata_cache.rs:1213-1241 | after any admissions the captured floor is the least of the admitted callers' floors |
| MetadataRead.SharedScanServesEveryCaller | blob-stream-broker/src/read/metadata_cache.rs:1213-1241 | for any callers coalesced before the scan, each is shown exactly what its own scan would show |
| MetadataRead.LateCallerIsAnsweredIffServed | blob-stream-broker/src/read/metadata_cache.rs:1735-1741 | a caller that joined after the scan began is answered from it exactly when, for every content of the store, it shows that caller what its own scan would |
| MetadataDecode.ToSpecAsks | blob-stream-broker/src/read/metadata_cache.rs:1494-1560 | a request is refused exactly when it names no partition or one twice; otherwise the broker looks for exactly what was asked, sealed no further than asked nor past the window |
| MetadataDecode.DecodesIff | blob-stream-consumer/src/consumer/metadata_query.rs:165-354 | what the validator accepts, for every request and response: proofs in order and within the reader's horizon, a floor below every bound asked for, and distinct rows of asked partitions only; and what it then returns |
| MetadataDecode.ProjectionIsAccepted | blob-stream-consumer/src/consumer/metadata_query.rs:298-348 | a projected response has unique identifiers and only requested partitions at or above their bounds |
| MetadataDecode.CertifiedIsAcceptedIff | blob-stream-consumer/src/consumer/metadata_query.rs:165-354 | a certified answer to a sealing request is accepted exactly when its proof reading is not after its observation reading, and is then read unchanged |
| MetadataDecode.UnsealedIsAcceptedIff | blob-stream-consumer/src/consumer/metadata_query.rs:217-246 | without a requested seal the validator accepts exactly the answers that carry none |
| MetadataAcceptance.SealedAnswerIsCertified | blob-stream-broker/src/read/metadata_cache.rs:861-919 | an entry returned whole is still within the reader's own safe boundary |
| MetadataAcceptance.SealingAnswerIsAcceptedIff | blob-stream-consumer/src/consumer/metadata_query.rs:217-246 | in every run, with any readings, the answer to a sealing request is accepted exactly when its two readings are in order |
| MetadataAcceptance.LoadIsAcceptedIff | blob-stream-broker/src/read/metadata_cache.rs:967-1001 | a waiter of a load is accepted exactly when its answer carries no seal or the load's finish reading is not below its start reading |
| MetadataAcceptance.SuffixIsAcceptedIff | blob-stream-broker/src/read/metadata_cache.rs:861-912 | a waiter of a suffix scan is accepted exactly when the scan promoted the seal or its finish reading is not below the prefix's proof reading |
| MetadataAcceptance.SealedRequestsAreAccepted | blob-stream-broker/src/read/metadata_cache.rs:859-1002 | in every run whose readings do not go back, however slow the clock, each strong answer to a sealing request is accepted at any time of receipt |
| MetadataAcceptance.ClockThatGoesBackIsRefused | blob-stream-consumer/src/consumer/metadata_query.rs:232-235 | for every pair of load readings that go back there is a run in which a sealing request is refused |
| MetadataAcceptance.SuffixThatGoesBackIsRefused | blob-stream-consumer/src/consumer/metadata_query.rs:232-235 | the same for every suffix scan that ends with a reading below its prefix's proof reading |
| MetadataAcceptance.ConsumerReadsAPlainScan | blob-stream-consumer/src/consumer/metadata_query.rs:165-354 | in every run, with any readings, whatever a consumer accepts shows every row and partition of one plain scan that it asked for, and nothing else |
| MetadataAcceptance.UnsealedJoinerIsAcceptedIff | blob-stream-broker/src/read/metadata_cache.rs:967-1001 | in every run, with any readings, a strong request without a seal that joins a refill is accepted exactly when the refill was started without one |
| MetadataAcceptance.UnsealedJoinerCanBeRefused | blob-stream-broker/src/read/metadata_cache.rs:2021-2026 | a run in which such a request is refused |
| FlushInvariants.NextShape | blob-stream-broker/src/write/scheduler.rs:126-189 | every step keeps dependencies pointing to earlier plans past their identity barrier, tails latest, one epoch per partition and plan, and counts exact |
| FlushInvariants.PhasesMoveForward | blob-stream-broker/src/write/buffer.rs:34-43 | along every run an epoch's state only moves Pending, assigned, completed and its place in the chain is fixed |
| FlushInvariants.ChainsPublishInOrder | blob-stream-broker/src/write/flush.rs:687-775 | in every run an epoch's row lands only after every earlier epoch of its chain succeeded and landed, with a larger segment identifier |
| FlushInvariants.FailurePropagates | blob-stream-broker/src/write/flush.rs:1133-1183 | once an epoch failed, no later epoch of its chain ever lands, and each closed one has failed |
| FlushConservation.EveryBatchIsInOnePlace | blob-stream-broker/src/write/scheduler.rs:203-249 | in every run each accepted batch is in exactly one of its buffer, one epoch, or the discarded batches |
| FlushConservation.OutstandingCountsPlans | blob-stream-broker/src/write/scheduler.rs:126-189 | a partition's outstanding count is the number of in-flight plans that hold it |
| FlushConservation.DrainedMeansResolved | blob-stream-broker/src/write/state.rs:234-236 | an empty buffer with nothing outstanding means every accepted batch reached a terminal result |
| FlushDrain.OldestPlanNeverWaits | blob-stream-broker/src/write/flush.rs:687-775 | everything the oldest unfinished plan depends on is already terminal |
| FlushDrain.OldestPlanAdvances | blob-stream-broker/src/write/flush.rs:859-1010 | the oldest unfinished plan always has a step that waits for nothing, fails nothing that had not failed, and leaves less work |
| FlushDrain.PlansDrain | blob-stream-broker/src/write/scheduler.rs:42-124 | without new selections at most the remaining work's number of steps is possible |
| FlushOrder.CarefulRunsAreOrdered | blob-stream-broker/src/write/scheduler.rs:155-169 | if chains restart only when nothing of the old chain can still publish, each partition's rows land in selection order |
| FlushOrder.NothingOutstandingIsSafe | blob-stream-broker/src/write/scheduler.rs:155-169 | nothing outstanding is enough for a safe restart |
| FlushRestart.UnsafeRestartBreaksOrder | blob-stream-broker/src/write/scheduler.rs:155-169 | from every reachable state where a restart is not safe, some continuation makes a later epoch visible first |
| FlushRestart.UnsafeRestartIsReachable | blob-stream-broker/src/write/flush.rs:941-949 | such a state is reached when a second epoch fails its upload while the first is publishing |
| FlushScheduler.Scheduler.TakeFlushPartition | blob-stream-broker/src/write/scheduler.rs:203-249 | empties the buffer and its counters; a non-empty one becomes one new epoch behind the old tail, unless fenced writes find that its batches do not share one fence, when it is dropped |
| FlushScheduler.Scheduler.TakeFlushPartitions | blob-stream-broker/src/write/scheduler.rs:287-318 | up to the limit every wanted partition is taken with its whole buffer, or dropped for want of one fence; the others, and all past the limit, keep their work |
| FlushScheduler.Scheduler.ScanTriggers | blob-stream-broker/src/write/scheduler.rs:337-351 | reports exactly whether some partition is draining, has reached its byte limit or its delay, and whether some has reached its delay |
| FlushScheduler.Scheduler.Visit | blob-stream-broker/src/write/scheduler.rs:383-503 | files what it takes under its topic, never overwrites a section, and offers every partition its trigger calls for unless the section is full |
| FlushScheduler.Scheduler.CollectNextFlushPlan | blob-stream-broker/src/write/scheduler.rs:320-531 | a pass is one selection step and makes a plan exactly when some partition may be taken and is draining, has reached its bytes or delay, or is buffered while another has reached its delay; every taken epoch is in exactly its topic's section and was called for; a fenced section fits one transaction; a time plan serves every buffered partition unless its topic's section is full |
| FlushScheduler.PlanIff | blob-stream-broker/src/write/scheduler.rs:320-531 | a pass makes a plan exactly when some partition may be taken and calls for a flush |
| FlushScheduler.FreshPeerIsPulledIn | blob-stream-broker/src/write/scheduler.rs:337-351 | a fresh partition is flushed because of a delayed one that cannot be taken itself |
| FlushScheduler.Scheduler.MarkFlushComplete | blob-stream-broker/src/write/scheduler.rs:126-189 | recording the completions one by one is the plan's completion step and changes only epochs, tails and counts |
| FlushPipeline.CloseMeans | blob-stream-broker/src/write/scheduler.rs:126-189 | an epoch of a closed plan has succeeded exactly if it kept its identity, its row was reported written and the plan was not aborted; its partition counts one plan less and forgets a tail that has failed |
| Packing.GreedyIsMinimum | blob-stream-broker/src/write/flush.rs:394-427 | the greedy count is the least over all contiguous splits in which each object fits or is a single partition |
| Packing.MinimumSuffixObjectCounts | blob-stream-broker/src/write/flush.rs:396-427 | every table entry is the true optimum for its suffix |
| Packing.FillObjects | blob-stream-broker/src/write/flush.rs:339-391 | the balancing loop loses nothing, respects the limit and emits exactly as many objects as the table's first entry, so its divisor is never zero; each object ends where the rest needs the objects left, or where ending is nearer to the equal share |
| Packing.ClosingMeans | blob-stream-broker/src/write/flush.rs:358-391 | with exact sums the packer ends an object exactly when the rest still fits the objects left and the next partition would not fit or would move it away from the equal share |
| Packing.TargetFillObjectGroups | blob-stream-broker/src/write/flush.rs:325-392 | the groups are the input in order, each fits the enforced limit, their number is the minimum, they are balanced to the equal share, and they fit the cap exactly when saturation is invisible |
| Packing.OptimalSplitRespectsCap | blob-stream-broker/src/write/flush.rs:358-413 | saturated sums enforce the cap exactly when the cap is below u64::MAX or no sum overflows |
| Offsets.MergePartitionBatches | blob-stream-broker/src/write/flush.rs:530-579 | succeeds exactly on gap-free batches whose totals fit, and leaves every record under its own number |
| Offsets.ConsumerBatch.DiscardThrough | blob-stream-consumer/src/consumer/api.rs:46-58 | exactly the records above the cursor remain, each under its own number |
| Offsets.Deliver | blob-stream-consumer/src/consumer/api.rs:46-58 | end to end the record accepted as number s is delivered as number s |
| Keys.KeysOrderAsNumbers | blob-stream-types/src/lib.rs:490-494 | keys have twenty digits and order and compare as their numbers for all u64 |
| Keys.ParseFormatLex | blob-stream-metadata-store/src/codec.rs:99-101 | a sort key parses back to its identifier |
| Keys.WindowKeyRoundTrip | blob-stream-types/src/lib.rs:454-459 | a topic-window key parses back, whatever the topic contains |
| Codec.DecodePartitions | blob-stream-metadata-store/src/codec.rs:130-164 | the index is built, with every partition's batch, exactly when each has a batch with ordered numbers and a nonempty byte range and none repeats |
| Codec.DecodesIff | blob-stream-metadata-store/src/codec.rs:90-189 | which stored items decode, for any item, and every field of the row they decode to |
| Codec.DecodeEncode | blob-stream-metadata-store/src/codec.rs:43-189 | decoding an encoded row gives every field back, instants to the last whole millisecond and compression as the constructors build it, and refuses exactly rows without blob key, partitions or sound batches, for any partition order |
| Codec.RoundTripIff | blob-stream-metadata-store/src/codec.rs:43-189 | a row survives unchanged exactly when it is accepted, dated in whole milliseconds, and has a compression level exactly if it is compressed |
| Codec.Decode | blob-stream-metadata-store/src/codec.rs:90-189 | the field-by-field decoder computes that result |
| Codec.MemoryMetadataStore.WriteSegment | blob-stream-metadata-store/src/memory.rs:40-64 | appends to the row's window; refuses fenced writes |
| Codec.MemoryMetadataStore.ScanWindowFromSnowflake | blob-stream-metadata-store/src/memory.rs:66-106 | the string-filtered scan returns exactly the rows written to that window at or above the bound, in write order, and rows of no other window |
| AdaptiveDelay.AdaptiveFlushDelay.RecordFlushResult | blob-stream-broker/src/write/adaptive_flush_delay.rs:67-124 | the streak logic is the specified step and keeps the delay between floor and maximum |
| AdaptiveDelay.ShortenedIs | blob-stream-broker/src/write/adaptive_flush_delay.rs:75-98 | a split shortens the delay by a quarter, rounded up, of its distance to an equal share of it, or to the floor |
| AdaptiveDelay.StepIs | blob-stream-broker/src/write/adaptive_flush_delay.rs:67-124 | only the third plan in a row of one kind moves the delay; a plan of another kind ends the row |
| AdaptiveDelay.AdaptiveFlushDelay.Reconfigure | blob-stream-broker/src/write/adaptive_flush_delay.rs:54-64 | reconfiguration clears the streaks, starts at the maximum when adaptation was or is off, and otherwise moves the delay only as far as the new bounds force it |
| AdaptiveDelay.DelayStaysInBounds | blob-stream-broker/src/write/adaptive_flush_delay.rs:67-124 | any series of outcomes keeps the delay between floor and maximum |
| AdaptiveDelay.CleanPlansHalveHeadroom | blob-stream-broker/src/write/adaptive_flush_delay.rs:99-118 | from cleared streaks 3k clean plans leave exactly headroom div 2^k |
| AdaptiveDelay.CleanPlansReachMaximum | blob-stream-broker/src/write/adaptive_flush_delay.rs:99-118 | enough clean plans reach the maximum |
| AdaptiveDelay.SplitPlansReachFloor | blob-stream-broker/src/write/adaptive_flush_delay.rs:75-98 | 3 * (delay - floor) plans that split, however badly, reach the floor exactly |
| PartitionOrder.AscendingKeysAreUnique | blob-stream-broker-discovery/src/lib.rs:126 | an ordered set of partitions is determined by its elements |
| CanonicalMembership.StringOrderIsStrict | blob-stream-broker-discovery/src/lib.rs:217-222 | byte-wise string order is a strict total order, so the results below apply to it |
| CanonicalMembership.CanonicalIs | blob-stream-broker-discovery/src/lib.rs:215-225 | canonical nodes ascend by identifier and are exactly the least-address node of each identifier |
| CanonicalMembership.CanonicalDependsOnSet | blob-stream-broker-discovery/src/lib.rs:215-225 | listing order and duplicates of nodes do not matter |
| CanonicalMembership.CanonicalCovers | blob-stream-broker-discovery/src/lib.rs:215-225 | each listed identifier keeps exactly one node |
| Assignment.ChooseOwner | blob-stream-broker-discovery/src/lib.rs:139-148 | every other node has a higher load, or the same load and a lower score, or the same of both and a larger identifier |
| Assignment.BalancedAssignment | blob-stream-broker-discovery/src/lib.rs:122-155 | each partition gets one owner, none without nodes, and loads differ by at most one |
| Assignment.AssignmentDependsOnSets | blob-stream-broker-discovery/src/lib.rs:122-155 | for any score function the owners depend only on the sets of partitions and nodes |
| Continuity.ContinuityIssues | blob-stream-metadata-inspector/src/lib.rs:280-322 | on rows in sequence order the gaps are exactly the uncovered numbers above the cursor up to the highest end and the overlaps exactly the numbers above it that occur twice; on any rows each one reported out of order starts before an earlier row and ends no later, and each one above the cursor that starts before all earlier rows and ends before one of them is reported |

## Left out

- LeaseStore: `get_lease`, and lease expiry arithmetic beyond 64 bits.
- Offsets.ConsumerBatch.DiscardThrough: requires a cursor no higher than the batch end, since draining more records than there are stops the program.
- Offsets.Deliver: does not model compression and blob reads between merge and delivery.
- MetadataDecode: timestamp conversion overflow, and decoding of each row's payload after the checks.
- MetadataRead.ResponseRows: the encoded size of a row is an arbitrary function.
- The eventual half of the metadata cache (age limits), waiter and refill limits, request timeouts, and that a caller which keeps joining refills already begun is answered at all.
- FlushScheduler: the round-robin cursor and fairness between topics; the visiting order is a parameter.
- FlushPipeline: blob upload, object budgets and deadlines appear only as epochs that may fail; several partitions of one row land in separate steps.
- Packing: the byte layout inside an object.
- Codec: protobuf bytes and the DynamoDB table layout, including row time-to-live.
- Identifier generation, compression, hashing, discovery, gRPC, HTTP administration, metrics, feature flags and configuration parsing.
- Consumer groups, the consumer's reader and its local caches, and producer dispatch.
