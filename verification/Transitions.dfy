/**
 A partition's write-side lease state and the two halves of an allocation transition: `Begin` decides
 under the state lock what must be asked of the lease store, `Finish` applies the answer.
 */
module Transitions {
  import opened Numeric
  import opened LeaseStore
  import opened Allocation

  /** An accepted batch: its sequence range and the lease fence it was accepted under. */
  datatype Batch = Batch(range: SeqRange, fence: Option<Fence>)

  datatype Partition = Partition(
    buffer: seq<Batch>,
    alloc: Allocator,
    adaptiveSize: Option<u64>,
    sinceMaintenance: u64,
    expiry: Option<int>,
    fence: Option<Fence>,
    outstandingFlushes: nat,
    inFlight: bool,
    draining: bool)

  const EMPTY_PARTITION := Partition([], EMPTY_ALLOCATOR, None, 0, None, None, 0, false, false)

  datatype ReservationReason = Initial | ForegroundExhaustion | MaintenanceTopUp | MaintenanceHighUtilization

  datatype ReservationRequest = ReservationRequest(size: u64, reason: ReservationReason)

  datatype Work = Work(
    generation: nat,
    needsLease: bool,
    leaseWasExpired: bool,
    reservation: Option<ReservationRequest>,
    progress: Progress,
    records: Option<u64>)

  datatype Decision = NotAssigned | Draining | Ready | Waiting | Claimed(work: Work)

  datatype ExpirationUpdate = Preserve | Set(expiry: Option<int>)

  function SatMul(a: u64, b: u64): u64 {
    Sat(a * b)
  }

  function MaintenanceThreshold(target: u64): u64 {
    SatAdd(SatMul(target, 75), 99) / 100
  }

  predicate NeedsLease(p: Partition, now: int) {
    p.expiry.None? || now >= p.expiry.value
  }

  predicate IsDrained(p: Partition) {
    p.outstandingFlushes == 0 && !p.inFlight && p.buffer == []
  }

  function Target(p: Partition, base: u64): u64 {
    if p.adaptiveSize.Some? then p.adaptiveSize.value else base
  }

  function DoubledTarget(p: Partition, base: u64): u64 {
    Min(SatMul(Target(p, base), 2), U32_MAX)
  }

  function ResetSequenceAllocation(p: Partition): Partition {
    p.(alloc := EMPTY_ALLOCATOR, adaptiveSize := None, sinceMaintenance := 0)
  }

  predicate IsHighUtilization(p: Partition, renew: bool, base: u64) {
    renew && p.alloc.reservation.Some? && p.sinceMaintenance >= MaintenanceThreshold(Target(p, base))
  }

  /** Why a new range is requested, if one is. */
  function ReservationNeed(p: Partition, count: u64, renew: bool, base: u64): Option<ReservationReason> {
    if !CanAllocate(p.alloc, count) then
      if p.alloc.reservation.None? then Some(Initial)
      else if IsHighUtilization(p, renew, base) then Some(MaintenanceHighUtilization)
      else if renew then Some(MaintenanceTopUp)
      else Some(ForegroundExhaustion)
    else if renew && RemainingCapacity(p.alloc) < p.sinceMaintenance then
      if IsHighUtilization(p, renew, base) then Some(MaintenanceHighUtilization) else Some(MaintenanceTopUp)
    else
      None
  }

  function RequestedSize(p: Partition, reason: ReservationReason, base: u64): u64 {
    if reason.ForegroundExhaustion? || reason.MaintenanceHighUtilization?
    then DoubledTarget(p, base)
    else Target(p, base)
  }

  function Begin(p: Partition, generation: nat, count: u64, now: int, renew: bool, base: u64): (Partition, Decision) {
    if p.draining && !renew then
      (p, Draining)
    else if p.inFlight then
      (p, Waiting)
    else
      var expired := NeedsLease(p, now);
      var reason := ReservationNeed(p, count, renew, base);
      var request :=
        if reason.Some? then Some(ReservationRequest(RequestedSize(p, reason.value, base), reason.value)) else None;
      var adaptiveSize :=
        if request.Some? then Some(request.value.size)
        else if renew && p.alloc.reservation.Some? then Some(Target(p, base))
        else p.adaptiveSize;
      var sized := p.(adaptiveSize := adaptiveSize);
      if !renew && !expired && request.None? then
        (sized, Ready)
      else
        (sized.(inFlight := true),
         Claimed(Work(generation, renew || expired, expired, request,
                      if expired then Progress(None, None) else SequenceProgress(p.alloc),
                      if renew then Some(p.sinceMaintenance) else None)))
  }

  /** The local lease has not run out at `now`. */
  predicate IsLive(p: Partition, now: int) {
    p.expiry.Some? && now < p.expiry.value
  }

  /** The reservation holds this many more numbers; one that ends at `u64::MAX` always seems to. */
  predicate HasRoom(p: Partition, count: u64) {
    && p.alloc.reservation.Some? && 1 <= count
    && (p.alloc.next + count - 1 <= p.alloc.reservation.value.end || p.alloc.reservation.value.end == U64_MAX)
  }

  /** Fewer numbers are left than records were accepted since the last maintenance. */
  predicate RunsLow(p: Partition) {
    p.alloc.reservation.Some? && p.alloc.reservation.value.end - p.alloc.next + 1 < p.sinceMaintenance
  }

  /** At least three quarters of a target's worth of records were accepted since the last maintenance. */
  predicate IsBusy(p: Partition, target: u64) {
    4 * p.sinceMaintenance >= 3 * target
  }

  /** Which of its answers a transition gives, told on the partition's fields. */
  lemma BeginDecides(p: Partition, generation: nat, count: u64, now: int, renew: bool, base: u64)
    ensures var decision := Begin(p, generation, count, now, renew, base).1;
            && (decision.Draining? <==> p.draining && !renew)
            && (decision.Waiting? <==> !(p.draining && !renew) && p.inFlight)
            && (decision.Ready? <==> !p.draining && !p.inFlight && !renew && IsLive(p, now) && HasRoom(p, count))
            && !decision.NotAssigned?
  {
  }

  /** What a claimed transition will ask of the lease store, told on the partition's fields. */
  lemma ClaimAsksFor(p: Partition, generation: nat, count: u64, now: int, renew: bool, base: u64)
    requires Begin(p, generation, count, now, renew, base).1.Claimed?
    ensures var (p', decision) := Begin(p, generation, count, now, renew, base);
            var work := decision.work;
            && p' == p.(inFlight := true, adaptiveSize := p'.adaptiveSize)
            && work.generation == generation
            && work.leaseWasExpired == !IsLive(p, now)
            && work.needsLease == (renew || !IsLive(p, now))
            && (work.reservation.Some? <==> !HasRoom(p, count) || (renew && RunsLow(p)))
            && (work.records == if renew then Some(p.sinceMaintenance) else None)
            && (work.progress == if IsLive(p, now) then SequenceProgress(p.alloc) else Progress(None, None))
  {
  }

  /** How many numbers a claimed transition asks for: the target, doubled when it has proved too small. */
  lemma ClaimedSize(p: Partition, generation: nat, count: u64, now: int, renew: bool, base: u64)
    requires Begin(p, generation, count, now, renew, base).1.Claimed?
    requires Begin(p, generation, count, now, renew, base).1.work.reservation.Some?
    ensures var (p', decision) := Begin(p, generation, count, now, renew, base);
            var size := decision.work.reservation.value.size;
            var target := if p.adaptiveSize.Some? then p.adaptiveSize.value else base;
            && p'.adaptiveSize == Some(size)
            && (p.alloc.reservation.None? ==> size == target)
            && (p.alloc.reservation.Some? && !renew ==> size == Min(2 * target, U32_MAX))
            && (p.alloc.reservation.Some? && renew && target <= U32_MAX ==>
                  size == if IsBusy(p, target) then Min(2 * target, U32_MAX) else target)
  {
  }

  /** The lease half of an answer: expiry, fence, and the buffer, which a change of fence discards. */
  function AdoptLease(p: Partition, update: ExpirationUpdate, lease: Option<Lease>): Partition {
    var cleared := update == Set(None);
    var fence := if lease.Some? then Some(lease.value.fence) else if cleared then None else p.fence;
    var discards := if lease.Some? then p.fence != fence else cleared;
    p.(expiry := if update.Set? then update.expiry else p.expiry,
       fence := fence,
       buffer := if discards then [] else p.buffer)
  }

  /** Applying an answer whose assignment is still current. */
  function Apply(p: Partition, reset: bool, update: ExpirationUpdate, lease: Option<Lease>, range: Option<SeqRange>,
                 records: Option<u64>): Partition
  {
    var leased := AdoptLease(p, update, lease);
    var renewed := update.Set? && update.expiry.Some?;
    var based := if update == Set(None) || (reset && renewed) then ResetSequenceAllocation(leased) else leased;
    var installed := if range.Some? then based.(alloc := Install(based.alloc, range.value)) else based;
    if records.Some? && renewed
    then installed.(sinceMaintenance := SatSub(installed.sinceMaintenance, records.value))
    else installed
  }

  function Finish(p: Partition, isCurrent: bool, reset: bool, update: ExpirationUpdate, lease: Option<Lease>,
                  range: Option<SeqRange>, records: Option<u64>): Partition
  {
    (if isCurrent then Apply(p, reset, update, lease, range, records) else p).(inFlight := false)
  }

  /**
   A number left over from before survives the installation of a different fence exactly when the
   transition did not see the lease expired and no disjoint range replaced the reservation.
   */
  lemma OldNumberSurvivesIff(p: Partition, reset: bool, lease: Lease, range: Option<SeqRange>, records: Option<u64>, s: nat)
    requires WellFormed(p.alloc) && IsFree(p.alloc, s)
    requires range.Some? ==> !InRange(range.value, s) && range.value.start <= range.value.end
    ensures IsFree(Apply(p, reset, Set(Some(lease.expiresAt)), Some(lease), range, records).alloc, s)
       <==> !reset && (range.Some? ==> range.value.start == p.alloc.reservation.value.end + 1)
  {
  }

  // ---------------------------------------------------------------------------------------------
  // The locked write state
  // ---------------------------------------------------------------------------------------------

  /** The answer puts another fence in place of the one the buffered batches were accepted under, or none. */
  predicate LosesFence(before: Partition, update: ExpirationUpdate, lease: Option<Lease>) {
    if lease.Some? then before.fence != Some(lease.value.fence) else update == Set(None)
  }

  /** The reservation is forgotten with the lease, or when a lease is set after the old one was seen expired. */
  predicate ForgetsNumbers(reset: bool, update: ExpirationUpdate) {
    match update
    case Preserve => false
    case Set(None) => true
    case Set(Some(_)) => reset
  }

  /**
   The free numbers after an answer are the answered range and, unless they are forgotten or the range is
   not their continuation, those that were free before.
   */
  ghost predicate FreeFollows(before: Allocator, forgets: bool, range: Option<SeqRange>, alloc: Allocator) {
    && (WellFormed(before) && (range.Some? ==> range.value.start <= range.value.end) ==>
          forall n: nat :: IsFree(alloc, n) <==>
            || (range.Some? && range.value.start <= n <= range.value.end)
            || (&& !forgets && IsFree(before, n)
                && (range.Some? && before.reservation.Some? ==> range.value.start == before.reservation.value.end + 1)))
    && (range.None? && !forgets ==> alloc == before)
  }

  lemma InstallFollows(before: Allocator, forgets: bool, range: Option<SeqRange>)
    ensures var base := if forgets then EMPTY_ALLOCATOR else before;
            FreeFollows(before, forgets, range, if range.Some? then Install(base, range.value) else base)
  {
  }

  /** What remains of the records counted since maintenance once those reported at the start are settled. */
  function Unsettled(counted: u64, update: ExpirationUpdate, records: Option<u64>): u64 {
    if records.Some? && update.Set? && update.expiry.Some?
    then (if records.value <= counted then counted - records.value else 0)
    else counted
  }

  /** Adopting the answered lease, or losing the lease, fails the batches accepted under another fence. */
  method ApplyLease(before: Partition, update: ExpirationUpdate, lease: Option<Lease>)
    returns (p: Partition, discarded: seq<Batch>)
    ensures p == AdoptLease(before, update, lease)
    ensures p.expiry == if update.Set? then update.expiry else before.expiry
    ensures lease.Some? ==> p.fence == Some(lease.value.fence)
    ensures lease.None? ==> p.fence == if update == Set(None) then None else before.fence
    ensures LosesFence(before, update, lease) ==> discarded == before.buffer && p.buffer == []
    ensures !LosesFence(before, update, lease) ==> discarded == [] && p.buffer == before.buffer
    ensures p == before.(expiry := p.expiry, fence := p.fence, buffer := p.buffer)
  {
    p, discarded := before, [];
    if update.Set? {
      p := p.(expiry := update.expiry);
    }
    if lease.Some? {
      if p.fence != Some(lease.value.fence) {
        discarded, p := p.buffer, p.(buffer := []);
      }
      p := p.(fence := Some(lease.value.fence));
    } else if update == Set(None) {
      discarded, p := p.buffer, p.(buffer := []);
      p := p.(fence := None);
    }
  }

  /** The field updates made under the lock; discarded batches are failed with a lost fence. */
  method ApplyAnswer(before: Partition, reset: bool, update: ExpirationUpdate, lease: Option<Lease>,
                     range: Option<SeqRange>, records: Option<u64>)
    returns (p: Partition, discarded: seq<Batch>)
    ensures p == Apply(before, reset, update, lease, range, records)
    ensures p.expiry == if update.Set? then update.expiry else before.expiry
    ensures lease.Some? ==> p.fence == Some(lease.value.fence)
    ensures lease.None? ==> p.fence == if update == Set(None) then None else before.fence
    ensures LosesFence(before, update, lease) ==> discarded == before.buffer && p.buffer == []
    ensures !LosesFence(before, update, lease) ==> discarded == [] && p.buffer == before.buffer
    ensures FreeFollows(before.alloc, ForgetsNumbers(reset, update), range, p.alloc)
    ensures p.adaptiveSize == if ForgetsNumbers(reset, update) then None else before.adaptiveSize
    ensures p.sinceMaintenance == Unsettled(if ForgetsNumbers(reset, update) then 0 else before.sinceMaintenance, update, records)
    ensures (p.outstandingFlushes, p.inFlight, p.draining) == (before.outstandingFlushes, before.inFlight, before.draining)
  {
    p, discarded := ApplyLease(before, update, lease);
    InstallFollows(before.alloc, ForgetsNumbers(reset, update), range);
    if update == Set(None) || (reset && update.Set? && update.expiry.Some?) {
      p := ResetSequenceAllocation(p);
    }
    if range.Some? {
      p := p.(alloc := Install(p.alloc, range.value));
    }
    if records.Some? && update.Set? && update.expiry.Some? {
      p := p.(sinceMaintenance := SatSub(p.sinceMaintenance, records.value));
    }
  }

  datatype FinishStatus = Applied | StaleAssignment

  class WriteState {
    var active: bool
    var generation: nat
    var owned: set<Key>
    var partitions: map<Key, Partition>

    constructor ()
      ensures !active && generation == 0 && owned == {} && partitions == map[]
    {
      active, generation, owned, partitions := false, 0, {}, map[];
    }

    function GenerationFor(key: Key): Option<nat>
      reads this
    {
      if active && key in owned then Some(generation) else None
    }

    function PartitionAt(key: Key): Partition
      reads this
    {
      if key in partitions then partitions[key] else EMPTY_PARTITION
    }

    /** A snapshot that adds or removes a partition invalidates every captured generation. */
    method PublishAssignment(keys: set<Key>) returns (published: nat)
      modifies this`active, this`generation, this`owned
      ensures active && owned == keys && published == generation
      ensures old(owned) == keys ==> generation == old(generation)
      ensures old(owned) != keys ==> generation > old(generation)
      ensures forall key | old(key in owned) != (key in keys) ::
                old(GenerationFor(key)).None? || GenerationFor(key) != old(GenerationFor(key))
    {
      if owned != keys {
        generation := generation + 1;
        owned := keys;
      }
      active := true;
      published := generation;
    }

    /** Nothing is created or changed for an unassigned key. */
    method BeginAllocationTransition(key: Key, count: u64, now: int, renew: bool, base: u64) returns (decision: Decision)
      modifies this`partitions
      ensures GenerationFor(key).None? ==> decision == NotAssigned && partitions == old(partitions)
      ensures GenerationFor(key).Some? ==>
                && key in partitions
                && (partitions[key], decision)
                   == Begin(old(PartitionAt(key)), GenerationFor(key).value, count, now, renew, base)
                && partitions - {key} == old(partitions) - {key}
    {
      if !(active && key in owned) {
        return NotAssigned;
      }
      var p := if key in partitions then partitions[key] else EMPTY_PARTITION;
      partitions := partitions[key := p];
      if p.draining && !renew {
        return Draining;
      }
      if p.inFlight {
        return Waiting;
      }
      var leaseWasExpired := NeedsLease(p, now);
      var needsLease := renew || leaseWasExpired;
      var highUtilization := IsHighUtilization(p, renew, base);
      var target := Target(p, base);
      var adaptive := if renew && p.alloc.reservation.Some? then Some(target) else p.adaptiveSize;
      var request: Option<ReservationRequest> := None;
      if !CanAllocate(p.alloc, count) {
        var reason :=
          if p.alloc.reservation.None? then Initial
          else if highUtilization then MaintenanceHighUtilization
          else if renew then MaintenanceTopUp
          else ForegroundExhaustion;
        var size := target;
        if reason.ForegroundExhaustion? || reason.MaintenanceHighUtilization? {
          size := Min(SatMul(target, 2), U32_MAX);
        }
        adaptive := Some(size);
        request := Some(ReservationRequest(size, reason));
      } else if renew && RemainingCapacity(p.alloc) < p.sinceMaintenance {
        if highUtilization {
          adaptive := Some(Min(SatMul(target, 2), U32_MAX));
          request := Some(ReservationRequest(adaptive.value, MaintenanceHighUtilization));
        } else {
          adaptive := Some(target);
          request := Some(ReservationRequest(target, MaintenanceTopUp));
        }
      }
      partitions := partitions[key := p.(adaptiveSize := adaptive)];
      if !needsLease && request.None? {
        return Ready;
      }
      var progress := if leaseWasExpired then Progress(None, None) else SequenceProgress(p.alloc);
      partitions := partitions[key := p.(adaptiveSize := adaptive, inFlight := true)];
      decision := Claimed(Work(generation, needsLease, leaseWasExpired, request, progress,
                               if renew then Some(p.sinceMaintenance) else None));
    }

    /** A stale answer only clears the in-flight mark; a vanished partition stays vanished. */
    method FinishAllocationTransition(key: Key, work: Work, update: ExpirationUpdate, lease: Option<Lease>,
                                      range: Option<SeqRange>, records: Option<u64>)
      returns (status: FinishStatus, discarded: seq<Batch>)
      modifies this`partitions
      ensures key !in old(partitions) ==> status == StaleAssignment && discarded == [] && partitions == old(partitions)
      ensures key in old(partitions) ==>
                && (status == Applied <==> GenerationFor(key) == Some(work.generation))
                && partitions == old(partitions)[key :=
                     Finish(old(partitions)[key], status == Applied, work.leaseWasExpired, update, lease, range, records)]
                && !partitions[key].inFlight
                && (status == StaleAssignment ==>
                      discarded == [] && partitions[key] == old(partitions)[key].(inFlight := false))
                && (status == Applied ==>
                      var before, p := old(partitions)[key], partitions[key];
                      && p.expiry == (if update.Set? then update.expiry else before.expiry)
                      && (lease.Some? ==> p.fence == Some(lease.value.fence))
                      && (LosesFence(before, update, lease) ==> discarded == before.buffer && p.buffer == [])
                      && (!LosesFence(before, update, lease) ==> discarded == [] && p.buffer == before.buffer)
                      && var forgets := ForgetsNumbers(work.leaseWasExpired, update);
                      && FreeFollows(before.alloc, forgets, range, p.alloc)
                      && p.adaptiveSize == (if forgets then None else before.adaptiveSize)
                      && p.sinceMaintenance == Unsettled(if forgets then 0 else before.sinceMaintenance, update, records))
    {
      var isCurrent := active && key in owned && generation == work.generation;
      if key !in partitions {
        return StaleAssignment, [];
      }
      var p := partitions[key];
      discarded := [];
      if isCurrent {
        p, discarded := ApplyAnswer(p, work.leaseWasExpired, update, lease, range, records);
      }
      p := p.(inFlight := false);
      partitions := partitions[key := p];
      status := if isCurrent then Applied else StaleAssignment;
    }

    /** Terminal release: no local lease, fence or reservation outlives it. */
    method ClearTerminallyReleasedPartition(key: Key)
      modifies this`partitions
      ensures partitions - {key} == old(partitions) - {key}
      ensures key in partitions ==>
                && key in old(partitions)
                && partitions[key]
                   == old(partitions)[key].(expiry := None, fence := None, alloc := EMPTY_ALLOCATOR, adaptiveSize := None,
                                            sinceMaintenance := 0)
      ensures key in old(partitions) ==>
                (key !in partitions <==>
                   && !(active && key in owned)
                   && old(partitions)[key].draining && !old(partitions)[key].inFlight
                   && old(partitions)[key].buffer == [] && old(partitions)[key].outstandingFlushes == 0)
    {
      if key !in partitions {
        return;
      }
      var p := ResetSequenceAllocation(partitions[key]).(expiry := None, fence := None);
      partitions := partitions[key := p];
      if !(active && key in owned) && p.draining && IsDrained(p) {
        partitions := partitions - {key};
      }
    }
  }
}
