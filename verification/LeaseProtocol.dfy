/**
 One virtual partition, any number of broker processes. Each process runs its local allocation
 transitions against the shared lease row; processes start, crash, lose and regain the assignment,
 drain, release, and publish fenced metadata. A run is any sequence of enabled actions.
 */
module LeaseProtocol {
  import opened Numeric
  import opened LeaseStore
  import opened Allocation
  import opened Transitions

  // ---------------------------------------------------------------------------------------------
  // State
  // ---------------------------------------------------------------------------------------------

  /** What the lease store answered to an in-flight transition. */
  datatype Answer =
    | Leased(lease: Lease, range: Option<SeqRange>)
    | Ranged(reserved: SeqRange)
    | LeaseHeldByOther
    | NoAnswer

  /** A claimed transition; `beganAt` is the clock reading that `Begin` used. */
  datatype Flight = Flight(work: Work, renew: bool, beganAt: int, answer: Option<Answer>)

  datatype Process = Process(
    caller: Caller,
    duration: int,
    clock: int,
    owned: bool,
    generation: nat,
    releasing: bool,
    partition: Partition,
    flight: Option<Flight>,
    flushes: map<nat, seq<Batch>>)

  datatype Publication = Publication(epoch: nat, range: SeqRange)

  /**
   `handedOut`, `published`, `bases` and `epochBegan` are history: every range given to a batch, every
   metadata row in publication order, and for each lease epoch the high-water mark at which it began.
   */
  datatype System = System(
    row: Option<Lease>,
    processes: map<nat, Process>,
    sessions: set<string>,
    handedOut: seq<SeqRange>,
    published: seq<Publication>,
    bases: map<nat, int>,
    epochBegan: int)

  const INITIAL := System(None, map[], {}, [], [], map[], 0)

  // ---------------------------------------------------------------------------------------------
  // Actions
  // ---------------------------------------------------------------------------------------------

  datatype Action =
    | Start(id: nat, caller: Caller, duration: int, clock: int)
    | Crash(id: nat)
    | Assign(id: nat, isAssigned: bool, othersChanged: bool)
    | BeginTransition(id: nat, count: u64, now: int, renew: bool, base: u64)
    | CallStore(id: nat, now: int)
    | Reread(id: nat, held: bool)
    | FinishTransition(id: nat)
    | DropTransition(id: nat)
    | Accept(id: nat, count: u64, now: int)
    | TakeFlush(id: nat, flush: nat)
    | Publish(id: nat, flush: nat, now: int)
    | AbandonFlush(id: nat, flush: nat)
    | BeginDrain(id: nat)
    | EndDrain(id: nat)
    | BeginRelease(id: nat)
    | DrainHeartbeat(id: nat, now: int)
    | Release(id: nat, now: int, reported: bool, rewritesExpired: bool)

  function With(s: System, id: nat, p: Process): System {
    s.(processes := s.processes[id := p])
  }

  /** Replace the row; a new epoch records the high-water mark and the caller's clock at its start. */
  function WithLease(s: System, row: Option<Lease>, now: int): System {
    if Epoch(s.row) < Epoch(row)
    then s.(row := row, bases := s.bases[Epoch(row) := HighWater(s.row)], epochBegan := now)
    else s.(row := row)
  }

  function Ticked(p: Process, now: int): Process {
    p.(clock := Max(p.clock, now))
  }

  function RequestedReservation(work: Work): Option<u64> {
    if work.reservation.Some? then Some(work.reservation.value.size) else None
  }

  function AcquireRequestOf(p: Process, work: Work, now: int): AcquireRequest {
    AcquireRequest(p.caller, now, p.duration, RequestedReservation(work), work.progress)
  }

  /** The one store call of a claimed transition, and the answer the broker makes of its outcome. */
  function StoreCall(row: Option<Lease>, p: Process, work: Work, now: int): (Option<Lease>, Answer) {
    if work.needsLease then
      var (row', outcome) := AcquireStep(row, AcquireRequestOf(p, work, now));
      (row', match outcome
             case Acquired(lease, range) => Leased(lease, range)
             case HeldByOther(_) => LeaseHeldByOther
             case AcquireFailed => NoAnswer)
    else if work.reservation.Some? then
      var (row', outcome) := ReserveStep(row, p.caller, now, work.reservation.value.size, work.progress);
      (row', match outcome case Reserved(range, _) => Ranged(range) case _ => NoAnswer)
    else
      (row, NoAnswer)
  }

  /** The row after a release by either store; they differ only on the caller's own expired lease. */
  function ReleasedRow(row: Option<Lease>, p: Process, now: int, rewritesExpired: bool): Option<Lease> {
    var progress := SequenceProgress(p.partition.alloc);
    if rewritesExpired then OwnReleaseStep(row, p.caller, now, progress).0 else ReleaseStep(row, p.caller, now, progress).0
  }

  /** A release touches only the caller's own lease, and leaves its fence and its high-water mark alone. */
  lemma ReleaseKeepsFence(row: Option<Lease>, p: Process, now: int, rewritesExpired: bool)
    ensures var row' := ReleasedRow(row, p, now, rewritesExpired);
            || row' == row
            || (&& row.Some? && row'.Some? && OwnedBy(row.value, p.caller) && row'.value.fence == row.value.fence
                && row'.value.maxAllocated == row.value.maxAllocated && row'.value.expiresAt == now)
  {
  }

  /** Maintenance clears local authority when another holder is live; a produce request does not. */
  function UpdateOf(flight: Flight): ExpirationUpdate {
    match flight.answer
    case Some(Leased(lease, _)) => Set(Some(lease.expiresAt))
    case Some(LeaseHeldByOther) => if flight.renew then Set(None) else Preserve
    case _ => Preserve
  }

  function LeaseOf(flight: Flight): Option<Lease> {
    match flight.answer case Some(Leased(lease, _)) => Some(lease) case _ => None
  }

  function AnsweredRange(answer: Answer): Option<SeqRange> {
    match answer
    case Leased(_, range) => range
    case Ranged(range) => Some(range)
    case _ => None
  }

  function RangeOf(flight: Flight): Option<SeqRange> {
    if flight.answer.Some? then AnsweredRange(flight.answer.value) else None
  }

  /** A refused lease call; the read that explains it may be stale and blame another holder, or nothing. */
  predicate IsRefused(flight: Flight) {
    flight.answer == Some(LeaseHeldByOther) || flight.answer == Some(NoAnswer)
  }

  predicate IsCurrent(p: Process) {
    p.flight.Some? && p.owned && p.generation == p.flight.value.work.generation
  }

  function Finished(p: Process): Partition
    requires p.flight.Some?
  {
    var flight := p.flight.value;
    Finish(p.partition, IsCurrent(p), flight.work.leaseWasExpired, UpdateOf(flight), LeaseOf(flight), RangeOf(flight),
           flight.work.records)
  }

  function Dropped(p: Process): Partition
    requires p.flight.Some?
  {
    Finish(p.partition, IsCurrent(p), p.flight.value.work.leaseWasExpired, Preserve, None, None, None)
  }

  /**
   A call that another holder refused takes the partition's authority, numbers and buffer away if it was
   maintenance, and changes nothing if it was a produce request's. A call without a usable answer, a dropped
   transition and one whose assignment is no longer current change nothing either.
   */
  lemma RefusedFinishMeans(p: Process)
    requires p.flight.Some?
    ensures IsCurrent(p) && p.flight.value.answer == Some(LeaseHeldByOther) && p.flight.value.renew ==>
              Finished(p) == p.partition.(inFlight := false, expiry := None, fence := None, buffer := [],
                                          alloc := EMPTY_ALLOCATOR, adaptiveSize := None, sinceMaintenance := 0)
    ensures (|| !(p.owned && p.generation == p.flight.value.work.generation)
             || p.flight.value.answer in {None, Some(NoAnswer)}
             || (p.flight.value.answer == Some(LeaseHeldByOther) && !p.flight.value.renew)) ==>
              Finished(p) == p.partition.(inFlight := false)
    ensures Dropped(p) == p.partition.(inFlight := false)
  {
  }

  predicate Contiguous(batches: seq<Batch>) {
    forall i | 0 < i < |batches| :: batches[i].range.start == batches[i - 1].range.end + 1
  }

  /** The transaction's lease check: same holder, epoch and session, and not yet expired. */
  predicate FenceHolds(row: Option<Lease>, fence: Fence, now: int) {
    row.Some? && row.value.fence == fence && row.value.expiresAt > now
  }

  /** The sequence range of the row that a contiguous run of batches becomes. */
  function Span(batches: seq<Batch>): SeqRange
    requires 0 < |batches|
  {
    SeqRange(batches[0].range.start, batches[|batches| - 1].range.end)
  }

  predicate Enabled(s: System, a: Action) {
    if a.Start? then
      a.id !in s.processes && a.caller.session !in s.sessions
    else
      && a.id in s.processes
      && var p := s.processes[a.id];
         match a
         case Start(_, _, _, _) => false
         case Crash(_) => true
         case Assign(_, isAssigned, _) => isAssigned ==> !p.releasing
         case BeginTransition(_, count, now, renew, base) =>
           p.owned && Begin(p.partition, p.generation, count, now, renew, base).1.Claimed?
         case CallStore(_, now) =>
           p.flight.Some? && p.flight.value.answer.None? && (p.flight.value.renew || now == p.flight.value.beganAt)
         case Reread(_, _) => p.flight.Some? && p.flight.value.work.needsLease && IsRefused(p.flight.value)
         case FinishTransition(_) => p.flight.Some? && p.flight.value.answer.Some?
         case DropTransition(_) => p.flight.Some?
         case Accept(_, count, now) =>
           && p.owned && !p.partition.draining && !p.partition.inFlight
           && !NeedsLease(p.partition, now)
           && Allocate(p.partition.alloc, count).Some?
         case TakeFlush(_, flush) => p.partition.buffer != [] && flush !in p.flushes
         case Publish(_, flush, now) =>
           && flush in p.flushes
           && var batches := p.flushes[flush];
              && 0 < |batches| && Contiguous(batches)
              && batches[0].fence.Some? && FenceHolds(s.row, batches[0].fence.value, now)
         case AbandonFlush(_, flush) => flush in p.flushes
         case BeginDrain(_) => true
         case EndDrain(_) => p.owned && !p.releasing
         case BeginRelease(_) => !p.owned
         case DrainHeartbeat(_, _) => p.releasing
         case Release(_, _, _, _) => p.releasing && p.flight.None? && p.partition.buffer == [] && p.flushes == map[]
  }

  function Next(s: System, a: Action): System
    requires Enabled(s, a)
  {
    if a.Start? then
      s.(sessions := s.sessions + {a.caller.session},
         processes := s.processes[a.id :=
           Process(a.caller, a.duration, a.clock, false, 0, false, EMPTY_PARTITION, None, map[])])
    else
      var p := s.processes[a.id];
      match a
      case Crash(id) => s.(processes := s.processes - {id})
      case Assign(id, isAssigned, othersChanged) =>
        var generation := if isAssigned != p.owned || othersChanged then p.generation + 1 else p.generation;
        With(s, id, p.(owned := isAssigned, generation := generation))
      case BeginTransition(id, count, now, renew, base) =>
        var (partition, decision) := Begin(p.partition, p.generation, count, now, renew, base);
        With(s, id, p.(partition := partition, flight := Some(Flight(decision.work, renew, now, None))))
      case CallStore(id, now) =>
        var (row, answer) := StoreCall(s.row, p, p.flight.value.work, now);
        var called := if p.flight.value.work.needsLease then Ticked(p, now) else p;
        With(WithLease(s, row, now), id, called.(flight := Some(p.flight.value.(answer := Some(answer)))))
      case Reread(id, held) =>
        With(s, id, p.(flight := Some(p.flight.value.(answer := Some(if held then LeaseHeldByOther else NoAnswer)))))
      case FinishTransition(id) => With(s, id, p.(partition := Finished(p), flight := None))
      case DropTransition(id) => With(s, id, p.(partition := Dropped(p), flight := None))
      case Accept(id, count, now) =>
        var range := Allocate(p.partition.alloc, count).value;
        var partition := p.partition.(
          alloc := AfterAllocate(p.partition.alloc, count),
          sinceMaintenance := SatAdd(p.partition.sinceMaintenance, count),
          buffer := p.partition.buffer + [Batch(range, p.partition.fence)]);
        With(s, id, p.(partition := partition)).(handedOut := s.handedOut + [range])
      case TakeFlush(id, flush) =>
        var batches := p.partition.buffer;
        var fenced := batches[0].fence.Some? && forall b | b in batches :: b.fence == batches[0].fence;
        With(s, id, p.(partition := p.partition.(buffer := []),
                       flushes := if fenced then p.flushes[flush := batches] else p.flushes))
      case Publish(id, flush, now) =>
        With(s, id, p.(flushes := p.flushes - {flush}))
        .(published := s.published + [Publication(p.flushes[flush][0].fence.value.epoch, Span(p.flushes[flush]))])
      case AbandonFlush(id, flush) => With(s, id, p.(flushes := p.flushes - {flush}))
      case BeginDrain(id) => With(s, id, p.(partition := p.partition.(draining := true)))
      case EndDrain(id) => With(s, id, p.(partition := p.partition.(draining := false)))
      case BeginRelease(id) => With(s, id, p.(releasing := true, partition := p.partition.(draining := true)))
      case DrainHeartbeat(id, now) =>
        var (row, outcome) := HeartbeatStep(s.row, p.caller, now, p.duration, SequenceProgress(p.partition.alloc));
        var expiry := if outcome.Renewed? then Some(outcome.lease.expiresAt) else p.partition.expiry;
        With(WithLease(s, row, now), id, Ticked(p, now).(partition := p.partition.(expiry := expiry)))
      case Release(id, now, reported, rewritesExpired) =>
        var row := ReleasedRow(s.row, p, now, rewritesExpired);
        var cleared := ResetSequenceAllocation(p.partition).(expiry := None, fence := None);
        With(WithLease(s, row, now), id,
             if reported then Ticked(p, now).(partition := cleared, releasing := false) else Ticked(p, now))
  }

  // ---------------------------------------------------------------------------------------------
  // Runs
  // ---------------------------------------------------------------------------------------------

  /** Every action of the run is enabled when its turn comes. */
  predicate IsRun(run: seq<Action>)
    decreases |run|, 0
  {
    run == [] || (IsRun(run[..|run| - 1]) && Enabled(After(run[..|run| - 1]), run[|run| - 1]))
  }

  function After(run: seq<Action>): System
    requires IsRun(run)
    decreases |run|, 1
  {
    if run == [] then INITIAL else Next(After(run[..|run| - 1]), run[|run| - 1])
  }

  lemma Extend(run: seq<Action>, a: Action)
    requires IsRun(run) && Enabled(After(run), a)
    ensures IsRun(run + [a]) && After(run + [a]) == Next(After(run), a)
  {
  }
}
