/**
 The producer-partition lease row: what each store operation does to it, and the in-memory store.
 */
module LeaseStore {
  import opened Numeric

  /** The most leases one metadata transaction can check. */
  const MAX_FENCED_METADATA_PARTITIONS: nat := 99

  datatype SeqRange = SeqRange(start: u64, end: u64)

  datatype Fence = Fence(holder: string, epoch: u64, session: string)

  datatype Progress = Progress(sequenceStart: Option<u64>, lastHandedOut: Option<u64>)

  datatype Lease = Lease(
    fence: Fence,
    expiresAt: int,
    maxAllocated: Option<u64>,
    sequenceStart: Option<u64>,
    lastHandedOut: Option<u64>,
    progressUpdatedAt: Option<int>)

  datatype Caller = Caller(holder: string, session: string)

  datatype AcquireRequest = AcquireRequest(
    caller: Caller,
    now: int,
    duration: int,
    size: Option<u64>,
    progress: Progress)

  datatype AcquireOutcome =
    | Acquired(lease: Lease, reservation: Option<SeqRange>)
    | HeldByOther(current: Lease)
    | AcquireFailed

  datatype HeartbeatOutcome = Renewed(lease: Lease) | HeartbeatHeldByOther(current: Lease) | HeartbeatExpired

  datatype ReserveOutcome =
    | Reserved(range: SeqRange, lease: Lease)
    | ReserveHeldByOther(current: Lease)
    | ReserveExpired
    | ReserveFailed

  datatype ReleaseOutcome = Released | ReleaseHeldByOther(current: Lease) | ReleaseExpired

  function OrElse<T>(a: Option<T>, b: Option<T>): Option<T> {
    if a.Some? then a else b
  }

  // ---------------------------------------------------------------------------------------------
  // Row steps of the in-memory store
  // ---------------------------------------------------------------------------------------------

  /** The durable high-water mark, with -1 for "nothing reserved yet". */
  function HighWater(row: Option<Lease>): int {
    if row.Some? && row.value.maxAllocated.Some? then row.value.maxAllocated.value else -1
  }

  predicate IsExpired(lease: Lease, now: int) {
    now >= lease.expiresAt
  }

  predicate OwnedBy(lease: Lease, caller: Caller) {
    lease.fence.holder == caller.holder && lease.fence.session == caller.session
  }

  function ReserveRange(current: Option<u64>, size: u64): Result<SeqRange> {
    var start := if current.Some? then current.value + 1 else 0;
    if start > U64_MAX || start + SatSub(size, 1) > U64_MAX then Err else Ok(SeqRange(start, start + SatSub(size, 1)))
  }

  function AcquireStep(row: Option<Lease>, request: AcquireRequest): (Option<Lease>, AcquireOutcome) {
    if request.size == Some(0) then
      (row, AcquireFailed)
    else
      var expiresAt := request.now + request.duration;
      var state :=
        if row.Some? then row.value
        else Lease(Fence(request.caller.holder, 1, request.caller.session), expiresAt, None, None, None, None);
      if !IsExpired(state, request.now) && !OwnedBy(state, request.caller) then
        (row, HeldByOther(state))
      else
        var takeover := IsExpired(state, request.now) || state.fence.session != request.caller.session;
        if takeover && state.fence.epoch == U64_MAX then
          (row, AcquireFailed)
        else
          var reserved := if request.size.Some? then ReserveRange(state.maxAllocated, request.size.value) else Err;
          if request.size.Some? && reserved.Err? then
            (row, AcquireFailed)
          else
            var range := if reserved.Ok? then Some(reserved.value) else None;
            var lease := Lease(
              Fence(request.caller.holder,
                    if takeover then state.fence.epoch + 1 else state.fence.epoch,
                    if takeover then request.caller.session else state.fence.session),
              expiresAt,
              if range.Some? then Some(range.value.end) else state.maxAllocated,
              OrElse(request.progress.sequenceStart, if range.Some? then Some(range.value.start) else None),
              request.progress.lastHandedOut,
              Some(request.now));
            (Some(lease), Acquired(lease, range))
  }

  function HeartbeatStep(row: Option<Lease>, caller: Caller, now: int, duration: int, progress: Progress)
    : (Option<Lease>, HeartbeatOutcome)
  {
    if row.None? || IsExpired(row.value, now) then
      (row, HeartbeatExpired)
    else if !OwnedBy(row.value, caller) then
      (row, HeartbeatHeldByOther(row.value))
    else
      var lease := row.value.(
        expiresAt := now + duration,
        sequenceStart := progress.sequenceStart,
        lastHandedOut := progress.lastHandedOut,
        progressUpdatedAt := Some(now));
      (Some(lease), Renewed(lease))
  }

  function ReserveStep(row: Option<Lease>, caller: Caller, now: int, size: u64, progress: Progress)
    : (Option<Lease>, ReserveOutcome)
  {
    if size == 0 then
      (row, ReserveFailed)
    else if row.None? || IsExpired(row.value, now) then
      (row, ReserveExpired)
    else if !OwnedBy(row.value, caller) then
      (row, ReserveHeldByOther(row.value))
    else
      match ReserveRange(row.value.maxAllocated, size)
      case Err => (row, ReserveFailed)
      case Ok(range) =>
        var lease := row.value.(
          maxAllocated := Some(range.end),
          sequenceStart := OrElse(progress.sequenceStart, Some(range.start)),
          lastHandedOut := progress.lastHandedOut,
          progressUpdatedAt := Some(now));
        (Some(lease), Reserved(range, lease))
  }

  function ReleaseStep(row: Option<Lease>, caller: Caller, now: int, progress: Progress)
    : (Option<Lease>, ReleaseOutcome)
  {
    if row.None? || IsExpired(row.value, now) then
      (row, ReleaseExpired)
    else if !OwnedBy(row.value, caller) then
      (row, ReleaseHeldByOther(row.value))
    else
      (Some(row.value.(
         expiresAt := now,
         sequenceStart := progress.sequenceStart,
         lastHandedOut := progress.lastHandedOut,
         progressUpdatedAt := Some(now))),
       Released)
  }

  /** DynamoDB's release asks only for the caller's own lease, so it also rewrites one that has expired. */
  function OwnReleaseStep(row: Option<Lease>, caller: Caller, now: int, progress: Progress)
    : (Option<Lease>, ReleaseOutcome)
  {
    if row.Some? && OwnedBy(row.value, caller) then
      (Some(row.value.(
         expiresAt := now,
         sequenceStart := progress.sequenceStart,
         lastHandedOut := progress.lastHandedOut,
         progressUpdatedAt := Some(now))),
       Released)
    else if row.None? || IsExpired(row.value, now) then
      (row, ReleaseExpired)
    else
      (row, ReleaseHeldByOther(row.value))
  }

  // ---------------------------------------------------------------------------------------------
  // What every caller may rely on
  // ---------------------------------------------------------------------------------------------

  /** A reservation is exactly the next `size` numbers above the old high-water mark. */
  lemma ReserveRangeIsFresh(current: Option<u64>, size: u64)
    requires size > 0
    ensures var before := if current.Some? then current.value as int else -1;
            match ReserveRange(current, size)
            case Ok(range) => range.start == before + 1 && range.end == before + size
            case Err => before + size > U64_MAX
  {
  }

  /** The lease epoch of a row, with 0 for an absent row. */
  function Epoch(row: Option<Lease>): nat {
    if row.Some? then row.value.fence.epoch else 0
  }

  /**
   An acquisition never lowers the high-water mark or the epoch; it hands out only fresh numbers;
   it moves to another fence only by raising the epoch, and only over an absent or expired lease.
   */
  lemma AcquireContract(row: Option<Lease>, request: AcquireRequest)
    ensures var (row', outcome) := AcquireStep(row, request);
            && HighWater(row) <= HighWater(row')
            && Epoch(row) <= Epoch(row')
            && (!outcome.Acquired? ==> row' == row)
            && (outcome.Acquired? ==>
                  && row' == Some(outcome.lease)
                  && OwnedBy(outcome.lease, request.caller)
                  && outcome.lease.expiresAt == request.now + request.duration
                  && (outcome.reservation.Some? ==>
                        && outcome.reservation.value.start == HighWater(row) + 1
                        && outcome.reservation.value.end == HighWater(row')
                        && outcome.reservation.value.start <= outcome.reservation.value.end)
                  && (outcome.reservation.None? ==> HighWater(row') == HighWater(row))
                  && (row.Some? && !IsExpired(row.value, request.now) ==> outcome.lease.fence == row.value.fence)
                  && (row.None? || IsExpired(row.value, request.now) ==> Epoch(row) < Epoch(row')))
  {
  }

  /** A reservation leaves fence and expiry alone and hands out only fresh numbers. */
  lemma ReserveContract(row: Option<Lease>, caller: Caller, now: int, size: u64, progress: Progress)
    ensures var (row', outcome) := ReserveStep(row, caller, now, size, progress);
            && (!outcome.Reserved? ==> row' == row)
            && (outcome.Reserved? ==>
                  && row.Some? && row' == Some(outcome.lease)
                  && OwnedBy(row.value, caller)
                  && outcome.lease.fence == row.value.fence
                  && outcome.lease.expiresAt == row.value.expiresAt
                  && outcome.range.start == HighWater(row) + 1
                  && outcome.range.end == HighWater(row')
                  && outcome.range.start <= outcome.range.end)
  {
  }

  // ---------------------------------------------------------------------------------------------
  // The in-memory store
  // ---------------------------------------------------------------------------------------------

  datatype Key = Key(topic: string, virtualPartition: nat)

  function RowAt<T>(rows: map<Key, T>, key: Key): Option<T> {
    if key in rows then Some(rows[key]) else None
  }

  class InMemoryLeaseStore {
    var leases: map<Key, Lease>

    constructor ()
      ensures leases == map[]
    {
      leases := map[];
    }

    method AcquireLeaseAndReserve(key: Key, request: AcquireRequest) returns (outcome: AcquireOutcome)
      modifies this
      ensures (RowAt(leases, key), outcome) == AcquireStep(RowAt(old(leases), key), request)
      ensures leases - {key} == old(leases) - {key}
    {
      if request.size == Some(0) {
        return AcquireFailed;
      }
      var expiresAt := request.now + request.duration;
      if key !in leases {
        leases := leases[key :=
          Lease(Fence(request.caller.holder, 1, request.caller.session), expiresAt, None, None, None, None)];
      }
      var state := leases[key];
      if !IsExpired(state, request.now) && !OwnedBy(state, request.caller) {
        return HeldByOther(state);
      }
      var takeover := IsExpired(state, request.now) || state.fence.session != request.caller.session;
      if takeover && state.fence.epoch == U64_MAX {
        return AcquireFailed;
      }
      var range := None;
      if request.size.Some? {
        var reserved := ReserveRange(state.maxAllocated, request.size.value);
        if reserved.Err? {
          return AcquireFailed;
        }
        range := Some(reserved.value);
      }
      if takeover {
        state := state.(fence := Fence(state.fence.holder, state.fence.epoch + 1, request.caller.session));
      }
      state := state.(fence := Fence(request.caller.holder, state.fence.epoch, state.fence.session), expiresAt := expiresAt);
      if range.Some? {
        state := state.(maxAllocated := Some(range.value.end));
      }
      state := state.(
        sequenceStart := OrElse(request.progress.sequenceStart, if range.Some? then Some(range.value.start) else None),
        lastHandedOut := request.progress.lastHandedOut,
        progressUpdatedAt := Some(request.now));
      leases := leases[key := state];
      outcome := Acquired(state, range);
    }

    method HeartbeatLease(key: Key, caller: Caller, now: int, duration: int, progress: Progress)
      returns (outcome: HeartbeatOutcome)
      modifies this
      ensures (RowAt(leases, key), outcome) == HeartbeatStep(RowAt(old(leases), key), caller, now, duration, progress)
      ensures leases - {key} == old(leases) - {key}
    {
      if key !in leases {
        return HeartbeatExpired;
      }
      var state := leases[key];
      if IsExpired(state, now) {
        return HeartbeatExpired;
      }
      if !OwnedBy(state, caller) {
        return HeartbeatHeldByOther(state);
      }
      state := state.(expiresAt := now + duration);
      state := state.(sequenceStart := progress.sequenceStart);
      state := state.(lastHandedOut := progress.lastHandedOut, progressUpdatedAt := Some(now));
      leases := leases[key := state];
      outcome := Renewed(state);
    }

    method ReserveSequences(key: Key, caller: Caller, now: int, size: u64, progress: Progress)
      returns (outcome: ReserveOutcome)
      modifies this
      ensures (RowAt(leases, key), outcome) == ReserveStep(RowAt(old(leases), key), caller, now, size, progress)
      ensures leases - {key} == old(leases) - {key}
    {
      if size == 0 {
        return ReserveFailed;
      }
      if key !in leases || IsExpired(leases[key], now) {
        return ReserveExpired;
      }
      var state := leases[key];
      if !OwnedBy(state, caller) {
        return ReserveHeldByOther(state);
      }
      var reserved := ReserveRange(state.maxAllocated, size);
      if reserved.Err? {
        return ReserveFailed;
      }
      var range := reserved.value;
      state := state.(maxAllocated := Some(range.end));
      state := state.(sequenceStart := OrElse(progress.sequenceStart, Some(range.start)));
      state := state.(lastHandedOut := progress.lastHandedOut, progressUpdatedAt := Some(now));
      leases := leases[key := state];
      outcome := Reserved(range, state);
    }

    method ReleaseLease(key: Key, caller: Caller, now: int, progress: Progress) returns (outcome: ReleaseOutcome)
      modifies this
      ensures (RowAt(leases, key), outcome) == ReleaseStep(RowAt(old(leases), key), caller, now, progress)
      ensures leases - {key} == old(leases) - {key}
    {
      if key !in leases || IsExpired(leases[key], now) {
        return ReleaseExpired;
      }
      var state := leases[key];
      if !OwnedBy(state, caller) {
        return ReleaseHeldByOther(state);
      }
      state := state.(expiresAt := now, sequenceStart := progress.sequenceStart);
      state := state.(lastHandedOut := progress.lastHandedOut, progressUpdatedAt := Some(now));
      leases := leases[key := state];
      outcome := Released;
    }
  }
}
