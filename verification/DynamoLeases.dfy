/**
 The lease row as DynamoDB conditional updates. Attributes are unbounded numbers and may be absent;
 every update expression reads the attribute values from before the update.
 */
module DynamoLeases {
  import opened Numeric
  import opened LeaseStore

  datatype Item = Item(
    holder: string,
    epoch: nat,
    session: string,
    expires: int,
    ttl: int,
    maxSeq: Option<int>,
    sequenceStart: Option<int>,
    lastHandedOut: Option<int>,
    progressUpdated: Option<int>)

  // ---------------------------------------------------------------------------------------------
  // Reading an item
  // ---------------------------------------------------------------------------------------------

  predicate IsU64(value: Option<int>) {
    value.Some? ==> 0 <= value.value <= U64_MAX
  }

  /** The item deserializes: every number that must be a `u64` is one. */
  predicate Decodable(item: Item) {
    item.epoch <= U64_MAX && IsU64(item.maxSeq) && IsU64(item.sequenceStart) && IsU64(item.lastHandedOut)
  }

  function ToU64(value: Option<int>): Option<u64>
    requires IsU64(value)
  {
    if value.Some? then Some(value.value) else None
  }

  function ToLease(item: Item): Lease
    requires Decodable(item)
  {
    Lease(Fence(item.holder, item.epoch, item.session), item.expires, ToU64(item.maxSeq), ToU64(item.sequenceStart),
          ToU64(item.lastHandedOut), item.progressUpdated)
  }

  ghost predicate Stored(row: Option<Item>) {
    row.Some? ==> Decodable(row.value)
  }

  function ToRow(row: Option<Item>): Option<Lease>
    requires Stored(row)
  {
    if row.Some? then Some(ToLease(row.value)) else None
  }

  // ---------------------------------------------------------------------------------------------
  // Update expressions and conditions
  // ---------------------------------------------------------------------------------------------

  /** `if_not_exists(attribute, default)` */
  function IfNotExists(attribute: Option<int>, default: int): int {
    if attribute.Some? then attribute.value else default
  }

  /** `attribute_not_exists(max) OR max <= u64::MAX - size`, required only of a reserving update. */
  predicate IsReservable(maxSeq: Option<int>, size: Option<u64>) {
    size.None? || maxSeq.None? || maxSeq.value <= U64_MAX - size.value
  }

  function AdvanceMax(maxSeq: Option<int>, size: Option<u64>): Option<int> {
    if size.Some? then Some(IfNotExists(maxSeq, -1) + size.value) else maxSeq
  }

  /** The progress clauses: set, derive from the pre-update maximum, or remove. */
  function SequenceProgressUpdate(item: Item, oldMax: Option<int>, progress: Progress, reserves: bool, now: int): Item {
    item.(
      progressUpdated := Some(now),
      sequenceStart :=
        if progress.sequenceStart.Some? then Some(progress.sequenceStart.value)
        else if reserves then Some(IfNotExists(oldMax, -1) + 1)
        else None,
      lastHandedOut := if progress.lastHandedOut.Some? then Some(progress.lastHandedOut.value) else None)
  }

  predicate HoldsLive(row: Option<Item>, caller: Caller, now: int) {
    row.Some? && row.value.holder == caller.holder && row.value.session == caller.session && row.value.expires > now
  }

  predicate RenewalCondition(row: Option<Item>, request: AcquireRequest) {
    HoldsLive(row, request.caller, request.now) && IsReservable(row.value.maxSeq, request.size)
  }

  function RenewalUpdate(item: Item, request: AcquireRequest, ttl: int): Item {
    SequenceProgressUpdate(
      item.(expires := request.now + request.duration, ttl := ttl, maxSeq := AdvanceMax(item.maxSeq, request.size)),
      item.maxSeq, request.progress, request.size.Some?, request.now)
  }

  predicate ClaimCondition(row: Option<Item>, request: AcquireRequest) {
    && (row.None? || row.value.expires <= request.now)
    && (row.None? || IsReservable(row.value.maxSeq, request.size))
  }

  function ClaimUpdate(row: Option<Item>, request: AcquireRequest, ttl: int): Item {
    var oldMax := if row.Some? then row.value.maxSeq else None;
    var oldEpoch := if row.Some? then row.value.epoch else 0;
    SequenceProgressUpdate(
      Item(request.caller.holder, oldEpoch + 1, request.caller.session, request.now + request.duration, ttl,
           AdvanceMax(oldMax, request.size), None, None, None),
      oldMax, request.progress, request.size.Some?, request.now)
  }

  // ---------------------------------------------------------------------------------------------
  // Ranges recovered from responses
  // ---------------------------------------------------------------------------------------------

  function ReservationFromOld(oldMax: Option<u64>, size: u64): Result<SeqRange> {
    var start := if oldMax.Some? then oldMax.value + 1 else 0;
    if start > U64_MAX || start + SatSub(size, 1) > U64_MAX then Err else Ok(SeqRange(start, start + SatSub(size, 1)))
  }

  function ReservationFromNewMax(newMax: u64, size: u64): Result<SeqRange> {
    if newMax < SatSub(size, 1) then Err else Ok(SeqRange(newMax - SatSub(size, 1), newMax))
  }

  predicate ReservationWouldOverflow(lease: Lease, caller: Caller, now: int, size: Option<u64>) {
    && size.Some?
    && OwnedBy(lease, caller)
    && lease.expiresAt > now
    && lease.maxAllocated.Some?
    && lease.maxAllocated.value > U64_MAX - size.value
  }

  /** Decode the updated item returned by a renewal or a claim. */
  function CompleteAcquire(item: Item, size: Option<u64>): AcquireOutcome {
    if !Decodable(item) then
      AcquireFailed
    else
      var lease := ToLease(item);
      if size.None? then
        Acquired(lease, None)
      else if lease.maxAllocated.None? then
        AcquireFailed
      else
        match ReservationFromNewMax(lease.maxAllocated.value, size.value)
        case Ok(range) => Acquired(lease, Some(range))
        case Err => AcquireFailed
  }

  // ---------------------------------------------------------------------------------------------
  // Agreement with the in-memory store, one conditional update at a time
  // ---------------------------------------------------------------------------------------------

  /** The two ways of recovering a reserved range are inverse views of the same update. */
  lemma RangesAgree(maxSeq: Option<u64>, size: u64)
    requires size > 0
    ensures ReservationFromOld(maxSeq, size) == ReserveRange(maxSeq, size)
    ensures ReserveRange(maxSeq, size).Ok? <==> IsReservable(maxSeq, Some(size))
    ensures ReserveRange(maxSeq, size).Ok? ==>
              && 0 <= AdvanceMax(maxSeq, Some(size)).value <= U64_MAX
              && ReservationFromNewMax(AdvanceMax(maxSeq, Some(size)).value, size) == ReserveRange(maxSeq, size)
  {
  }

  /** A renewal that passes its condition does what the in-memory store does to that row. */
  lemma RenewalMatches(item: Item, request: AcquireRequest, ttl: int)
    requires Decodable(item) && request.size != Some(0)
    requires RenewalCondition(Some(item), request)
    ensures var item' := RenewalUpdate(item, request, ttl);
            && Decodable(item')
            && CompleteAcquire(item', request.size).Acquired?
            && AcquireStep(Some(ToLease(item)), request) == (Some(ToLease(item')), CompleteAcquire(item', request.size))
  {
  }

  /**
   Where the two stores part ways on a claim: the in-memory store counts a lease that is born
   expired as a second takeover, and it refuses an epoch that DynamoDB stores beyond `u64`.
   */
  predicate ClaimIsPortable(row: Option<Item>, request: AcquireRequest) {
    if row.None? then request.duration > 0 else row.value.epoch < U64_MAX
  }

  /** A claim that passes its condition matches the in-memory store exactly when it is portable. */
  lemma ClaimMatchesIffPortable(row: Option<Item>, request: AcquireRequest, ttl: int)
    requires Stored(row) && request.size != Some(0)
    requires ClaimCondition(row, request)
    ensures var item' := ClaimUpdate(row, request, ttl);
            ClaimIsPortable(row, request) <==>
              && Decodable(item')
              && AcquireStep(ToRow(row), request) == (Some(ToLease(item')), CompleteAcquire(item', request.size))
    ensures ClaimIsPortable(row, request) ==> CompleteAcquire(ClaimUpdate(row, request, ttl), request.size).Acquired?
  {
  }

  /** Neither condition holds exactly when the in-memory store would leave the row alone. */
  lemma BothRefuseTogether(row: Option<Item>, request: AcquireRequest)
    requires Stored(row) && request.size != Some(0) && ClaimIsPortable(row, request)
    ensures !RenewalCondition(row, request) && !ClaimCondition(row, request)
       <==> !AcquireStep(ToRow(row), request).1.Acquired?
  {
  }

  /** The overflow report after two refusals is the in-memory store's overflow on a live own lease. */
  lemma OverflowReportIsExact(item: Item, request: AcquireRequest)
    requires Decodable(item) && request.size != Some(0)
    requires HoldsLive(Some(item), request.caller, request.now)
    ensures ReservationWouldOverflow(ToLease(item), request.caller, request.now, request.size)
       <==> AcquireStep(Some(ToLease(item)), request) == (Some(ToLease(item)), AcquireFailed)
  {
  }

  /** What is reported of the row that a read shows after both updates were refused. */
  function AcquireRefusal(seen: Option<Item>, request: AcquireRequest): AcquireOutcome
    requires Stored(seen)
  {
    if seen.None? || ReservationWouldOverflow(ToLease(seen.value), request.caller, request.now, request.size)
    then AcquireFailed
    else HeldByOther(ToLease(seen.value))
  }

  /**
   Read from the row that refused it, the refusal is the in-memory store's exactly when that row is live.
   An expired row without room is reported as held by another, where the in-memory store reports the overflow.
   */
  lemma AcquireRefusalMatchesIffLive(row: Option<Item>, request: AcquireRequest)
    requires Stored(row) && request.size != Some(0) && ClaimIsPortable(row, request)
    requires !RenewalCondition(row, request) && !ClaimCondition(row, request)
    ensures row.Some? && AcquireStep(ToRow(row), request).0 == ToRow(row)
    ensures AcquireStep(ToRow(row), request).1 == AcquireRefusal(row, request) <==> row.value.expires > request.now
  {
  }

  /** Such a row: expired, and one number short of what is asked. */
  lemma ExpiredRowWithoutRoom()
    ensures var item := Item("b", 3, "b-session", 100, 0, Some(U64_MAX - 9), None, None, None);
            var request := AcquireRequest(Caller("a", "a-session"), 200, 10, Some(10), Progress(None, None));
            && Decodable(item) && !RenewalCondition(Some(item), request) && !ClaimCondition(Some(item), request)
            && AcquireRefusal(Some(item), request) == HeldByOther(ToLease(item))
            && AcquireStep(Some(ToLease(item)), request).1 == AcquireFailed
  {
  }

  function ReserveUpdate(item: Item, size: u64, progress: Progress, now: int): Item {
    SequenceProgressUpdate(item.(maxSeq := AdvanceMax(item.maxSeq, Some(size))), item.maxSeq, progress, true, now)
  }

  /** A reservation that passes its condition does what the in-memory store does to that row. */
  lemma ReserveMatches(item: Item, caller: Caller, now: int, size: u64, progress: Progress)
    requires Decodable(item) && size > 0
    requires HoldsLive(Some(item), caller, now) && IsReservable(item.maxSeq, Some(size))
    ensures var item' := ReserveUpdate(item, size, progress, now);
            var range := ReservationFromOld(ToU64(item.maxSeq), size);
            && Decodable(item') && range.Ok?
            && ReserveStep(Some(ToLease(item)), caller, now, size, progress)
               == (Some(ToLease(item')), Reserved(range.value, ToLease(item')))
  {
    RangesAgree(ToU64(item.maxSeq), size);
  }

  /** What is reported of the row after a refused reservation. */
  function ReserveRefusal(row: Option<Item>, caller: Caller, now: int, size: u64): ReserveOutcome
    requires Stored(row)
  {
    if row.None? then
      ReserveExpired
    else if ReservationWouldOverflow(ToLease(row.value), caller, now, Some(size)) then
      ReserveFailed
    else if row.value.expires <= now then
      ReserveExpired
    else
      ReserveHeldByOther(ToLease(row.value))
  }

  /** A refused reservation is one the in-memory store refuses, for the same reason. */
  lemma ReserveRefusalMatches(row: Option<Item>, caller: Caller, now: int, size: u64, progress: Progress)
    requires Stored(row) && size > 0 && !(HoldsLive(row, caller, now) && IsReservable(row.value.maxSeq, Some(size)))
    ensures ReserveStep(ToRow(row), caller, now, size, progress) == (ToRow(row), ReserveRefusal(row, caller, now, size))
  {
    if row.Some? {
      RangesAgree(ToU64(row.value.maxSeq), size);
    }
  }

  function ReleaseUpdate(item: Item, ttl: int, progress: Progress, now: int): Item {
    SequenceProgressUpdate(item.(expires := now, ttl := ttl), item.maxSeq, progress, false, now)
  }

  /** The two stores release alike exactly when the lease is not the caller's own expired one. */
  lemma ReleasesAgreeIff(row: Option<Lease>, caller: Caller, now: int, progress: Progress)
    ensures OwnReleaseStep(row, caller, now, progress) == ReleaseStep(row, caller, now, progress)
       <==> !(row.Some? && OwnedBy(row.value, caller) && IsExpired(row.value, now))
  {
  }

  // ---------------------------------------------------------------------------------------------
  // The store
  // ---------------------------------------------------------------------------------------------

  class DynamoLeaseStore {
    var items: map<Key, Item>
    const ttlBuffer: int

    constructor (buffer: int)
      ensures items == map[] && ttlBuffer == buffer
    {
      items := map[];
      ttlBuffer := buffer;
    }

    ghost predicate Valid()
      reads this
    {
      forall key | key in items :: Decodable(items[key])
    }

    /** Whole seconds of the expiry, truncated toward zero, plus the configured buffer. */
    function TtlEpochSeconds(expires: int): int {
      (if expires >= 0 then expires / 1000 else -(-expires / 1000)) + ttlBuffer
    }

    /** Another writer leaves this row, or none, under the key. */
    method Interfere(key: Key, row: Option<Item>)
      requires Valid() && Stored(row)
      modifies this
      ensures Valid() && RowAt(items, key) == row && items - {key} == old(items) - {key}
    {
      items := if row.Some? then items[key := row.value] else items - {key};
    }

    /**
     Renewal, then claim, then a read that may be stale. Other writers may leave `atClaim` between the
     two conditional updates, and the read shows `seen`. Whichever update passes its condition does to the
     row of that moment, and answers, what the in-memory store would; a refused request changes nothing.
     */
    method AcquireLeaseAndReserve(key: Key, request: AcquireRequest, atClaim: Option<Item>, seen: Option<Item>)
      returns (outcome: AcquireOutcome, ghost renewed: bool, ghost claimed: bool)
      requires Valid() && Stored(atClaim) && Stored(seen)
      modifies this
      ensures items - {key} == old(items) - {key}
      ensures renewed <==> request.size != Some(0) && RenewalCondition(RowAt(old(items), key), request)
      ensures claimed <==> request.size != Some(0) && !renewed && ClaimCondition(atClaim, request)
      ensures renewed ==>
                && Valid() && outcome.Acquired?
                && (ToRow(RowAt(items, key)), outcome) == AcquireStep(ToRow(RowAt(old(items), key)), request)
      ensures claimed && ClaimIsPortable(atClaim, request) ==>
                && Valid() && outcome.Acquired?
                && (ToRow(RowAt(items, key)), outcome) == AcquireStep(ToRow(atClaim), request)
      ensures !renewed && !claimed ==>
                && !outcome.Acquired?
                && RowAt(items, key) == if request.size == Some(0) then RowAt(old(items), key) else atClaim
      ensures request.size != Some(0) && !renewed && !claimed ==>
                && (outcome.HeldByOther? ==> seen.Some? && outcome.current == ToLease(seen.value))
                && (outcome.AcquireFailed? <==>
                      || seen.None?
                      || (&& seen.value.holder == request.caller.holder && seen.value.session == request.caller.session
                          && seen.value.expires > request.now && request.size.Some?
                          && seen.value.maxSeq.Some? && seen.value.maxSeq.value + request.size.value > U64_MAX))
      ensures request.size != Some(0) && !renewed && !claimed && seen == atClaim && ClaimIsPortable(atClaim, request)
              && !RenewalCondition(atClaim, request) ==>
                (outcome == AcquireStep(ToRow(atClaim), request).1 <==> atClaim.Some? && atClaim.value.expires > request.now)
    {
      renewed, claimed := false, false;
      if request.size == Some(0) {
        return AcquireFailed, false, false;
      }
      var row := RowAt(items, key);
      var ttl := TtlEpochSeconds(request.now + request.duration);
      if RenewalCondition(row, request) {
        RenewalMatches(row.value, request, ttl);
        items := items[key := RenewalUpdate(row.value, request, ttl)];
        return CompleteAcquire(items[key], request.size), true, false;
      }
      Interfere(key, atClaim);
      if ClaimCondition(atClaim, request) {
        ClaimMatchesIffPortable(atClaim, request, ttl);
        items := items[key := ClaimUpdate(atClaim, request, ttl)];
        return CompleteAcquire(items[key], request.size), false, true;
      }
      outcome := AcquireRefusal(seen, request);
      if ClaimIsPortable(atClaim, request) && !RenewalCondition(atClaim, request) {
        AcquireRefusalMatchesIffLive(atClaim, request);
      }
    }

    method HeartbeatLease(key: Key, caller: Caller, now: int, duration: int, progress: Progress, seen: Option<Item>)
      returns (outcome: HeartbeatOutcome)
      requires Valid() && Stored(seen)
      modifies this
      ensures Valid()
      ensures items - {key} == old(items) - {key}
      ensures ToRow(RowAt(items, key)) == HeartbeatStep(ToRow(RowAt(old(items), key)), caller, now, duration, progress).0
      ensures outcome.Renewed? || seen == RowAt(old(items), key) ==>
                outcome == HeartbeatStep(ToRow(RowAt(old(items), key)), caller, now, duration, progress).1
      ensures outcome.Renewed? <==> HoldsLive(RowAt(old(items), key), caller, now)
      ensures !outcome.Renewed? ==> items == old(items)
    {
      var row := RowAt(items, key);
      if HoldsLive(row, caller, now) {
        items := items[key := SequenceProgressUpdate(
          row.value.(expires := now + duration, ttl := TtlEpochSeconds(now + duration)),
          row.value.maxSeq, progress, false, now)];
        outcome := Renewed(ToLease(items[key]));
      } else if seen.None? || seen.value.expires <= now {
        outcome := HeartbeatExpired;
      } else {
        outcome := HeartbeatHeldByOther(ToLease(seen.value));
      }
    }

    method ReserveSequences(key: Key, caller: Caller, now: int, size: u64, progress: Progress, seen: Option<Item>)
      returns (outcome: ReserveOutcome)
      requires Valid() && Stored(seen)
      modifies this
      ensures Valid()
      ensures items - {key} == old(items) - {key}
      ensures ToRow(RowAt(items, key)) == ReserveStep(ToRow(RowAt(old(items), key)), caller, now, size, progress).0
      ensures outcome.Reserved? || seen == RowAt(old(items), key) ==>
                outcome == ReserveStep(ToRow(RowAt(old(items), key)), caller, now, size, progress).1
      ensures outcome.Reserved? <==> ReserveStep(ToRow(RowAt(old(items), key)), caller, now, size, progress).1.Reserved?
      ensures !outcome.Reserved? ==> items == old(items)
    {
      if size == 0 {
        return ReserveFailed;
      }
      var row := RowAt(items, key);
      if HoldsLive(row, caller, now) && IsReservable(row.value.maxSeq, Some(size)) {
        ReserveMatches(row.value, caller, now, size, progress);
        items := items[key := ReserveUpdate(row.value, size, progress, now)];
        outcome := Reserved(ReservationFromOld(ToU64(row.value.maxSeq), size).value, ToLease(items[key]));
      } else {
        ReserveRefusalMatches(row, caller, now, size, progress);
        outcome := ReserveRefusal(seen, caller, now, size);
      }
    }

    method ReleaseLease(key: Key, caller: Caller, now: int, progress: Progress, seen: Option<Item>)
      returns (outcome: ReleaseOutcome)
      requires Valid() && Stored(seen)
      modifies this
      ensures Valid()
      ensures items - {key} == old(items) - {key}
      ensures ToRow(RowAt(items, key)) == OwnReleaseStep(ToRow(RowAt(old(items), key)), caller, now, progress).0
      ensures outcome.Released? || seen == RowAt(old(items), key) ==>
                outcome == OwnReleaseStep(ToRow(RowAt(old(items), key)), caller, now, progress).1
      ensures outcome.Released? <==> OwnReleaseStep(ToRow(RowAt(old(items), key)), caller, now, progress).1.Released?
      ensures !outcome.Released? ==> items == old(items)
    {
      var row := RowAt(items, key);
      if row.Some? && row.value.holder == caller.holder && row.value.session == caller.session {
        items := items[key := ReleaseUpdate(row.value, TtlEpochSeconds(now), progress, now)];
        outcome := Released;
      } else if seen.None? || seen.value.expires <= now {
        outcome := ReleaseExpired;
      } else {
        outcome := ReleaseHeldByOther(ToLease(seen.value));
      }
    }
  }
}
