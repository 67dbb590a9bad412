/**
 The broker-local Hi-Lo allocator: numbers are handed out in order from one reserved range, which a new
 range extends or replaces.
 */
module Allocation {
  import opened Numeric
  import opened LeaseStore

  // ---------------------------------------------------------------------------------------------
  // The sequence allocator
  // ---------------------------------------------------------------------------------------------

  datatype Allocator = Allocator(reservation: Option<SeqRange>, next: u64, last: Option<u64>)

  const EMPTY_ALLOCATOR := Allocator(None, 0, None)

  predicate CanAllocate(a: Allocator, count: u64) {
    && a.reservation.Some?
    && count != 0
    && SatAdd(a.next, SatSub(count, 1)) <= a.reservation.value.end
  }

  /** The range handed out, or `None`; the allocator state afterwards is `AfterAllocate`. */
  function Allocate(a: Allocator, count: u64): Option<SeqRange> {
    if CanAllocate(a, count) && a.next + SatSub(count, 1) <= U64_MAX
    then Some(SeqRange(a.next, a.next + SatSub(count, 1)))
    else None
  }

  function AfterAllocate(a: Allocator, count: u64): Allocator {
    match Allocate(a, count)
    case Some(range) => a.(next := SatAdd(range.end, 1), last := Some(range.end))
    case None => a
  }

  function Install(a: Allocator, range: SeqRange): Allocator {
    if a.reservation.Some? && a.reservation.value.end < U64_MAX && range.start == a.reservation.value.end + 1
    then a.(reservation := Some(a.reservation.value.(end := range.end)))
    else a.(next := range.start, reservation := Some(range))
  }

  function RemainingCapacity(a: Allocator): u64 {
    if a.reservation.Some? && a.reservation.value.end >= a.next
    then SatAdd(a.reservation.value.end - a.next, 1)
    else 0
  }

  function SequenceProgress(a: Allocator): Progress {
    Progress(if a.reservation.Some? then Some(a.reservation.value.start) else None, a.last)
  }

  /** The numbers the allocator may still hand out. */
  predicate IsFree(a: Allocator, s: nat) {
    a.reservation.Some? && a.next <= s <= a.reservation.value.end
  }

  predicate InRange(range: SeqRange, s: nat) {
    range.start <= s <= range.end
  }

  /** The next number is inside the reservation or just past it. */
  predicate WellFormed(a: Allocator) {
    a.reservation.Some? ==> a.next <= a.reservation.value.end + 1
  }

  class SeqAllocator {
    var reservation: Option<SeqRange>
    var nextSeq: u64
    var lastHandedOutSeq: Option<u64>

    function View(): Allocator
      reads this
    {
      Allocator(reservation, nextSeq, lastHandedOutSeq)
    }

    constructor ()
      ensures View() == EMPTY_ALLOCATOR
    {
      reservation, nextSeq, lastHandedOutSeq := None, 0, None;
    }

    /** Consumes exactly the returned numbers, except that `u64::MAX` is never consumed. */
    method AllocateRange(count: u64) returns (range: Option<SeqRange>)
      modifies this
      ensures range == Allocate(old(View()), count)
      ensures View() == AfterAllocate(old(View()), count)
      ensures range.Some? <==>
                old(reservation).Some? && 1 <= count && old(nextSeq) + count - 1 <= old(reservation).value.end
      ensures range.Some? ==>
                && range.value.start == old(nextSeq) && range.value.end == old(nextSeq) + count - 1
                && lastHandedOutSeq == Some(range.value.end)
      ensures range.None? ==> View() == old(View())
      ensures reservation == old(reservation)
      ensures forall s: nat :: s < U64_MAX ==>
                (IsFree(View(), s) <==> IsFree(old(View()), s) && !(range.Some? && InRange(range.value, s)))
    {
      if !CanAllocate(View(), count) {
        return None;
      }
      var start := nextSeq;
      if start + SatSub(count, 1) > U64_MAX {
        return None;
      }
      var end := start + SatSub(count, 1);
      nextSeq := SatAdd(end, 1);
      lastHandedOutSeq := Some(end);
      range := Some(SeqRange(start, end));
    }

    /** Adjacent ranges extend the reservation; anything else replaces it and abandons the rest. */
    method InstallOrExtendReservation(range: SeqRange)
      requires WellFormed(View()) && range.start <= range.end
      modifies this
      ensures View() == Install(old(View()), range)
      ensures WellFormed(View())
      ensures reservation.Some? && reservation.value.end == range.end && lastHandedOutSeq == old(lastHandedOutSeq)
      ensures forall s: nat :: IsFree(View(), s) <==>
                InRange(range, s)
                || (IsFree(old(View()), s) && range.start == old(reservation).value.end + 1)
    {
      if reservation.None? {
        nextSeq := range.start;
        reservation := Some(range);
        return;
      }
      if reservation.value.end < U64_MAX && range.start == reservation.value.end + 1 {
        reservation := Some(reservation.value.(end := range.end));
        return;
      }
      nextSeq := range.start;
      reservation := Some(range);
    }
  }

  // ---------------------------------------------------------------------------------------------
  // A reservation hands out every number at most once, unless it ends at u64::MAX
  // ---------------------------------------------------------------------------------------------

  /** The ranges handed out for a sequence of batch sizes; refused batches hand out nothing. */
  function HandedOut(a: Allocator, counts: seq<u64>): seq<SeqRange>
    decreases |counts|
  {
    if counts == [] then
      []
    else
      var rest := HandedOut(AfterAllocate(a, counts[0]), counts[1..]);
      match Allocate(a, counts[0])
      case Some(range) => [range] + rest
      case None => rest
  }

  ghost predicate NoNumberTwice(ranges: seq<SeqRange>) {
    forall i, j, s: nat | 0 <= i < j < |ranges| && InRange(ranges[i], s) :: !InRange(ranges[j], s)
  }

  lemma {:induction false} HandedOutIsIncreasing(a: Allocator, counts: seq<u64>)
    requires a.reservation.Some? && a.reservation.value.end < U64_MAX
    ensures forall i | 0 <= i < |HandedOut(a, counts)| ::
              a.next <= HandedOut(a, counts)[i].start <= HandedOut(a, counts)[i].end <= a.reservation.value.end
    ensures NoNumberTwice(HandedOut(a, counts))
    decreases |counts|
  {
    if counts != [] {
      HandedOutIsIncreasing(AfterAllocate(a, counts[0]), counts[1..]);
    }
  }

  /** The exact condition under which no run of batches receives a number twice. */
  lemma ReservationIsHandedOutOnceIff(range: SeqRange)
    requires range.start <= range.end
    ensures (forall counts :: NoNumberTwice(HandedOut(Install(EMPTY_ALLOCATOR, range), counts))) <==> range.end < U64_MAX
  {
    var a := Install(EMPTY_ALLOCATOR, range);
    if range.end < U64_MAX {
      forall counts
        ensures NoNumberTwice(HandedOut(a, counts))
      {
        HandedOutIsIncreasing(a, counts);
      }
    } else {
      var all: u64 := Min(range.end - range.start + 1, U64_MAX);
      var counts := [all, 1, 1];
      LastNumberTwice(range, all);
      assert !NoNumberTwice(HandedOut(a, counts));
    }
  }

  /** A reservation that ends at `u64::MAX` hands that number to two batches. */
  lemma {:induction false} LastNumberTwice(range: SeqRange, all: u64)
    requires range.start <= range.end == U64_MAX
    requires all == Min(range.end - range.start + 1, U64_MAX)
    ensures !NoNumberTwice(HandedOut(Install(EMPTY_ALLOCATOR, range), [all, 1, 1]))
  {
    var a := Install(EMPTY_ALLOCATOR, range);
    var b := AfterAllocate(a, all);
    var c := AfterAllocate(b, 1);
    assert [all, 1, 1][1..] == [1, 1] && [1, 1][1..] == [1] && [1][1..] == [];
    assert b.next == U64_MAX && c.next == U64_MAX;
    assert HandedOut(c, [1]) == [SeqRange(U64_MAX, U64_MAX)] + HandedOut(AfterAllocate(c, 1), []);
    assert HandedOut(b, [1, 1]) == [SeqRange(U64_MAX, U64_MAX)] + HandedOut(c, [1]);
    var ranges := HandedOut(a, [all, 1, 1]);
    assert ranges == [Allocate(a, all).value] + HandedOut(b, [1, 1]);
    assert InRange(ranges[1], U64_MAX) && InRange(ranges[2], U64_MAX);
  }
}
