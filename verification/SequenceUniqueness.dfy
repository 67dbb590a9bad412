/**
 No sequence number is handed out twice, and none is published twice, over every run of the lease
 protocol. Nothing is assumed about clocks.
 */
module SequenceUniqueness {
  import opened Numeric
  import opened LeaseStore
  import opened Allocation
  import opened Transitions
  import opened LeaseProtocol

  /** Where a sequence number can be. `GivenOut` is history; the others hold it now. */
  datatype Place =
    | GivenOut(index: nat)
    | InAllocator(id: nat)
    | InAnswer(id: nat)
    | InBuffer(id: nat, k: nat)
    | InFlush(id: nat, flush: nat, k: nat)
    | InRow(index: nat)

  predicate At(s: System, place: Place, n: nat) {
    match place
    case GivenOut(i) => i < |s.handedOut| && InRange(s.handedOut[i], n)
    case InAllocator(id) => id in s.processes && IsFree(s.processes[id].partition.alloc, n)
    case InAnswer(id) =>
      && id in s.processes && s.processes[id].flight.Some?
      && RangeOf(s.processes[id].flight.value).Some?
      && InRange(RangeOf(s.processes[id].flight.value).value, n)
    case InBuffer(id, k) =>
      && id in s.processes && k < |s.processes[id].partition.buffer|
      && InRange(s.processes[id].partition.buffer[k].range, n)
    case InFlush(id, flush, k) =>
      && id in s.processes && flush in s.processes[id].flushes && k < |s.processes[id].flushes[flush]|
      && InRange(s.processes[id].flushes[flush][k].range, n)
    case InRow(i) => i < |s.published| && InRange(s.published[i].range, n)
  }

  predicate IsLive(place: Place) {
    place.InBuffer? || place.InFlush? || place.InRow?
  }

  /** A batch in flight is also in the history, so only places of one kind exclude each other. */
  predicate Exclusive(x: Place, y: Place) {
    !(x.GivenOut? && IsLive(y)) && !(IsLive(x) && y.GivenOut?)
  }

  predicate ProcessOk(p: Process) {
    && WellFormed(p.partition.alloc)
    && (p.partition.inFlight <==> p.flight.Some?)
    && (p.flight.Some? && RangeOf(p.flight.value).Some? ==>
          RangeOf(p.flight.value).value.start <= RangeOf(p.flight.value).value.end)
  }

  ghost predicate Placed(s: System) {
    && (forall id | id in s.processes :: ProcessOk(s.processes[id]))
    && (forall x, n: nat | At(s, x, n) :: n <= HighWater(s.row))
    && (forall x, y, n: nat | Exclusive(x, y) && At(s, x, n) && At(s, y, n) && n < U64_MAX :: x == y)
  }

  // ---------------------------------------------------------------------------------------------
  // One lemma per way a number can move
  // ---------------------------------------------------------------------------------------------

  /** A step of one process that only loses numbers. */
  ghost predicate Quiet(s: System, s': System, id: nat) {
    && id in s.processes && id in s'.processes
    && s'.processes == s.processes[id := s'.processes[id]]
    && var p, p' := s.processes[id], s'.processes[id];
    && ProcessOk(p')
    && (p'.partition.alloc == p.partition.alloc || p'.partition.alloc == EMPTY_ALLOCATOR)
    && (p'.flight == p.flight || (p'.flight.Some? && RangeOf(p'.flight.value).None?))
    && (p'.partition.buffer == p.partition.buffer || p'.partition.buffer == [])
    && (forall f | f in p'.flushes :: f in p.flushes && p'.flushes[f] == p.flushes[f])
    && s'.handedOut == s.handedOut && s'.published == s.published
    && HighWater(s.row) <= HighWater(s'.row)
  }

  lemma QuietPlaces(s: System, s': System, id: nat)
    requires Placed(s) && Quiet(s, s', id)
    ensures Placed(s')
  {
    forall x, n: nat | At(s', x, n)
      ensures At(s, x, n)
    {
    }
  }

  /** Every number at `target` in `s'` was at one of `sources` in `s`, and has left it. */
  ghost predicate CameFrom(s: System, s': System, target: Place, sources: set<Place>) {
    forall n: nat | At(s', target, n) :: exists z :: z in sources && At(s, z, n) && (n < U64_MAX ==> !At(s', z, n))
  }

  /** Numbers that move to new places, each from a source they leave, keep at most one place. */
  lemma MovesKeepPlaced(s: System, s': System, targets: set<Place>, sources: set<Place>)
    requires Placed(s)
    requires forall id | id in s'.processes :: ProcessOk(s'.processes[id])
    requires HighWater(s.row) <= HighWater(s'.row)
    requires forall x, n: nat | x !in targets && At(s', x, n) :: At(s, x, n)
    requires forall x | x in targets :: CameFrom(s, s', x, sources)
    requires forall x, y | x in targets && y in targets && Exclusive(x, y) :: x == y
    requires forall x, y, z | x in targets && z in sources && Exclusive(x, y) :: Exclusive(z, y)
    requires targets !! sources
    ensures Placed(s')
  {
    forall x, y, n: nat | x in targets && y !in targets && Exclusive(x, y) && At(s', x, n) && n < U64_MAX
      ensures !At(s', y, n)
    {
      var z :| z in sources && At(s, z, n) && !At(s', z, n);
      assert Exclusive(z, y);
    }
  }

  lemma PopulationPlaces(s: System, a: Action)
    requires Placed(s) && Enabled(s, a) && (a.Start? || a.Crash?)
    ensures Placed(Next(s, a))
  {
    forall x, n: nat | At(Next(s, a), x, n)
      ensures At(s, x, n)
    {
    }
  }

  lemma StoreCallContract(row: Option<Lease>, p: Process, work: Work, now: int)
    ensures var (row', answer) := StoreCall(row, p, work, now);
            && HighWater(row) <= HighWater(row')
            && Epoch(row) <= Epoch(row')
            && (AnsweredRange(answer).Some? ==>
                  && AnsweredRange(answer).value.start == HighWater(row) + 1
                  && AnsweredRange(answer).value.end == HighWater(row')
                  && AnsweredRange(answer).value.start <= AnsweredRange(answer).value.end)
  {
  }

  /** An answer brings fresh numbers to one process. */
  lemma AnswerPlaces(s: System, s': System, id: nat, answer: Answer)
    requires Placed(s) && id in s.processes && s.processes[id].flight.Some?
    requires id in s'.processes && s'.processes == s.processes[id := s'.processes[id]]
    requires var p, p' := s.processes[id], s'.processes[id];
             && p'.partition == p.partition && p'.flushes == p.flushes
             && p'.flight == Some(p.flight.value.(answer := Some(answer)))
    requires s'.handedOut == s.handedOut && s'.published == s.published && HighWater(s.row) <= HighWater(s'.row)
    requires AnsweredRange(answer).Some? ==>
               HighWater(s.row) < AnsweredRange(answer).value.start <= AnsweredRange(answer).value.end <= HighWater(s'.row)
    ensures Placed(s')
  {
    forall x, n: nat | At(s', x, n)
      ensures At(s, x, n) || (x == InAnswer(id) && HighWater(s.row) < n <= HighWater(s'.row))
    {
    }
  }

  lemma CallStorePlaces(s: System, id: nat, now: int)
    requires Placed(s) && Enabled(s, CallStore(id, now))
    ensures Placed(Next(s, CallStore(id, now)))
    ensures HighWater(s.row) <= HighWater(Next(s, CallStore(id, now)).row)
  {
    var s' := Next(s, CallStore(id, now));
    var work := s.processes[id].flight.value.work;
    StoreCallContract(s.row, s.processes[id], work, now);
    assert s'.processes == s.processes[id := s'.processes[id]];
    AnswerPlaces(s, s', id, StoreCall(s.row, s.processes[id], work, now).1);
  }

  /** Only the answered range is added to what the allocator may hand out. */
  ghost predicate Freed(p: Process, partition: Partition)
    requires p.flight.Some?
  {
    && WellFormed(partition.alloc) && !partition.inFlight
    && (partition.buffer == p.partition.buffer || partition.buffer == [])
    && forall n: nat | IsFree(partition.alloc, n) ::
         IsFree(p.partition.alloc, n) || (RangeOf(p.flight.value).Some? && InRange(RangeOf(p.flight.value).value, n))
  }

  lemma FinishFrees(p: Process, partition: Partition)
    requires ProcessOk(p) && p.flight.Some?
    requires partition == Finished(p) || partition == Dropped(p)
    ensures Freed(p, partition)
  {
  }

  lemma FreedMoves(s: System, id: nat, partition: Partition, x: Place, n: nat)
    requires id in s.processes && s.processes[id].flight.Some? && Freed(s.processes[id], partition)
    requires At(With(s, id, s.processes[id].(partition := partition, flight := None)), x, n)
    ensures x != InAnswer(id)
    ensures At(s, x, n) || (x == InAllocator(id) && At(s, InAnswer(id), n))
  {
  }

  lemma FinishPlaces(s: System, id: nat, partition: Partition)
    requires Placed(s) && id in s.processes && s.processes[id].flight.Some?
    requires partition == Finished(s.processes[id]) || partition == Dropped(s.processes[id])
    ensures Placed(With(s, id, s.processes[id].(partition := partition, flight := None)))
  {
    FinishFrees(s.processes[id], partition);
    FreedPlaces(s, id, partition);
  }

  lemma FreedPlaces(s: System, id: nat, partition: Partition)
    requires Placed(s) && id in s.processes && s.processes[id].flight.Some?
    requires Freed(s.processes[id], partition)
    ensures Placed(With(s, id, s.processes[id].(partition := partition, flight := None)))
  {
    var s' := With(s, id, s.processes[id].(partition := partition, flight := None));
    forall x, n: nat | At(s', x, n)
      ensures x != InAnswer(id)
      ensures At(s, x, n) || (x == InAllocator(id) && At(s, InAnswer(id), n))
    {
      FreedMoves(s, id, partition, x, n);
    }
  }

  lemma AcceptMoves(s: System, id: nat, count: u64, now: int, x: Place, n: nat)
    requires Placed(s) && Enabled(s, Accept(id, count, now))
    requires At(Next(s, Accept(id, count, now)), x, n)
    ensures var moved := x == GivenOut(|s.handedOut|) || x == InBuffer(id, |s.processes[id].partition.buffer|);
            && (!moved ==> At(s, x, n))
            && (moved ==> At(s, InAllocator(id), n))
            && (moved && n < U64_MAX ==> !At(Next(s, Accept(id, count, now)), InAllocator(id), n))
  {
  }

  lemma AcceptPlaces(s: System, id: nat, count: u64, now: int)
    requires Placed(s) && Enabled(s, Accept(id, count, now))
    ensures Placed(Next(s, Accept(id, count, now)))
  {
    var s' := Next(s, Accept(id, count, now));
    var targets := {GivenOut(|s.handedOut|), InBuffer(id, |s.processes[id].partition.buffer|)};
    forall x, n: nat | At(s', x, n)
      ensures x !in targets ==> At(s, x, n)
      ensures x in targets ==> At(s, InAllocator(id), n) && (n < U64_MAX ==> !At(s', InAllocator(id), n))
    {
      AcceptMoves(s, id, count, now, x, n);
    }
    assert forall x | x in targets :: CameFrom(s, s', x, {InAllocator(id)});
    MovesKeepPlaced(s, s', targets, {InAllocator(id)});
  }

  lemma TakeFlushMoves(s: System, id: nat, flush: nat, x: Place, n: nat)
    requires Enabled(s, TakeFlush(id, flush)) && At(Next(s, TakeFlush(id, flush)), x, n)
    ensures !(x.InBuffer? && x.id == id)
    ensures At(s, if x.InFlush? && x.id == id && x.flush == flush then InBuffer(id, x.k) else x, n)
  {
  }

  lemma TakeFlushPlaces(s: System, id: nat, flush: nat)
    requires Placed(s) && Enabled(s, TakeFlush(id, flush))
    ensures Placed(Next(s, TakeFlush(id, flush)))
  {
    var s' := Next(s, TakeFlush(id, flush));
    forall x, n: nat | At(s', x, n)
      ensures !(x.InBuffer? && x.id == id)
      ensures At(s, if x.InFlush? && x.id == id && x.flush == flush then InBuffer(id, x.k) else x, n)
    {
      TakeFlushMoves(s, id, flush, x, n);
    }
  }

  /** A contiguous run of batches covers its span. */
  lemma {:induction false} SpanIsCovered(batches: seq<Batch>, n: nat) returns (k: nat)
    requires 0 < |batches| && Contiguous(batches) && InRange(Span(batches), n)
    ensures k < |batches| && InRange(batches[k].range, n)
    decreases |batches|
  {
    if n >= batches[|batches| - 1].range.start {
      k := |batches| - 1;
    } else {
      k := SpanIsCovered(batches[..|batches| - 1], n);
    }
  }

  lemma PublishPlaces(s: System, id: nat, flush: nat, now: int)
    requires Placed(s) && Enabled(s, Publish(id, flush, now))
    ensures Placed(Next(s, Publish(id, flush, now)))
  {
    var s' := Next(s, Publish(id, flush, now));
    var batches := s.processes[id].flushes[flush];
    var row := InRow(|s.published|);
    var sources := set k: nat | k < |batches| :: InFlush(id, flush, k);
    forall n: nat | At(s', row, n)
      ensures exists z :: z in sources && At(s, z, n) && !At(s', z, n)
    {
      var k := SpanIsCovered(batches, n);
      assert InFlush(id, flush, k) in sources;
    }
    MovesKeepPlaced(s, s', {row}, sources);
  }

  lemma BeginIsQuiet(s: System, a: Action)
    requires Enabled(s, a) && a.BeginTransition? && ProcessOk(s.processes[a.id])
    ensures Quiet(s, Next(s, a), a.id)
  {
  }

  lemma HeartbeatIsQuiet(s: System, a: Action)
    requires Enabled(s, a) && a.DrainHeartbeat? && ProcessOk(s.processes[a.id])
    ensures Quiet(s, Next(s, a), a.id)
  {
    var s' := Next(s, a);
    assert s'.processes == s.processes[a.id := s'.processes[a.id]];
  }

  lemma ReleaseIsQuiet(s: System, a: Action)
    requires Enabled(s, a) && a.Release? && ProcessOk(s.processes[a.id])
    ensures Quiet(s, Next(s, a), a.id)
  {
    var s' := Next(s, a);
    assert s'.processes == s.processes[a.id := s'.processes[a.id]];
  }

  lemma LocalIsQuiet(s: System, a: Action)
    requires a.Reread? || a.Assign? || a.AbandonFlush? || a.BeginDrain? || a.EndDrain? || a.BeginRelease?
    requires Enabled(s, a) && ProcessOk(s.processes[a.id])
    ensures Quiet(s, Next(s, a), a.id)
  {
    var s' := Next(s, a);
    assert s'.processes == s.processes[a.id := s'.processes[a.id]];
  }

  predicate IsQuiet(a: Action) {
    || a.BeginTransition? || a.DrainHeartbeat? || a.Release? || a.Reread? || a.Assign? || a.AbandonFlush? || a.BeginDrain?
    || a.EndDrain? || a.BeginRelease?
  }

  lemma QuietStep(s: System, a: Action)
    requires Enabled(s, a) && IsQuiet(a) && ProcessOk(s.processes[a.id])
    ensures Quiet(s, Next(s, a), a.id)
  {
    if a.BeginTransition? {
      BeginIsQuiet(s, a);
    } else if a.DrainHeartbeat? {
      HeartbeatIsQuiet(s, a);
    } else if a.Release? {
      ReleaseIsQuiet(s, a);
    } else {
      LocalIsQuiet(s, a);
    }
  }

  lemma NextPlaces(s: System, a: Action)
    requires Placed(s) && Enabled(s, a)
    ensures Placed(Next(s, a))
    ensures HighWater(s.row) <= HighWater(Next(s, a).row)
  {
    if IsQuiet(a) {
      QuietStep(s, a);
      QuietPlaces(s, Next(s, a), a.id);
    } else {
      match a
      case CallStore(id, now) => CallStorePlaces(s, id, now);
      case FinishTransition(id) => FinishPlaces(s, id, Finished(s.processes[id]));
      case DropTransition(id) => FinishPlaces(s, id, Dropped(s.processes[id]));
      case Accept(id, count, now) => AcceptPlaces(s, id, count, now);
      case TakeFlush(id, flush) => TakeFlushPlaces(s, id, flush);
      case Publish(id, flush, now) => PublishPlaces(s, id, flush, now);
      case Start(_, _, _, _) => PopulationPlaces(s, a);
      case Crash(_) => PopulationPlaces(s, a);
    }
  }

  // ---------------------------------------------------------------------------------------------
  // Every run
  // ---------------------------------------------------------------------------------------------

  lemma {:induction false} RunIsPlaced(run: seq<Action>)
    requires IsRun(run)
    ensures Placed(After(run))
    decreases |run|
  {
    if run != [] {
      RunIsPlaced(run[..|run| - 1]);
      NextPlaces(After(run[..|run| - 1]), run[|run| - 1]);
    }
  }

  /** The durable high-water mark never decreases along a run. */
  lemma {:induction false} HighWaterNeverDecreases(run: seq<Action>, k: nat)
    requires IsRun(run) && k <= |run|
    ensures IsRun(run[..k]) && HighWater(After(run[..k]).row) <= HighWater(After(run).row)
    decreases |run|
  {
    if k == |run| {
      assert run[..k] == run;
    } else {
      var before := run[..|run| - 1];
      HighWaterNeverDecreases(before, k);
      assert before[..k] == run[..k];
      RunIsPlaced(before);
      NextPlaces(After(before), run[|run| - 1]);
    }
  }

  ghost predicate DisjointBelowMax(ranges: seq<SeqRange>) {
    forall i, j, n: nat | 0 <= i < j < |ranges| && InRange(ranges[i], n) && InRange(ranges[j], n) :: n == U64_MAX
  }

  function Ranges(rows: seq<Publication>): seq<SeqRange> {
    seq(|rows|, i requires 0 <= i < |rows| => rows[i].range)
  }

  /**
   Over any number of brokers, sessions, crashes, cancelled transitions, lost answers, stale
   assignments and takeovers: no number below `u64::MAX` is given to two batches or appears in two
   published rows, and every number given out or published is at most the durable high-water mark.
   */
  lemma SequenceNumbersAreUnique(run: seq<Action>)
    requires IsRun(run)
    ensures DisjointBelowMax(After(run).handedOut)
    ensures DisjointBelowMax(Ranges(After(run).published))
    ensures forall i, n: nat | 0 <= i < |After(run).handedOut| && InRange(After(run).handedOut[i], n) ::
              n <= HighWater(After(run).row)
    ensures forall i, n: nat | 0 <= i < |After(run).published| && InRange(After(run).published[i].range, n) ::
              n <= HighWater(After(run).row)
  {
    RunIsPlaced(run);
    var s := After(run);
    forall i, n: nat | 0 <= i < |s.handedOut| && InRange(s.handedOut[i], n)
      ensures At(s, GivenOut(i), n)
    {
    }
    forall i, n: nat | 0 <= i < |s.published| && InRange(s.published[i].range, n)
      ensures At(s, InRow(i), n)
    {
    }
    forall i, j, n: nat | 0 <= i < j < |s.handedOut| && InRange(s.handedOut[i], n) && InRange(s.handedOut[j], n)
      ensures n == U64_MAX
    {
      assert At(s, GivenOut(i), n) && At(s, GivenOut(j), n);
    }
    forall i, j, n: nat | 0 <= i < j < |s.published| && InRange(s.published[i].range, n) && InRange(s.published[j].range, n)
      ensures n == U64_MAX
    {
      assert At(s, InRow(i), n) && At(s, InRow(j), n);
    }
  }
}
