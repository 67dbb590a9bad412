/**
 Metadata rows are published in lease-epoch order, and a later epoch publishes only larger sequence
 numbers, provided no broker carries unused numbers across a change of fence; timely lease calls
 provide that.
 */
module EpochOrder {
  import opened Numeric
  import opened LeaseStore
  import opened Allocation
  import opened Transitions
  import opened LeaseProtocol
  import opened SequenceUniqueness

  /** Rows in publication order never go back an epoch, and a later epoch starts above the earlier one. */
  predicate Ordered(rows: seq<Publication>) {
    forall i, j | 0 <= i < j < |rows| ::
      && rows[i].epoch <= rows[j].epoch
      && (rows[i].epoch < rows[j].epoch ==> rows[i].range.end < rows[j].range.start)
  }

  // ---------------------------------------------------------------------------------------------
  // Epoch bases
  // ---------------------------------------------------------------------------------------------

  /** Finishing a transition keeps no unused number from before a change of fence. */
  ghost predicate CarriesNothingOver(p: Process)
    requires p.flight.Some?
  {
    IsCurrent(p) && LeaseOf(p.flight.value).Some? && p.partition.fence != Some(LeaseOf(p.flight.value).value.fence) ==>
      p.flight.value.work.leaseWasExpired || forall n: nat :: !IsFree(p.partition.alloc, n)
  }

  ghost predicate Careful(s: System, a: Action)
    requires Enabled(s, a)
  {
    a.FinishTransition? ==> CarriesNothingOver(s.processes[a.id])
  }

  /** The range lies above the mark at which the epoch began. */
  predicate Above(bases: map<nat, int>, epoch: nat, range: SeqRange) {
    epoch in bases && bases[epoch] < range.start
  }

  predicate BatchOk(bases: map<nat, int>, b: Batch) {
    && b.range.start <= b.range.end
    && (b.fence.Some? ==> Above(bases, b.fence.value.epoch, b.range))
  }

  predicate BatchesOk(bases: map<nat, int>, batches: seq<Batch>) {
    forall i | 0 <= i < |batches| :: BatchOk(bases, batches[i])
  }

  ghost predicate EpochsOk(p: Process, bases: map<nat, int>) {
    && (p.partition.fence.Some? ==>
          && p.partition.fence.value.epoch in bases
          && forall n: nat | IsFree(p.partition.alloc, n) :: bases[p.partition.fence.value.epoch] < n)
    && BatchesOk(bases, p.partition.buffer)
    && (forall f | f in p.flushes :: BatchesOk(bases, p.flushes[f]))
    && (p.flight.Some? && RangeOf(p.flight.value).Some? && p.partition.fence.Some? ==>
          Above(bases, p.partition.fence.value.epoch, RangeOf(p.flight.value).value))
    && (p.flight.Some? && LeaseOf(p.flight.value).Some? ==>
          && LeaseOf(p.flight.value).value.fence.epoch in bases
          && (RangeOf(p.flight.value).Some? ==>
                Above(bases, LeaseOf(p.flight.value).value.fence.epoch, RangeOf(p.flight.value).value)))
  }

  predicate BasesOk(row: Option<Lease>, bases: map<nat, int>) {
    && (row.Some? ==> Epoch(row) in bases)
    && (row.None? ==> bases == map[])
    && (forall e | e in bases :: e <= Epoch(row) && bases[e] <= HighWater(row))
  }

  predicate RowOk(bases: map<nat, int>, r: Publication) {
    && Above(bases, r.epoch, r.range)
    && forall e | e in bases && r.epoch < e :: r.range.end <= bases[e]
  }

  ghost predicate EpochInv(s: System) {
    && BasesOk(s.row, s.bases)
    && (forall id | id in s.processes :: EpochsOk(s.processes[id], s.bases))
    && (forall i | 0 <= i < |s.published| :: RowOk(s.bases, s.published[i]) && s.published[i].range.end <= HighWater(s.row))
    && Ordered(s.published)
  }

  /** New epochs only add bases. */
  lemma LaterBases(p: Process, bases: map<nat, int>, bases': map<nat, int>)
    requires EpochsOk(p, bases)
    requires forall e | e in bases :: e in bases' && bases'[e] == bases[e]
    ensures EpochsOk(p, bases')
  {
  }

  /** A store call that moves to a later epoch starts it above everything given out before. */
  lemma WithLeaseEpochs(s: System, row: Option<Lease>, now: int)
    requires EpochInv(s) && Placed(s)
    requires row.Some? || row == s.row
    requires HighWater(s.row) <= HighWater(row) && Epoch(s.row) <= Epoch(row)
    requires s.row.None? && row.Some? ==> Epoch(s.row) < Epoch(row)
    ensures EpochInv(WithLease(s, row, now))
  {
    var s' := WithLease(s, row, now);
    forall id | id in s'.processes
      ensures EpochsOk(s'.processes[id], s'.bases)
    {
      LaterBases(s.processes[id], s.bases, s'.bases);
    }
  }

  // ---------------------------------------------------------------------------------------------
  // Each step keeps the epochs apart
  // ---------------------------------------------------------------------------------------------

  /** Replacing one process by another that keeps its promises. */
  lemma ProcessEpochs(s: System, id: nat, p: Process)
    requires EpochInv(s) && EpochsOk(p, s.bases)
    ensures EpochInv(With(s, id, p))
  {
  }

  lemma {:induction false} CallStoreEpochs(s: System, id: nat, now: int)
    requires EpochInv(s) && Placed(s) && Enabled(s, CallStore(id, now))
    ensures EpochInv(Next(s, CallStore(id, now)))
  {
    var p := s.processes[id];
    var work := p.flight.value.work;
    StoreCallContract(s.row, p, work, now);
    var (row, answer) := StoreCall(s.row, p, work, now);
    StoreCallLease(s.row, p, work, now);
    WithLeaseEpochs(s, row, now);
    var p' := (if work.needsLease then Ticked(p, now) else p).(flight := Some(p.flight.value.(answer := Some(answer))));
    AnswerEpochs(s, row, now, p, p', answer);
    ProcessEpochs(WithLease(s, row, now), id, p');
  }

  lemma StoreCallLease(row: Option<Lease>, p: Process, work: Work, now: int)
    ensures var (row', answer) := StoreCall(row, p, work, now);
            && (row'.Some? || row' == row)
            && (row.None? && row'.Some? ==> Epoch(row) < Epoch(row'))
            && (answer.Leased? ==> row' == Some(answer.lease))
  {
  }

  lemma AnswerEpochs(s: System, row: Option<Lease>, now: int, p: Process, p': Process, answer: Answer)
    requires BasesOk(s.row, s.bases) && BasesOk(row, WithLease(s, row, now).bases) && EpochsOk(p, s.bases)
    requires p.flight.Some? && p'.partition == p.partition && p'.flushes == p.flushes
    requires p'.flight == Some(p.flight.value.(answer := Some(answer)))
    requires AnsweredRange(answer).Some? ==> AnsweredRange(answer).value.start > HighWater(s.row)
    requires answer.Leased? ==> row == Some(answer.lease)
    ensures EpochsOk(p', WithLease(s, row, now).bases)
  {
  }

  lemma FinishEpochs(p: Process, bases: map<nat, int>)
    requires EpochsOk(p, bases) && ProcessOk(p) && p.flight.Some? && CarriesNothingOver(p)
    ensures EpochsOk(p.(partition := Finished(p), flight := None), bases)
  {
    FinishFrees(p, Finished(p));
    var partition := Finished(p);
    forall n: nat | partition.fence.Some? && IsFree(partition.alloc, n)
      ensures partition.fence.value.epoch in bases && bases[partition.fence.value.epoch] < n
    {
      if partition.fence != p.partition.fence && !p.flight.value.work.leaseWasExpired {
        assert !IsFree(p.partition.alloc, n);
      }
    }
  }

  lemma DropEpochs(p: Process, bases: map<nat, int>)
    requires EpochsOk(p, bases) && p.flight.Some?
    ensures EpochsOk(p.(partition := Dropped(p), flight := None), bases)
  {
  }

  lemma AcceptEpochs(s: System, id: nat, count: u64, now: int)
    requires EpochInv(s) && Placed(s) && Enabled(s, Accept(id, count, now))
    ensures EpochInv(Next(s, Accept(id, count, now)))
  {
    var p := s.processes[id];
    var range := Allocate(p.partition.alloc, count).value;
    var p' := Next(s, Accept(id, count, now)).processes[id];
    assert IsFree(p.partition.alloc, range.start);
    forall n: nat | IsFree(p'.partition.alloc, n)
      ensures IsFree(p.partition.alloc, n)
    {
    }
    assert BatchesOk(s.bases, p'.partition.buffer);
    ProcessEpochs(s, id, p');
  }

  lemma TakeFlushEpochs(s: System, id: nat, flush: nat)
    requires EpochInv(s) && Enabled(s, TakeFlush(id, flush))
    ensures EpochInv(Next(s, TakeFlush(id, flush)))
  {
    ProcessEpochs(s, id, Next(s, TakeFlush(id, flush)).processes[id]);
  }

  lemma PublishEpochs(s: System, id: nat, flush: nat, now: int)
    requires EpochInv(s) && Placed(s) && Enabled(s, Publish(id, flush, now))
    ensures EpochInv(Next(s, Publish(id, flush, now)))
  {
    var p := s.processes[id];
    var batches := p.flushes[flush];
    var last := |batches| - 1;
    assert BatchOk(s.bases, batches[0]) && BatchOk(s.bases, batches[last]);
    assert At(s, InFlush(id, flush, last), batches[last].range.end);
    ProcessEpochs(s, id, p.(flushes := p.flushes - {flush}));
  }

  lemma HeartbeatEpochs(s: System, a: Action)
    requires EpochInv(s) && Placed(s) && Enabled(s, a) && a.DrainHeartbeat?
    ensures EpochInv(Next(s, a))
  {
    var s' := Next(s, a);
    WithLeaseEpochs(s, s'.row, a.now);
    ProcessEpochs(WithLease(s, s'.row, a.now), a.id, s'.processes[a.id]);
  }

  lemma ReleaseEpochs(s: System, a: Action)
    requires EpochInv(s) && Placed(s) && Enabled(s, a) && a.Release?
    ensures EpochInv(Next(s, a))
  {
    var s' := Next(s, a);
    ReleaseKeepsFence(s.row, s.processes[a.id], a.now, a.rewritesExpired);
    WithLeaseEpochs(s, s'.row, a.now);
    ProcessEpochs(WithLease(s, s'.row, a.now), a.id, s'.processes[a.id]);
  }

  lemma FlightEpochs(s: System, a: Action)
    requires EpochInv(s) && Enabled(s, a) && (a.BeginTransition? || a.Reread?)
    ensures EpochInv(Next(s, a))
  {
    ProcessEpochs(s, a.id, Next(s, a).processes[a.id]);
  }

  lemma LocalEpochs(s: System, a: Action)
    requires EpochInv(s) && Enabled(s, a) && IsLocalStep(a)
    ensures EpochInv(Next(s, a))
  {
    ProcessEpochs(s, a.id, Next(s, a).processes[a.id]);
  }

  lemma FinishActionEpochs(s: System, a: Action)
    requires EpochInv(s) && Placed(s) && Enabled(s, a) && Careful(s, a) && (a.FinishTransition? || a.DropTransition?)
    ensures EpochInv(Next(s, a))
  {
    if a.FinishTransition? {
      FinishEpochs(s.processes[a.id], s.bases);
    } else {
      DropEpochs(s.processes[a.id], s.bases);
    }
    ProcessEpochs(s, a.id, Next(s, a).processes[a.id]);
  }

  lemma PopulationEpochs(s: System, a: Action)
    requires EpochInv(s) && Enabled(s, a) && (a.Start? || a.Crash?)
    ensures EpochInv(Next(s, a))
  {
  }

  predicate IsLocalStep(a: Action) {
    a.Assign? || a.AbandonFlush? || a.BeginDrain? || a.EndDrain? || a.BeginRelease?
  }

  lemma {:induction false} NextEpochs(s: System, a: Action)
    requires EpochInv(s) && Placed(s) && Enabled(s, a) && Careful(s, a)
    ensures EpochInv(Next(s, a))
  {
    if IsLocalStep(a) {
      LocalEpochs(s, a);
    } else if a.BeginTransition? || a.Reread? {
      FlightEpochs(s, a);
    } else {
      match a
      case CallStore(id, now) => CallStoreEpochs(s, id, now);
      case FinishTransition(_) => FinishActionEpochs(s, a);
      case DropTransition(_) => FinishActionEpochs(s, a);
      case Accept(id, count, now) => AcceptEpochs(s, id, count, now);
      case TakeFlush(id, flush) => TakeFlushEpochs(s, id, flush);
      case Publish(id, flush, now) => PublishEpochs(s, id, flush, now);
      case DrainHeartbeat(_, _) => HeartbeatEpochs(s, a);
      case Release(_, _, _, _) => ReleaseEpochs(s, a);
      case Start(_, _, _, _) => PopulationEpochs(s, a);
      case Crash(_) => PopulationEpochs(s, a);
    }
  }

  /** Every step of the run satisfies the condition at the state it is taken in. */
  ghost predicate CarefulRun(run: seq<Action>)
    requires IsRun(run)
    decreases |run|
  {
    run == [] || (CarefulRun(run[..|run| - 1]) && Careful(After(run[..|run| - 1]), run[|run| - 1]))
  }

  /** If no transition carries unused numbers into another fence, publication order is epoch order. */
  lemma {:induction false} CarefulRunsPublishInOrder(run: seq<Action>)
    requires IsRun(run) && CarefulRun(run)
    ensures EpochInv(After(run))
    ensures Ordered(After(run).published)
    decreases |run|
  {
    if run != [] {
      var before := run[..|run| - 1];
      CarefulRunsPublishInOrder(before);
      RunIsPlaced(before);
      NextEpochs(After(before), run[|run| - 1]);
    }
  }
}
