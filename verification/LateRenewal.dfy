/**
 A maintenance transition reads the clock twice. Whenever the second reading has reached the local
 expiry that the first one saw as live, there is a run in which the broker keeps its old reservation
 under a newer epoch and publishes behind another broker's rows.
 */
module LateRenewal {
  import opened Numeric
  import opened LeaseStore
  import opened Allocation
  import opened Transitions
  import opened LeaseProtocol
  import opened SequenceUniqueness
  import opened EpochOrder
  import opened LeaseTiming

  /** Every step but the one at `late` is timely. */
  predicate TimelyExcept(run: seq<Action>, late: nat)
    requires IsRun(run)
    decreases |run|
  {
    run == [] || (&& TimelyExcept(run[..|run| - 1], late)
                  && (|run| - 1 == late || Timely(After(run[..|run| - 1]), run[|run| - 1])))
  }

  /** `run` leads to `s` and is timely except for its step number `late`. */
  predicate LeadsTo(run: seq<Action>, late: nat, s: System) {
    IsRun(run) && After(run) == s && TimelyExcept(run, late)
  }

  lemma Act(run: seq<Action>, late: nat, s: System, a: Action, s': System)
    requires LeadsTo(run, late, s) && Enabled(s, a) && s' == Next(s, a)
    requires |run| == late || Timely(s, a)
    ensures LeadsTo(run + [a], late, s')
  {
  }

  /** The run is timely but for step `k`, and breaks the publication order. */
  predicate BreaksAfter(run: seq<Action>, k: nat) {
    IsRun(run) && k < |run| && IsRun(run[..k]) && TimelyExcept(run, k) && !Ordered(After(run).published)
  }

  /** A run that continues `before` with the untimely step `a` and ends out of order. */
  lemma Conclude(before: seq<Action>, s: System, a: Action, run: seq<Action>, s': System)
    requires LeadsTo(before, |before|, s) && before + [a] <= run && LeadsTo(run, |before|, s') && !Ordered(s'.published)
    ensures BreaksAfter(run, |before|) && run[|before|] == a && run[..|before|] == before && After(run[..|before|]) == s
  {
    assert run[..|before|] == before;
  }

  const BASE: u64 := 10
  const OLD_BROKER := Caller("old", "old-session")
  const NEW_BROKER := Caller("new", "new-session")

  function FenceOf(caller: Caller, epoch: u64): Fence {
    Fence(caller.holder, epoch, caller.session)
  }

  /** A process holding the lease of `epoch` until `expiry` with `range` reserved and unused. */
  function Holder(caller: Caller, duration: int, clock: int, epoch: u64, expiry: int, range: SeqRange): Process {
    Process(caller, duration, clock, true, 1, false,
            Partition([], Allocator(Some(range), range.start, None), None, 0, Some(expiry),
                      Some(FenceOf(caller, epoch)), 0, false, false),
            None, map[])
  }

  /** A process that has just claimed the transition of its first produce request. */
  function Claimant(caller: Caller, duration: int, now: int, answer: Option<Answer>): Process {
    Process(caller, duration, now, true, 1, false,
            EMPTY_PARTITION.(adaptiveSize := Some(BASE), inFlight := true),
            Some(Flight(Work(1, true, true, Some(ReservationRequest(BASE, Initial)), Progress(None, None), None),
                        false, now, answer)),
            map[])
  }

  /** A process that has just got the assignment. */
  function Newcomer(caller: Caller, duration: int, now: int): Process {
    Process(caller, duration, now, true, 1, false, EMPTY_PARTITION, None, map[])
  }

  lemma Join(run: seq<Action>, late: nat, s: System, id: nat, caller: Caller, duration: int, now: int)
    returns (run': seq<Action>, s': System)
    requires LeadsTo(run, late, s) && id !in s.processes && caller.session !in s.sessions && 0 < duration
    ensures LeadsTo(run', late, s') && run < run' && |run'| == |run| + 2
    ensures s' == s.(processes := s.processes[id := Newcomer(caller, duration, now)],
                     sessions := s.sessions + {caller.session})
  {
    var start, assign := Start(id, caller, duration, now), Assign(id, true, false);
    var s1 := Next(s, start);
    Act(run, late, s, start, s1);
    s' := Next(s1, assign);
    Act(run + [start], late, s1, assign, s');
    run' := run + [start] + [assign];
    assert s'.processes == s.processes[id := Newcomer(caller, duration, now)];
  }

  /** A produce request that finds no local lease. */
  lemma Claim(run: seq<Action>, late: nat, s: System, id: nat, caller: Caller, duration: int, now: int)
    returns (run': seq<Action>, s': System)
    requires LeadsTo(run, late, s) && id in s.processes && s.processes[id] == Newcomer(caller, duration, now)
    ensures LeadsTo(run', late, s') && run < run' && |run'| == |run| + 1
    ensures s' == s.(processes := s.processes[id := Claimant(caller, duration, now, None)])
  {
    var begin := BeginTransition(id, 1, now, false, BASE);
    s' := Next(s, begin);
    Act(run, late, s, begin, s');
    run' := run + [begin];
    assert s'.processes[id] == Claimant(caller, duration, now, None);
  }

  lemma {:induction false} Request(run: seq<Action>, late: nat, s: System, id: nat, caller: Caller, duration: int, now: int)
    returns (run': seq<Action>, s': System)
    requires LeadsTo(run, late, s) && id !in s.processes && caller.session !in s.sessions && 0 < duration
    ensures LeadsTo(run', late, s') && run < run' && |run'| == |run| + 3
    ensures s' == s.(processes := s.processes[id := Claimant(caller, duration, now, None)],
                     sessions := s.sessions + {caller.session})
  {
    run', s' := Join(run, late, s, id, caller, duration, now);
    run', s' := Claim(run', late, s', id, caller, duration, now);
  }

  function NextRange(row: Option<Lease>): SeqRange
    requires HighWater(row) + BASE < U64_MAX
  {
    SeqRange(HighWater(row) + 1, HighWater(row) + BASE)
  }

  /** The lease an absent or expired row turns into. */
  function NewLease(row: Option<Lease>, caller: Caller, duration: int, now: int): Lease
    requires HighWater(row) + BASE < U64_MAX && Epoch(row) < U64_MAX
  {
    var range := NextRange(row);
    Lease(FenceOf(caller, Epoch(row) + 1), now + duration, Some(range.end), Some(range.start), None, Some(now))
  }

  predicate IsAvailable(row: Option<Lease>, now: int) {
    && (row.Some? ==> row.value.expiresAt <= now)
    && Epoch(row) < U64_MAX && HighWater(row) + BASE < U64_MAX
  }

  lemma StoreGivesNewLease(row: Option<Lease>, caller: Caller, duration: int, now: int)
    requires 0 < duration && IsAvailable(row, now)
    ensures var p := Claimant(caller, duration, now, None);
            var lease := NewLease(row, caller, duration, now);
            StoreCall(row, p, p.flight.value.work, now) == (Some(lease), Answer.Leased(lease, Some(NextRange(row))))
  {
  }

  lemma TakeLease(run: seq<Action>, late: nat, s: System, id: nat, caller: Caller, duration: int, now: int)
    returns (run': seq<Action>, s': System)
    requires LeadsTo(run, late, s) && 0 < duration && IsAvailable(s.row, now)
    requires id in s.processes && s.processes[id] == Claimant(caller, duration, now, None)
    ensures LeadsTo(run', late, s') && run < run' && |run'| == |run| + 1
    ensures var lease := NewLease(s.row, caller, duration, now);
            && s'.row == Some(lease)
            && s'.processes == s.processes[id := Claimant(caller, duration, now, Some(Answer.Leased(lease, Some(NextRange(s.row)))))]
            && s'.sessions == s.sessions && s'.published == s.published && s'.epochBegan == now
  {
    StoreGivesNewLease(s.row, caller, duration, now);
    s' := Next(s, CallStore(id, now));
    Act(run, late, s, CallStore(id, now), s');
    run' := run + [CallStore(id, now)];
  }

  lemma InstallLease(run: seq<Action>, late: nat, s: System, id: nat, caller: Caller, duration: int, now: int,
                     lease: Lease, range: SeqRange)
    returns (run': seq<Action>, s': System)
    requires LeadsTo(run, late, s) && lease.fence == FenceOf(caller, lease.fence.epoch)
    requires id in s.processes
    requires s.processes[id] == Claimant(caller, duration, now, Some(Answer.Leased(lease, Some(range))))
    ensures LeadsTo(run', late, s') && run < run' && |run'| == |run| + 1
    ensures s' == s.(processes := s.processes[id := Holder(caller, duration, now, lease.fence.epoch, lease.expiresAt, range)])
  {
    s' := Next(s, FinishTransition(id));
    Act(run, late, s, FinishTransition(id), s');
    run' := run + [FinishTransition(id)];
    assert s'.processes[id] == Holder(caller, duration, now, lease.fence.epoch, lease.expiresAt, range);
  }

  /** A new broker acquires the absent or expired lease through a produce request. */
  lemma Acquire(run: seq<Action>, late: nat, s: System, id: nat, caller: Caller, duration: int, now: int)
    returns (run': seq<Action>, s': System)
    requires LeadsTo(run, late, s) && id !in s.processes && caller.session !in s.sessions && 0 < duration
    requires IsAvailable(s.row, now)
    ensures LeadsTo(run', late, s') && run < run' && |run'| == |run| + 5
    ensures var lease := NewLease(s.row, caller, duration, now);
            && s'.row == Some(lease)
            && s'.processes == s.processes[id := Holder(caller, duration, now, lease.fence.epoch, lease.expiresAt, NextRange(s.row))]
            && s'.sessions == s.sessions + {caller.session} && s'.published == s.published && s'.epochBegan == now
  {
    run', s' := Request(run, late, s, id, caller, duration, now);
    run', s' := TakeLease(run', late, s', id, caller, duration, now);
    run', s' := InstallLease(run', late, s', id, caller, duration, now, s'.row.value, NextRange(s.row));
  }

  /** The process may accept a record now and publish it under the row's current lease. */
  predicate MayPublish(s: System, id: nat, now: int) {
    && id in s.processes
    && var p := s.processes[id];
    && p.owned && !p.partition.draining && !p.partition.inFlight
    && p.flushes == map[] && p.partition.buffer == []
    && p.partition.expiry.Some? && now < p.partition.expiry.value
    && p.partition.fence.Some? && FenceHolds(s.row, p.partition.fence.value, now)
    && Allocate(p.partition.alloc, 1).Some?
  }

  function WithBuffer(p: Process, buffer: seq<Batch>): Process {
    p.(partition := p.partition.(
         alloc := AfterAllocate(p.partition.alloc, 1),
         sinceMaintenance := SatAdd(p.partition.sinceMaintenance, 1),
         buffer := buffer))
  }

  lemma AcceptOne(run: seq<Action>, late: nat, s: System, id: nat, now: int)
    returns (run': seq<Action>, s': System)
    requires LeadsTo(run, late, s) && MayPublish(s, id, now)
    ensures LeadsTo(run', late, s') && run < run' && |run'| == |run| + 1
    ensures var p := s.processes[id];
            && s'.processes == s.processes[id := WithBuffer(p, [Batch(Allocate(p.partition.alloc, 1).value, p.partition.fence)])]
            && s'.row == s.row && s'.sessions == s.sessions && s'.published == s.published && s'.epochBegan == s.epochBegan
  {
    var p := s.processes[id];
    var batch := Batch(Allocate(p.partition.alloc, 1).value, p.partition.fence);
    assert p.partition.buffer + [batch] == [batch];
    s' := Next(s, Accept(id, 1, now));
    Act(run, late, s, Accept(id, 1, now), s');
    run' := run + [Accept(id, 1, now)];
  }

  lemma TakeOne(run: seq<Action>, late: nat, s: System, id: nat, p: Process, batch: Batch)
    returns (run': seq<Action>, s': System)
    requires LeadsTo(run, late, s) && id in s.processes
    requires s.processes[id] == p.(partition := p.partition.(buffer := [batch])) && p.flushes == map[]
    requires batch.fence.Some?
    ensures run' == run + [TakeFlush(id, 0)] && LeadsTo(run', late, s')
    ensures s' == With(s, id, p.(partition := p.partition.(buffer := []), flushes := map[0 := [batch]]))
  {
    s' := Next(s, TakeFlush(id, 0));
    Act(run, late, s, TakeFlush(id, 0), s');
    run' := run + [TakeFlush(id, 0)];
    assert s'.processes[id] == p.(partition := p.partition.(buffer := []), flushes := map[0 := [batch]]);
  }

  lemma PublishTaken(run: seq<Action>, late: nat, s: System, id: nat, p: Process, batch: Batch, now: int)
    returns (run': seq<Action>, s': System)
    requires LeadsTo(run, late, s) && id in s.processes
    requires s.processes[id] == p.(flushes := map[0 := [batch]]) && p.flushes == map[]
    requires batch.fence.Some? && FenceHolds(s.row, batch.fence.value, now)
    ensures run' == run + [Publish(id, 0, now)] && LeadsTo(run', late, s')
    ensures s' == With(s, id, p).(published := s.published + [Publication(batch.fence.value.epoch, batch.range)])
  {
    s' := Next(s, Publish(id, 0, now));
    Act(run, late, s, Publish(id, 0, now), s');
    run' := run + [Publish(id, 0, now)];
    assert s.processes[id].flushes - {0} == map[];
  }

  /** The holder accepts one record, flushes it and publishes its row. */
  lemma PublishOne(run: seq<Action>, late: nat, s: System, id: nat, now: int)
    returns (run': seq<Action>, s': System)
    requires LeadsTo(run, late, s) && MayPublish(s, id, now)
    ensures LeadsTo(run', late, s') && run < run' && |run'| == |run| + 3
    ensures var p := s.processes[id];
            && s'.processes == s.processes[id := WithBuffer(p, [])]
            && s'.row == s.row && s'.sessions == s.sessions && s'.epochBegan == s.epochBegan
            && s'.published == s.published + [Publication(p.partition.fence.value.epoch, Allocate(p.partition.alloc, 1).value)]
  {
    var p := s.processes[id];
    run', s' := AcceptOne(run, late, s, id, now);
    var batch := Batch(Allocate(p.partition.alloc, 1).value, p.partition.fence);
    run', s' := TakeOne(run', late, s', id, WithBuffer(p, []), batch);
    run', s' := PublishTaken(run', late, s', id, WithBuffer(p, []), batch, now);
  }

  /** A broker loses the assignment and begins to release. */
  lemma Withdraw(run: seq<Action>, late: nat, s: System, id: nat)
    returns (run': seq<Action>, s': System)
    requires LeadsTo(run, late, s) && id in s.processes && s.processes[id].owned
    ensures LeadsTo(run', late, s') && run < run' && |run'| == |run| + 2
    ensures var p := s.processes[id];
            s' == With(s, id, p.(owned := false, generation := p.generation + 1, releasing := true,
                                 partition := p.partition.(draining := true)))
  {
    var s1 := Next(s, Assign(id, false, false));
    Act(run, late, s, Assign(id, false, false), s1);
    s' := Next(s1, BeginRelease(id));
    Act(run + [Assign(id, false, false)], late, s1, BeginRelease(id), s');
    run' := run + [Assign(id, false, false)] + [BeginRelease(id)];
  }

  /** A drained broker that lost the assignment releases its lease. */
  lemma GiveUp(run: seq<Action>, late: nat, s: System, id: nat, now: int)
    returns (run': seq<Action>, s': System)
    requires LeadsTo(run, late, s) && id in s.processes && s.row.Some?
    requires var p := s.processes[id];
             && p.releasing && p.flight.None? && p.flushes == map[] && p.partition.buffer == []
             && OwnedBy(s.row.value, p.caller) && now < s.row.value.expiresAt
    requires |run| == late || s.epochBegan <= now
    ensures run' == run + [Release(id, now, true, true)] && LeadsTo(run', late, s')
    ensures id in s'.processes && s'.processes == s.processes[id := s'.processes[id]]
    ensures s'.row.Some? && s'.row.value.fence == s.row.value.fence && s'.row.value.expiresAt == now
    ensures HighWater(s'.row) == HighWater(s.row) && s'.published == s.published && s'.sessions == s.sessions
  {
    s' := Next(s, Release(id, now, true, true));
    Act(run, late, s, Release(id, now, true, true), s');
    run' := run + [Release(id, now, true, true)];
  }

  /** The old broker, holding epoch 1 until `expiry` with all its numbers unused. */
  function OldHolder(duration: int, clock: int, expiry: int, size: Option<u64>): Process {
    var p := Holder(OLD_BROKER, duration, clock, 1, expiry, SeqRange(0, BASE - 1));
    p.(partition := p.partition.(adaptiveSize := size))
  }

  /** The old broker while a maintenance transition that read `beganAt` is in flight. */
  function Renewing(duration: int, clock: int, expiry: int, beganAt: int, answer: Option<Answer>): Process {
    var p := OldHolder(duration, clock, expiry, Some(BASE));
    var expired := beganAt >= expiry;
    var progress := if expired then Progress(None, None) else Progress(Some(0), None);
    p.(partition := p.partition.(inFlight := true),
       flight := Some(Flight(Work(1, true, expired, None, progress, Some(0)), true, beganAt, answer)))
  }

  lemma BeginRenewal(run: seq<Action>, late: nat, s: System, duration: int, clock: int, expiry: int, size: Option<u64>,
                     beganAt: int)
    returns (run': seq<Action>, s': System)
    requires LeadsTo(run, late, s) && 0 in s.processes
    requires s.processes[0] == OldHolder(duration, clock, expiry, size) && (size.Some? ==> size.value == BASE)
    ensures run' == run + [BeginTransition(0, 1, beganAt, true, BASE)] && LeadsTo(run', late, s')
    ensures s' == s.(processes := s.processes[0 := Renewing(duration, clock, expiry, beganAt, None)])
  {
    var begin := BeginTransition(0, 1, beganAt, true, BASE);
    s' := Next(s, begin);
    Act(run, late, s, begin, s');
    run' := run + [begin];
    assert s'.processes[0] == Renewing(duration, clock, expiry, beganAt, None);
  }

  /** The renewal takes over an expired row, without asking for numbers. */
  lemma TakeOver(run: seq<Action>, late: nat, s: System, duration: int, clock: int, expiry: int, beganAt: int, calledAt: int)
    returns (run': seq<Action>, s': System)
    requires LeadsTo(run, late, s) && 0 in s.processes
    requires s.processes[0] == Renewing(duration, clock, expiry, beganAt, None)
    requires s.row.Some? && s.row.value.expiresAt <= calledAt && s.row.value.fence.epoch == 2
    requires |run| == late || calledAt < expiry
    ensures run' == run + [CallStore(0, calledAt)] && LeadsTo(run', late, s')
    ensures s'.row.Some? && s'.row.value.fence == FenceOf(OLD_BROKER, 3) && s'.row.value.expiresAt == calledAt + duration
    ensures s'.published == s.published && 0 in s'.processes
    ensures s'.processes[0]
         == Renewing(duration, Max(clock, calledAt), expiry, beganAt, Some(Answer.Leased(s'.row.value, None)))
  {
    var call := CallStore(0, calledAt);
    s' := Next(s, call);
    Act(run, late, s, call, s');
    run' := run + [call];
  }

  /** Applying the answer keeps the old numbers under the new fence. */
  lemma FinishRenewal(run: seq<Action>, late: nat, s: System, duration: int, clock: int, expiry: int, beganAt: int, calledAt: int)
    returns (run': seq<Action>, s': System)
    requires LeadsTo(run, late, s) && 0 in s.processes && 0 < duration && beganAt < expiry
    requires s.row.Some? && s.row.value.fence == FenceOf(OLD_BROKER, 3) && s.row.value.expiresAt == calledAt + duration
    requires s.processes[0] == Renewing(duration, clock, expiry, beganAt, Some(Answer.Leased(s.row.value, None)))
    ensures run' == run + [FinishTransition(0)] && LeadsTo(run', late, s')
    ensures MayPublish(s', 0, calledAt) && s'.published == s.published
    ensures Allocate(s'.processes[0].partition.alloc, 1).value.start == 0 && s'.processes[0].partition.fence.value.epoch == 3
  {
    s' := Next(s, FinishTransition(0));
    Act(run, late, s, FinishTransition(0), s');
    run' := run + [FinishTransition(0)];
  }

  /** What is published under epoch 2 before the old broker comes back has a positive number. */
  predicate Published(s: System) {
    |s.published| == 1 && s.published[0].epoch == 2 && 0 < s.published[0].range.start
  }

  /** The answered renewal is applied and the old broker publishes number 0 behind epoch 2. */
  lemma PublishBehind(run: seq<Action>, late: nat, s: System, duration: int, clock: int, expiry: int, beganAt: int, calledAt: int)
    returns (run': seq<Action>, s': System)
    requires LeadsTo(run, late, s) && 0 in s.processes && 0 < duration && beganAt < expiry && Published(s)
    requires s.row.Some? && s.row.value.fence == FenceOf(OLD_BROKER, 3) && s.row.value.expiresAt == calledAt + duration
    requires s.processes[0] == Renewing(duration, clock, expiry, beganAt, Some(Answer.Leased(s.row.value, None)))
    ensures LeadsTo(run', late, s') && run < run' && !Ordered(s'.published)
  {
    run', s' := FinishRenewal(run, late, s, duration, clock, expiry, beganAt, calledAt);
    run', s' := PublishOne(run', late, s', 0, calledAt);
    assert s'.published[0] == s.published[0];
    assert s'.published[1].epoch == 3 && s'.published[1].range.start == 0;
  }

  /** The old broker acquires the absent lease. */
  lemma FirstLease(late: nat, duration: int, acquiredAt: int) returns (run: seq<Action>, s: System)
    requires 0 < duration
    ensures |run| == 5 && LeadsTo(run, late, s) && s.published == []
    ensures 1 !in s.processes && NEW_BROKER.session !in s.sessions
    ensures 0 in s.processes && s.processes[0] == OldHolder(duration, acquiredAt, acquiredAt + duration, None)
    ensures s.row.Some? && s.row.value.fence == FenceOf(OLD_BROKER, 1) && s.row.value.maxAllocated == Some(BASE - 1)
    ensures s.row.value.expiresAt == acquiredAt + duration
  {
    run, s := Acquire([], late, INITIAL, 0, OLD_BROKER, duration, acquiredAt);
  }

  /** The run up to the late call: another broker took over, published the next number and released. */
  lemma Prelude(duration: int, acquiredAt: int, beganAt: int)
    returns (run: seq<Action>, s: System)
    requires acquiredAt <= beganAt < acquiredAt + duration
    ensures |run| == 17 && LeadsTo(run, 17, s) && 0 in s.processes && Published(s)
    ensures s.processes[0] == Renewing(duration, acquiredAt, acquiredAt + duration, beganAt, None)
    ensures s.row.Some? && s.row.value.expiresAt == acquiredAt + duration && s.row.value.fence.epoch == 2
  {
    var expiry := acquiredAt + duration;
    run, s := FirstLease(17, duration, acquiredAt);
    run, s := BeginRenewal(run, 17, s, duration, acquiredAt, expiry, None, beganAt);
    run, s := Visit(run, 17, s, duration, expiry);
  }

  /** Another broker takes over the expired row, publishes the next number and releases. */
  lemma Visit(run: seq<Action>, late: nat, s: System, duration: int, at: int)
    returns (run': seq<Action>, s': System)
    requires LeadsTo(run, late, s) && 1 !in s.processes && NEW_BROKER.session !in s.sessions && 0 < duration
    requires s.row.Some? && s.row.value.fence.epoch == 1 && s.row.value.maxAllocated == Some(BASE - 1)
    requires s.row.value.expiresAt <= at && s.published == []
    ensures |run'| == |run| + 11 && run < run' && LeadsTo(run', late, s') && Published(s')
    ensures 0 in s.processes ==> 0 in s'.processes && s'.processes[0] == s.processes[0]
    ensures s'.row.Some? && s'.row.value.expiresAt == at && s'.row.value.fence.epoch == 2
  {
    run', s' := Acquire(run, late, s, 1, NEW_BROKER, duration, at);
    run', s' := PublishOne(run', late, s', 1, at);
    run', s' := Withdraw(run', late, s', 1);
    run', s' := GiveUp(run', late, s', 1, at);
  }

  /**
   The condition on the second reading is exact: whatever the lease duration and the readings, if the
   call is made at or after the expiry the transition began under, a run whose every other step is
   timely publishes a later epoch with smaller sequence numbers.
   */
  lemma LateCallBreaksTheOrder(duration: int, acquiredAt: int, beganAt: int, calledAt: int)
    returns (run: seq<Action>)
    requires acquiredAt <= beganAt < acquiredAt + duration <= calledAt
    ensures BreaksAfter(run, 17) && run[17] == CallStore(0, calledAt)
    ensures var s := After(run[..17]);
            && 0 in s.processes && s.processes[0].clock <= calledAt
            && s.processes[0].partition.expiry == Some(acquiredAt + duration)
            && s.processes[0].flight.Some? && s.processes[0].flight.value.beganAt == beganAt
  {
    var expiry := acquiredAt + duration;
    var before, s := Prelude(duration, acquiredAt, beganAt);
    var s1;
    run, s1 := TakeOver(before, 17, s, duration, acquiredAt, expiry, beganAt, calledAt);
    run, s1 := PublishBehind(run, 17, s1, duration, calledAt, expiry, beganAt, calledAt);
    Conclude(before, s, CallStore(0, calledAt), run, s1);
  }
}
