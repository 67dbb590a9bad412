/**
 Every other condition on the readings of lease calls is needed too. A call that rewrites the caller's own
 lease with a reading that is too old lets the row expire before some broker stops relying on an older
 epoch; for all such readings there is a run, timely in every other step, that publishes a later epoch
 with smaller sequence numbers.
 */
module StaleReadings {
  import opened Numeric
  import opened LeaseStore
  import opened Allocation
  import opened Transitions
  import opened LeaseProtocol
  import opened EpochOrder
  import opened LeaseTiming
  import opened LateRenewal

  /** Before its expiry the old broker renews, takes over the row that expired early, and publishes behind it. */
  lemma Overtake(run: seq<Action>, late: nat, s: System, duration: int, clock: int, expiry: int, size: Option<u64>, now: int)
    returns (run': seq<Action>, s': System)
    requires LeadsTo(run, late, s) && 0 in s.processes && 0 < duration && now < expiry && Published(s)
    requires s.processes[0] == OldHolder(duration, clock, expiry, size) && (size.Some? ==> size.value == BASE)
    requires s.row.Some? && s.row.value.expiresAt <= now && s.row.value.fence.epoch == 2
    ensures run < run' && LeadsTo(run', late, s') && !Ordered(s'.published)
  {
    run', s' := BeginRenewal(run, late, s, duration, clock, expiry, size, now);
    run', s' := TakeOver(run', late, s', duration, clock, expiry, now, now);
    run', s' := PublishBehind(run', late, s', duration, Max(clock, now), expiry, now, now);
  }

  // ---------------------------------------------------------------------------------------------
  // Releasing brokers
  // ---------------------------------------------------------------------------------------------

  /** The old broker relies on epoch 1 until `began`, when the new one takes epoch 2, publishes and withdraws. */
  lemma Handover(duration: int, began: int) returns (run: seq<Action>, s: System)
    requires 0 < duration
    ensures |run| == 15 && LeadsTo(run, 15, s) && Published(s) && s.epochBegan == began
    ensures 0 in s.processes && s.processes[0] == OldHolder(duration, began - duration, began, None)
    ensures s.row.Some? && s.row.value.fence == FenceOf(NEW_BROKER, 2) && s.row.value.expiresAt == began + duration
    ensures 1 in s.processes
    ensures var p := s.processes[1];
            && p.caller == NEW_BROKER && p.duration == duration && p.releasing && p.flight.None? && p.flushes == map[]
            && p.partition.buffer == []
  {
    run, s := FirstLease(15, duration, began - duration);
    run, s := Acquire(run, 15, s, 1, NEW_BROKER, duration, began);
    run, s := PublishOne(run, 15, s, 1, began);
    run, s := Withdraw(run, 15, s, 1);
  }

  /** A release must not read a time before the released epoch began. */
  lemma StaleReleaseBreaksTheOrder(duration: int, began: int, now: int) returns (run: seq<Action>)
    requires 0 < duration && now < began
    ensures BreaksAfter(run, 15) && run[15] == Release(1, now, true, true)
    ensures var s := After(run[..15]);
            1 in s.processes && s.processes[1].duration == duration && Renews(s.row, s.processes[1].caller, now) && s.epochBegan == began
  {
    var before, s := Handover(duration, began);
    var released, s1 := GiveUp(before, 15, s, 1, now);
    run, s1 := Overtake(released, 15, s1, duration, began - duration, began, None, began - 1);
    Conclude(before, s, Release(1, now, true, true), run, s1);
  }

  lemma HeartbeatLate(run: seq<Action>, s: System, duration: int, now: int) returns (run': seq<Action>, s': System)
    requires LeadsTo(run, |run|, s) && 1 in s.processes && s.row.Some?
    requires var p := s.processes[1];
             p.caller == NEW_BROKER && p.duration == duration && p.releasing && OwnedBy(s.row.value, p.caller)
    requires now < s.row.value.expiresAt
    ensures run' == run + [DrainHeartbeat(1, now)] && LeadsTo(run', |run|, s')
    ensures s'.row.Some? && s'.row.value.fence == s.row.value.fence && s'.row.value.expiresAt == now + duration
    ensures s'.published == s.published && s'.processes - {1} == s.processes - {1}
  {
    s' := Next(s, DrainHeartbeat(1, now));
    Act(run, |run|, s, DrainHeartbeat(1, now), s');
    run' := run + [DrainHeartbeat(1, now)];
  }

  /** A heartbeat of a draining broker must reach the time at which its epoch began. */
  lemma StaleHeartbeatBreaksTheOrder(duration: int, began: int, now: int) returns (run: seq<Action>)
    requires 0 < duration && now + duration < began
    ensures BreaksAfter(run, 15) && run[15] == DrainHeartbeat(1, now)
    ensures var s := After(run[..15]);
            1 in s.processes && s.processes[1].duration == duration && Renews(s.row, s.processes[1].caller, now) && s.epochBegan == began
  {
    var before, s := Handover(duration, began);
    var renewed, s1 := HeartbeatLate(before, s, duration, now);
    assert 0 in s1.processes - {1} && s1.processes[0] == (s1.processes - {1})[0] == (s.processes - {1})[0];
    run, s1 := Overtake(renewed, 15, s1, duration, began - duration, began, None, began - 1);
    Conclude(before, s, DrainHeartbeat(1, now), run, s1);
  }

  // ---------------------------------------------------------------------------------------------
  // Produce requests
  // ---------------------------------------------------------------------------------------------

  /** The new broker after its first answer was lost, claiming again with the reading `now`. */
  function Reclaimant(duration: int, clock: int, now: int, answer: Option<Answer>): Process {
    Claimant(NEW_BROKER, duration, now, answer).(clock := clock)
  }

  lemma LoseAnswer(run: seq<Action>, late: nat, s: System, duration: int, began: int, now: int, answer: Answer)
    returns (run': seq<Action>, s': System)
    requires LeadsTo(run, late, s) && 1 in s.processes
    requires s.processes[1] == Claimant(NEW_BROKER, duration, began, Some(answer))
    ensures |run'| == |run| + 2 && run < run' && LeadsTo(run', late, s')
    ensures s' == With(s, 1, Reclaimant(duration, began, now, None))
  {
    var drop, begin := DropTransition(1), BeginTransition(1, 1, now, false, BASE);
    var s1 := Next(s, drop);
    Act(run, late, s, drop, s1);
    s' := Next(s1, begin);
    Act(run + [drop], late, s1, begin, s');
    run' := run + [drop] + [begin];
    assert s'.processes[1] == Reclaimant(duration, began, now, None);
  }

  lemma StoreRenewsLease(row: Option<Lease>, duration: int, clock: int, now: int)
    requires row.Some? && row.value.fence == FenceOf(NEW_BROKER, 2) && now < row.value.expiresAt
    requires HighWater(row) + BASE < U64_MAX
    ensures var p := Reclaimant(duration, clock, now, None);
            var (row', answer) := StoreCall(row, p, p.flight.value.work, now);
            && row'.Some? && row'.value.fence == row.value.fence && row'.value.expiresAt == now + duration
            && answer == Answer.Leased(row'.value, Some(NextRange(row)))
  {
  }

  /** The second claim renews the lease of the first with an older reading and reserves the next numbers. */
  lemma ReclaimLate(run: seq<Action>, s: System, duration: int, began: int, now: int, range: SeqRange)
    returns (run': seq<Action>, s': System)
    requires LeadsTo(run, |run|, s) && 1 in s.processes && now < began && 0 < duration
    requires s.processes[1] == Reclaimant(duration, began, now, None)
    requires s.row.Some? && s.row.value.fence == FenceOf(NEW_BROKER, 2) && now < s.row.value.expiresAt
    requires HighWater(s.row) + BASE < U64_MAX && range == NextRange(s.row)
    ensures run' == run + [CallStore(1, now)] && LeadsTo(run', |run|, s')
    ensures s'.row.Some? && s'.row.value.fence == s.row.value.fence && s'.row.value.expiresAt == now + duration
    ensures s'.published == s.published && s'.sessions == s.sessions
    ensures s'.processes == s.processes[1 := Reclaimant(duration, began, now, Some(Answer.Leased(s'.row.value, Some(range))))]
  {
    StoreRenewsLease(s.row, duration, began, now);
    s' := Next(s, CallStore(1, now));
    Act(run, |run|, s, CallStore(1, now), s');
    run' := run + [CallStore(1, now)];
  }

  lemma InstallReclaimed(run: seq<Action>, late: nat, s: System, duration: int, began: int, now: int, range: SeqRange)
    returns (run': seq<Action>, s': System)
    requires LeadsTo(run, late, s) && 1 in s.processes
    requires s.row.Some? && s.row.value.fence == FenceOf(NEW_BROKER, 2) && s.row.value.expiresAt == now + duration
    requires s.processes[1] == Reclaimant(duration, began, now, Some(Answer.Leased(s.row.value, Some(range))))
    ensures run' == run + [FinishTransition(1)] && LeadsTo(run', late, s')
    ensures s' == With(s, 1, Holder(NEW_BROKER, duration, began, 2, now + duration, range))
  {
    s' := Next(s, FinishTransition(1));
    Act(run, late, s, FinishTransition(1), s');
    run' := run + [FinishTransition(1)];
    assert s'.processes[1] == Holder(NEW_BROKER, duration, began, 2, now + duration, range);
  }

  /** The old broker relies on epoch 1 until `began`; the new one took epoch 2 then and asks again with `now`. */
  lemma LostClaim(duration: int, began: int, now: int) returns (run: seq<Action>, s: System)
    requires 0 < duration
    ensures |run| == 11 && LeadsTo(run, 11, s) && s.published == [] && s.epochBegan == began
    ensures 0 in s.processes && s.processes[0] == OldHolder(duration, began - duration, began, None)
    ensures s.row.Some? && s.row.value.fence == FenceOf(NEW_BROKER, 2) && s.row.value.expiresAt == began + duration
    ensures HighWater(s.row) == 2 * BASE - 1
    ensures 1 in s.processes && s.processes[1] == Reclaimant(duration, began, now, None)
  {
    run, s := FirstLease(11, duration, began - duration);
    run, s := Request(run, 11, s, 1, NEW_BROKER, duration, began);
    var row := s.row;
    run, s := TakeLease(run, 11, s, 1, NEW_BROKER, duration, began);
    run, s := LoseAnswer(run, 11, s, duration, began, now, Answer.Leased(s.row.value, Some(NextRange(row))));
  }

  /** A produce request must not renew with a reading more than the duration before its epoch began. */
  lemma StaleRequestBreaksTheOrder(duration: int, began: int, now: int) returns (run: seq<Action>)
    requires 0 < duration && now + duration < began
    ensures BreaksAfter(run, 11) && run[11] == CallStore(1, now)
    ensures var s := After(run[..11]);
            && 1 in s.processes && s.processes[1].duration == duration && Renews(s.row, s.processes[1].caller, now)
            && s.epochBegan == began && s.processes[1].flight.Some? && !s.processes[1].flight.value.renew
  {
    var before, s := LostClaim(duration, began, now);
    var range := NextRange(s.row);
    var s1;
    run, s1 := ReclaimLate(before, s, duration, began, now, range);
    run, s1 := InstallReclaimed(run, 11, s1, duration, began, now, range);
    run, s1 := PublishOne(run, 11, s1, 1, now);
    run, s1 := Overtake(run, 11, s1, duration, began - duration, began, None, began - 1);
    Conclude(before, s, CallStore(1, now), run, s1);
  }

  // ---------------------------------------------------------------------------------------------
  // Maintenance
  // ---------------------------------------------------------------------------------------------

  /** The renewal rewrites the old broker's own live lease with the reading `now`. */
  lemma RenewLate(run: seq<Action>, s: System, duration: int, clock: int, expiry: int, beganAt: int, now: int)
    returns (run': seq<Action>, s': System)
    requires LeadsTo(run, |run|, s) && 0 in s.processes && s.row.Some?
    requires s.processes[0] == Renewing(duration, clock, expiry, beganAt, None)
    requires OwnedBy(s.row.value, OLD_BROKER) && now < s.row.value.expiresAt
    ensures run' == run + [CallStore(0, now)] && LeadsTo(run', |run|, s')
    ensures s'.row.Some? && s'.row.value.fence == s.row.value.fence && s'.row.value.expiresAt == now + duration
    ensures s'.row.value.maxAllocated == s.row.value.maxAllocated
    ensures s'.published == s.published && s'.sessions == s.sessions
    ensures s'.processes == s.processes[0 := Renewing(duration, Max(clock, now), expiry, beganAt, Some(Answer.Leased(s'.row.value, None)))]
  {
    s' := Next(s, CallStore(0, now));
    Act(run, |run|, s, CallStore(0, now), s');
    run' := run + [CallStore(0, now)];
    assert s'.processes[0] == Renewing(duration, Max(clock, now), expiry, beganAt, Some(Answer.Leased(s'.row.value, None)));
  }

  lemma LoseRenewal(run: seq<Action>, late: nat, s: System, duration: int, clock: int, expiry: int, beganAt: int, answer: Answer)
    returns (run': seq<Action>, s': System)
    requires LeadsTo(run, late, s) && 0 in s.processes
    requires s.processes[0] == Renewing(duration, clock, expiry, beganAt, Some(answer))
    ensures run' == run + [DropTransition(0)] && LeadsTo(run', late, s')
    ensures s' == With(s, 0, OldHolder(duration, clock, expiry, Some(BASE)))
  {
    s' := Next(s, DropTransition(0));
    Act(run, late, s, DropTransition(0), s');
    run' := run + [DropTransition(0)];
    assert s'.processes[0] == OldHolder(duration, clock, expiry, Some(BASE));
  }

  /** After the lost renewal another broker comes and goes, and the old one renews again before its expiry. */
  lemma OvertakeAfterVisit(run: seq<Action>, late: nat, s: System, duration: int, clock: int, expiry: int)
    returns (run': seq<Action>, s': System)
    requires LeadsTo(run, late, s) && 0 in s.processes && 1 !in s.processes && NEW_BROKER.session !in s.sessions
    requires s.processes[0] == OldHolder(duration, clock, expiry, Some(BASE)) && 0 < duration && s.published == []
    requires s.row.Some? && s.row.value.fence.epoch == 1 && s.row.value.maxAllocated == Some(BASE - 1)
    requires s.row.value.expiresAt < expiry
    ensures run < run' && LeadsTo(run', late, s') && !Ordered(s'.published)
  {
    run', s' := Visit(run, late, s, duration, s.row.value.expiresAt);
    run', s' := Overtake(run', late, s', duration, clock, expiry, Some(BASE), expiry - 1);
  }

  /** A maintenance call must not shorten the lease below the expiry the broker relies on. */
  lemma ShorteningRenewalBreaksTheOrder(duration: int, acquiredAt: int, beganAt: int, now: int) returns (run: seq<Action>)
    requires 0 < duration && now + duration < acquiredAt + duration
    ensures BreaksAfter(run, 6) && run[6] == CallStore(0, now)
    ensures var s := After(run[..6]);
            && 0 in s.processes && s.processes[0].duration == duration && Renews(s.row, s.processes[0].caller, now)
            && s.processes[0].partition.expiry == Some(acquiredAt + duration)
            && s.processes[0].flight.Some? && s.processes[0].flight.value.beganAt == beganAt
  {
    var expiry := acquiredAt + duration;
    var before, s := FirstLease(6, duration, acquiredAt);
    before, s := BeginRenewal(before, 6, s, duration, acquiredAt, expiry, None, beganAt);
    var s1;
    run, s1 := RenewLate(before, s, duration, acquiredAt, expiry, beganAt, now);
    run, s1 := LoseRenewal(run, 6, s1, duration, acquiredAt, expiry, beganAt, Answer.Leased(s1.row.value, None));
    run, s1 := OvertakeAfterVisit(run, 6, s1, duration, acquiredAt, expiry);
    Conclude(before, s, CallStore(0, now), run, s1);
  }

  /** The old broker while a produce request that found its lease expired at `took` is in flight. */
  function Retaking(duration: int, clock: int, expiry: int, took: int, answer: Option<Answer>): Process {
    var p := OldHolder(duration, clock, expiry, None);
    p.(partition := p.partition.(inFlight := true),
       flight := Some(Flight(Work(1, true, true, None, Progress(None, None), None), false, took, answer)))
  }

  lemma BeginRetaking(run: seq<Action>, late: nat, s: System, duration: int, clock: int, expiry: int, took: int)
    returns (run': seq<Action>, s': System)
    requires LeadsTo(run, late, s) && 0 in s.processes && expiry <= took
    requires s.processes[0] == OldHolder(duration, clock, expiry, None)
    ensures run' == run + [BeginTransition(0, 1, took, false, BASE)] && LeadsTo(run', late, s')
    ensures s' == With(s, 0, Retaking(duration, clock, expiry, took, None))
  {
    var begin := BeginTransition(0, 1, took, false, BASE);
    s' := Next(s, begin);
    Act(run, late, s, begin, s');
    run' := run + [begin];
    assert s'.processes[0] == Retaking(duration, clock, expiry, took, None);
  }

  lemma CallRetaking(run: seq<Action>, late: nat, s: System, duration: int, clock: int, expiry: int, took: int)
    returns (run': seq<Action>, s': System)
    requires LeadsTo(run, late, s) && 0 in s.processes && |run| != late
    requires s.processes[0] == Retaking(duration, clock, expiry, took, None)
    requires s.row.Some? && s.row.value.fence.epoch == 2 && s.row.value.expiresAt <= took
    ensures run' == run + [CallStore(0, took)] && LeadsTo(run', late, s')
    ensures s'.row.Some? && s'.row.value.fence == FenceOf(OLD_BROKER, 3) && s'.row.value.expiresAt == took + duration
    ensures s'.epochBegan == took && s'.published == s.published && 0 in s'.processes
    ensures s'.processes[0]
         == Retaking(duration, Max(clock, took), expiry, took, Some(Answer.Leased(s'.row.value, None)))
  {
    s' := Next(s, CallStore(0, took));
    Act(run, late, s, CallStore(0, took), s');
    run' := run + [CallStore(0, took)];
  }

  /** The old broker's own later takeover, by a produce request whose answer is lost. */
  lemma LostTakeover(run: seq<Action>, late: nat, s: System, duration: int, clock: int, expiry: int, took: int)
    returns (run': seq<Action>, s': System)
    requires LeadsTo(run, late, s) && 0 in s.processes && |run| + 3 <= late && expiry <= took
    requires s.processes[0] == OldHolder(duration, clock, expiry, None)
    requires s.row.Some? && s.row.value.fence.epoch == 2 && s.row.value.expiresAt <= took
    ensures |run'| == |run| + 3 && run < run' && LeadsTo(run', late, s')
    ensures s'.row.Some? && s'.row.value.fence == FenceOf(OLD_BROKER, 3) && s'.row.value.expiresAt == took + duration
    ensures s'.epochBegan == took && s'.published == s.published
    ensures 0 in s'.processes && s'.processes[0] == OldHolder(duration, Max(clock, took), expiry, None)
  {
    var called, s1 := BeginRetaking(run, late, s, duration, clock, expiry, took);
    called, s1 := CallRetaking(called, late, s1, duration, clock, expiry, took);
    s' := Next(s1, DropTransition(0));
    Act(called, late, s1, DropTransition(0), s');
    run' := called + [DropTransition(0)];
    assert s'.processes[0] == OldHolder(duration, Max(clock, took), expiry, None);
  }

  /** The run up to that call: another broker came and went, and the old one forgot that it took epoch 3. */
  lemma Forgotten(duration: int, acquiredAt: int, took: int, beganAt: int) returns (run: seq<Action>, s: System)
    requires 0 < duration && beganAt < acquiredAt + duration <= took
    ensures |run| == 20 && LeadsTo(run, 20, s) && Published(s) && s.epochBegan == took
    ensures s.row.Some? && s.row.value.fence == FenceOf(OLD_BROKER, 3) && s.row.value.expiresAt == took + duration
    ensures 0 in s.processes && s.processes[0] == Renewing(duration, took, acquiredAt + duration, beganAt, None)
  {
    var expiry := acquiredAt + duration;
    run, s := FirstLease(20, duration, acquiredAt);
    run, s := Visit(run, 20, s, duration, expiry);
    run, s := LostTakeover(run, 20, s, duration, acquiredAt, expiry, took);
    run, s := BeginRenewal(run, 20, s, duration, took, expiry, None, beganAt);
  }

  /** A maintenance call must not renew an epoch taken at or after the expiry the broker relies on. */
  lemma ForgottenTakeoverBreaksTheOrder(duration: int, acquiredAt: int, took: int, beganAt: int, now: int)
    returns (run: seq<Action>)
    requires 0 < duration && acquiredAt + duration <= took
    requires beganAt < acquiredAt + duration && now < acquiredAt + duration
    ensures BreaksAfter(run, 20) && run[20] == CallStore(0, now)
    ensures var s := After(run[..20]);
            && 0 in s.processes && s.processes[0].duration == duration && Renews(s.row, s.processes[0].caller, now)
            && s.epochBegan == took && s.processes[0].partition.expiry == Some(acquiredAt + duration)
            && s.processes[0].flight.Some? && s.processes[0].flight.value.beganAt == beganAt
  {
    var expiry := acquiredAt + duration;
    var before, s := Forgotten(duration, acquiredAt, took, beganAt);
    var s1;
    run, s1 := RenewLate(before, s, duration, took, expiry, beganAt, now);
    run, s1 := PublishBehind(run, 20, s1, duration, took, expiry, beganAt, now);
    Conclude(before, s, CallStore(0, now), run, s1);
  }
}
