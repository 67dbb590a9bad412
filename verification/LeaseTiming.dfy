/**
 Conditions on the clock readings of lease calls under which a transition that does not reset the
 allocator never changes the fence. They hold in particular when the readings of each process do not go
 back and a maintenance call is made before the expiry it was decided under.
 */
module LeaseTiming {
  import opened Numeric
  import opened LeaseStore
  import opened Allocation
  import opened Transitions
  import opened LeaseProtocol
  import opened SequenceUniqueness
  import opened EpochOrder

  /** A call with this reading rewrites the caller's own lease. */
  predicate Renews(row: Option<Lease>, caller: Caller, now: int) {
    row.Some? && OwnedBy(row.value, caller) && now < row.value.expiresAt
  }

  /** An expiry that reaches the start of the row's epoch and the local expiry the process relies on. */
  predicate KeepsPromises(s: System, p: Process, expiry: int) {
    && s.epochBegan <= expiry
    && (!p.releasing && p.partition.expiry.Some? ==> p.partition.expiry.value <= expiry)
  }

  /**
   A transition that saw a live lease, and will be applied, makes its call before that lease's local
   expiry; a lease it then renews was taken before that expiry.
   */
  predicate CallsBeforeExpiry(s: System, p: Process, now: int)
    requires p.flight.Some?
  {
    IsCurrent(p) && !p.flight.value.work.leaseWasExpired ==>
      && p.partition.expiry.Some? && now < p.partition.expiry.value
      && (Renews(s.row, p.caller, now) ==> s.epochBegan < p.partition.expiry.value)
  }

  /** How late and how stale the readings of lease calls may be. Clocks of different processes are unrelated. */
  predicate Timely(s: System, a: Action)
    requires Enabled(s, a)
  {
    match a
    case Start(_, _, duration, _) => duration >= 0
    case CallStore(id, now) =>
      var p := s.processes[id];
      p.flight.value.work.needsLease ==>
        && CallsBeforeExpiry(s, p, now)
        && (Renews(s.row, p.caller, now) ==> KeepsPromises(s, p, now + p.duration))
    case DrainHeartbeat(id, now) =>
      var p := s.processes[id];
      Renews(s.row, p.caller, now) ==> KeepsPromises(s, p, now + p.duration)
    case Release(id, now, _, _) =>
      var p := s.processes[id];
      Renews(s.row, p.caller, now) ==> KeepsPromises(s, p, now)
    case _ => true
  }

  /** What a process may believe: a live fence is the row's and lasts at least as long there. */
  predicate Believes(s: System, session: string, fence: Fence, expiry: int) {
    && fence.session == session
    && fence.epoch <= Epoch(s.row)
    && (fence.epoch == Epoch(s.row) ==> s.row.Some? && s.row.value.fence == fence && expiry <= s.row.value.expiresAt)
    && (fence.epoch < Epoch(s.row) ==> expiry <= s.epochBegan)
  }

  predicate FlightOk(p: Process) {
    p.flight.Some? ==>
      && var work := p.flight.value.work;
      && (work.needsLease <==> p.flight.value.renew || work.leaseWasExpired)
      && work.generation <= p.generation
      && (work.generation == p.generation ==> p.owned)
      && (LeaseOf(p.flight.value).Some? ==> work.needsLease)
  }

  predicate TimingOk(s: System, p: Process) {
    && p.duration >= 0
    && p.caller.session in s.sessions
    && (p.releasing ==> !p.owned)
    && FlightOk(p)
    && (!p.releasing && p.partition.expiry.Some? ==>
          p.partition.fence.Some? && Believes(s, p.caller.session, p.partition.fence.value, p.partition.expiry.value))
    && (IsCurrent(p) && LeaseOf(p.flight.value).Some? ==>
          var lease := LeaseOf(p.flight.value).value;
          && Believes(s, p.caller.session, lease.fence, lease.expiresAt)
          && (!p.flight.value.work.leaseWasExpired ==> p.partition.fence == Some(lease.fence)))
    && (s.row.Some? && s.row.value.fence.session == p.caller.session ==> s.row.value.fence.holder == p.caller.holder)
  }

  ghost predicate TimingInv(s: System) {
    && (s.row.Some? ==> s.row.value.fence.session in s.sessions && s.epochBegan <= s.row.value.expiresAt)
    && (forall id | id in s.processes :: TimingOk(s, s.processes[id]))
    && (forall i, j | i in s.processes && j in s.processes && s.processes[i].caller.session == s.processes[j].caller.session ::
          i == j)
  }

  /** A lease call of one process leaves the beliefs of all others true. */
  lemma OthersStillBelieve(s: System, s': System, p: Process, caller: Caller, now: int)
    requires TimingOk(s, p) && p.caller.session != caller.session
    requires s.sessions <= s'.sessions
    requires s.row.Some? ==> s.epochBegan <= s.row.value.expiresAt
    requires RowMoved(s, s', caller, now)
    ensures TimingOk(s', p)
  {
  }

  /** What one lease call may do to the row. */
  predicate RowMoved(s: System, s': System, caller: Caller, now: int) {
    || (s'.row == s.row && s'.epochBegan == s.epochBegan)
    || (&& s'.row.Some? && s'.row.value.fence.session == caller.session
        && ( || (s.row.Some? && s'.row.value.fence == s.row.value.fence && s'.epochBegan == s.epochBegan)
             || (&& Epoch(s.row) < Epoch(s'.row) && s'.epochBegan == now
                 && (s.row.Some? ==> s.row.value.expiresAt <= now))))
  }

  // ---------------------------------------------------------------------------------------------
  // Each timely step keeps the beliefs true
  // ---------------------------------------------------------------------------------------------

  /** A lease call either renews the caller's own live lease or takes over an absent or expired one. */
  lemma LeaseCallRow(row: Option<Lease>, p: Process, work: Work, now: int)
    requires work.needsLease
    ensures var (row', answer) := StoreCall(row, p, work, now);
            && (!answer.Leased? ==> row' == row)
            && (answer.Leased? ==>
                  && row' == Some(answer.lease)
                  && OwnedBy(answer.lease, p.caller)
                  && answer.lease.expiresAt == now + p.duration
                  && (row.Some? && now < row.value.expiresAt ==> answer.lease.fence == row.value.fence)
                  && (row.None? || row.value.expiresAt <= now ==> Epoch(row) < Epoch(row')))
  {
    AcquireContract(row, AcquireRequestOf(p, work, now));
  }

  lemma ReserveCallRow(row: Option<Lease>, p: Process, work: Work, now: int)
    requires !work.needsLease
    ensures var (row', answer) := StoreCall(row, p, work, now);
            && !answer.Leased?
            && (row == row' || (&& row.Some? && row'.Some? && row'.value.fence == row.value.fence
                                && row'.value.expiresAt == row.value.expiresAt && OwnedBy(row.value, p.caller)))
  {
    if work.reservation.Some? {
      ReserveContract(row, p.caller, now, work.reservation.value.size, work.progress);
    }
  }

  /** The heart of the matter: without a reset, the answered fence is the fence already held. */
  lemma UnresetCallKeepsFence(s: System, p: Process, now: int)
    requires TimingOk(s, p) && p.flight.Some? && p.flight.value.work.needsLease
    requires s.row.Some? ==> s.epochBegan <= s.row.value.expiresAt
    requires CallsBeforeExpiry(s, p, now)
    requires IsCurrent(p) && !p.flight.value.work.leaseWasExpired
    ensures var answer := StoreCall(s.row, p, p.flight.value.work, now).1;
            answer.Leased? ==> p.partition.fence == Some(answer.lease.fence)
  {
    LeaseCallRow(s.row, p, p.flight.value.work, now);
  }

  /** The calling process and the system after its call. */
  function Called(s: System, p: Process, now: int): Process
    requires p.flight.Some?
  {
    (if p.flight.value.work.needsLease then Ticked(p, now) else p)
    .(flight := Some(p.flight.value.(answer := Some(StoreCall(s.row, p, p.flight.value.work, now).1))))
  }

  lemma LeaseCallerStillBelieves(s: System, p: Process, now: int)
    requires TimingOk(s, p) && p.flight.Some? && p.flight.value.work.needsLease
    requires s.row.Some? ==> s.epochBegan <= s.row.value.expiresAt
    requires CallsBeforeExpiry(s, p, now)
    requires Renews(s.row, p.caller, now) ==> KeepsPromises(s, p, now + p.duration)
    ensures TimingOk(WithLease(s, StoreCall(s.row, p, p.flight.value.work, now).0, now), Called(s, p, now))
  {
    LeaseCallRow(s.row, p, p.flight.value.work, now);
    if IsCurrent(p) && !p.flight.value.work.leaseWasExpired {
      UnresetCallKeepsFence(s, p, now);
    }
  }

  lemma ReserveCallerStillBelieves(s: System, p: Process, now: int)
    requires TimingOk(s, p) && p.flight.Some? && !p.flight.value.work.needsLease
    ensures TimingOk(WithLease(s, StoreCall(s.row, p, p.flight.value.work, now).0, now), Called(s, p, now))
  {
    ReserveCallRow(s.row, p, p.flight.value.work, now);
  }

  /** `TimingOk` looks only at the row, the sessions and the process. */
  lemma SameRowSameBeliefs(s: System, s': System, p: Process)
    requires TimingOk(s, p) && s'.row == s.row && s'.sessions == s.sessions && s'.epochBegan == s.epochBegan
    ensures TimingOk(s', p)
  {
  }

  lemma {:induction false} CallerStillBelieves(s: System, id: nat, now: int)
    requires TimingInv(s) && Enabled(s, CallStore(id, now)) && Timely(s, CallStore(id, now))
    ensures var s' := Next(s, CallStore(id, now)); TimingOk(s', s'.processes[id])
  {
    var p := s.processes[id];
    if p.flight.value.work.needsLease {
      LeaseCallerStillBelieves(s, p, now);
    } else {
      ReserveCallerStillBelieves(s, p, now);
    }
    var called := WithLease(s, StoreCall(s.row, p, p.flight.value.work, now).0, now);
    SameRowSameBeliefs(called, Next(s, CallStore(id, now)), Called(s, p, now));
  }

  lemma CallMovesRow(s: System, id: nat, now: int)
    requires Enabled(s, CallStore(id, now))
    ensures var s' := Next(s, CallStore(id, now));
            && RowMoved(s, s', s.processes[id].caller, now)
            && (s'.row.Some? && s.row.Some? && Epoch(s.row) == Epoch(s'.row) ==>
                  || s'.row.value.expiresAt == s.row.value.expiresAt
                  || (s.processes[id].flight.value.work.needsLease
                      && s'.row.value.expiresAt == now + s.processes[id].duration))
  {
    var p := s.processes[id];
    var work := p.flight.value.work;
    if work.needsLease {
      LeaseCallRow(s.row, p, work, now);
    } else {
      ReserveCallRow(s.row, p, work, now);
    }
  }

  /** Only one process and the row changed, and the others keep believing. */
  lemma RowStepTiming(s: System, s': System, id: nat, now: int)
    requires TimingInv(s) && id in s.processes && id in s'.processes
    requires s'.processes == s.processes[id := s'.processes[id]] && s'.sessions == s.sessions
    requires s'.processes[id].caller == s.processes[id].caller
    requires RowMoved(s, s', s.processes[id].caller, now)
    requires s'.row.Some? ==> s'.epochBegan <= s'.row.value.expiresAt
    requires TimingOk(s', s'.processes[id])
    ensures TimingInv(s')
  {
    forall j | j in s'.processes
      ensures TimingOk(s', s'.processes[j])
    {
      if j != id {
        OthersStillBelieve(s, s', s.processes[j], s.processes[id].caller, now);
      }
    }
  }

  lemma {:induction false} CallStoreTiming(s: System, id: nat, now: int)
    requires TimingInv(s) && Enabled(s, CallStore(id, now)) && Timely(s, CallStore(id, now))
    ensures TimingInv(Next(s, CallStore(id, now)))
  {
    var s' := Next(s, CallStore(id, now));
    CallerStillBelieves(s, id, now);
    CallMovesRow(s, id, now);
    assert s'.processes == s.processes[id := s'.processes[id]];
    RowStepTiming(s, s', id, now);
  }

  lemma {:induction false} HeartbeatTiming(s: System, a: Action)
    requires TimingInv(s) && Enabled(s, a) && Timely(s, a) && a.DrainHeartbeat?
    ensures TimingInv(Next(s, a))
  {
    var s' := Next(s, a);
    assert s'.processes == s.processes[a.id := s'.processes[a.id]];
    RowStepTiming(s, s', a.id, a.now);
  }

  lemma ReleaseTiming(s: System, a: Action)
    requires TimingInv(s) && Enabled(s, a) && Timely(s, a) && a.Release?
    ensures TimingInv(Next(s, a))
  {
    var s' := Next(s, a);
    ReleaseKeepsFence(s.row, s.processes[a.id], a.now, a.rewritesExpired);
    assert s'.processes == s.processes[a.id := s'.processes[a.id]];
    RowStepTiming(s, s', a.id, a.now);
  }

  lemma LocalTiming(s: System, s': System, id: nat)
    requires TimingInv(s) && id in s.processes && id in s'.processes
    requires s'.row == s.row && s'.epochBegan == s.epochBegan && s'.sessions == s.sessions
    requires s'.processes == s.processes[id := s'.processes[id]]
    requires s'.processes[id].caller == s.processes[id].caller && TimingOk(s, s'.processes[id])
    ensures TimingInv(s')
  {
    RowStepTiming(s, s', id, 0);
  }

  lemma FinishKeepsBeliefs(s: System, p: Process)
    requires TimingOk(s, p) && p.flight.Some?
    ensures TimingOk(s, p.(partition := Finished(p), flight := None))
  {
  }

  lemma FinishCarriesNothingOver(s: System, p: Process)
    requires TimingOk(s, p) && p.flight.Some?
    ensures CarriesNothingOver(p)
  {
  }

  lemma FlightStepTiming(s: System, a: Action)
    requires Enabled(s, a) && (a.BeginTransition? || a.Reread? || a.DropTransition?) && TimingOk(s, s.processes[a.id])
    ensures TimingOk(s, Next(s, a).processes[a.id])
  {
  }

  lemma LocalStepTiming(s: System, a: Action)
    requires Enabled(s, a) && IsLocal(a) && TimingOk(s, s.processes[a.id])
    ensures TimingOk(s, Next(s, a).processes[a.id])
  {
    if a.BeginTransition? || a.Reread? || a.DropTransition? {
      FlightStepTiming(s, a);
    }
  }

  lemma StartTiming(s: System, a: Action)
    requires TimingInv(s) && Enabled(s, a) && Timely(s, a) && a.Start?
    ensures TimingInv(Next(s, a))
  {
  }

  lemma CrashTiming(s: System, a: Action)
    requires TimingInv(s) && Enabled(s, a) && a.Crash?
    ensures TimingInv(Next(s, a))
  {
  }

  predicate IsLocal(a: Action) {
    !a.Start? && !a.Crash? && !a.CallStore? && !a.FinishTransition? && !a.DrainHeartbeat? && !a.Release?
  }

  lemma {:induction false} LocalActionTiming(s: System, a: Action)
    requires TimingInv(s) && Enabled(s, a) && IsLocal(a)
    ensures TimingInv(Next(s, a))
  {
    var s' := Next(s, a);
    LocalStepTiming(s, a);
    assert s'.processes == s.processes[a.id := s'.processes[a.id]];
    LocalTiming(s, s', a.id);
  }

  lemma {:induction false} FinishActionTiming(s: System, a: Action)
    requires TimingInv(s) && Enabled(s, a) && a.FinishTransition?
    ensures TimingInv(Next(s, a)) && Careful(s, a)
  {
    var s' := Next(s, a);
    FinishKeepsBeliefs(s, s.processes[a.id]);
    FinishCarriesNothingOver(s, s.processes[a.id]);
    assert s'.processes == s.processes[a.id := s'.processes[a.id]];
    LocalTiming(s, s', a.id);
  }

  lemma {:induction false} NextTiming(s: System, a: Action)
    requires TimingInv(s) && Enabled(s, a) && Timely(s, a)
    ensures TimingInv(Next(s, a)) && Careful(s, a)
  {
    if IsLocal(a) {
      LocalActionTiming(s, a);
    } else if a.Start? {
      StartTiming(s, a);
    } else if a.Crash? {
      CrashTiming(s, a);
    } else if a.CallStore? {
      CallStoreTiming(s, a.id, a.now);
    } else if a.DrainHeartbeat? {
      HeartbeatTiming(s, a);
    } else if a.Release? {
      ReleaseTiming(s, a);
    } else {
      FinishActionTiming(s, a);
    }
  }

  predicate TimelyRun(run: seq<Action>)
    requires IsRun(run)
    decreases |run|
  {
    run == [] || (TimelyRun(run[..|run| - 1]) && Timely(After(run[..|run| - 1]), run[|run| - 1]))
  }

  lemma {:induction false} TimelyRunsAreCareful(run: seq<Action>)
    requires IsRun(run) && TimelyRun(run)
    ensures TimingInv(After(run)) && CarefulRun(run)
    decreases |run|
  {
    if run != [] {
      TimelyRunsAreCareful(run[..|run| - 1]);
      NextTiming(After(run[..|run| - 1]), run[|run| - 1]);
    }
  }

  /** With timely lease calls, publication order is epoch order and epochs do not overlap. */
  lemma TimelyRunsPublishInOrder(run: seq<Action>)
    requires IsRun(run) && TimelyRun(run)
    ensures Ordered(After(run).published)
  {
    TimelyRunsAreCareful(run);
    CarefulRunsPublishInOrder(run);
  }

  // ---------------------------------------------------------------------------------------------
  // Clocks that do not go back
  // ---------------------------------------------------------------------------------------------

  /** The readings of a process do not go back, and maintenance calls are made before the local expiry. */
  predicate Forward(s: System, a: Action)
    requires Enabled(s, a)
  {
    match a
    case Start(_, _, duration, _) => duration >= 0
    case CallStore(id, now) =>
      var p := s.processes[id];
      p.flight.value.work.needsLease ==>
        && p.clock <= now
        && (p.flight.value.work.leaseWasExpired || (p.partition.expiry.Some? && now < p.partition.expiry.value))
    case DrainHeartbeat(id, now) => s.processes[id].clock <= now
    case Release(id, now, _, _) => s.processes[id].clock <= now
    case _ => true
  }

  /** The lease a session holds was taken, and last renewed, no later than its process's latest reading. */
  predicate ClockOk(s: System, p: Process) {
    s.row.Some? && s.row.value.fence.session == p.caller.session ==>
      s.epochBegan <= p.clock && s.row.value.expiresAt <= p.clock + p.duration
  }

  ghost predicate ClockInv(s: System) {
    forall id | id in s.processes :: ClockOk(s, s.processes[id])
  }

  lemma ForwardIsTimely(s: System, a: Action)
    requires TimingInv(s) && ClockInv(s) && Enabled(s, a) && Forward(s, a)
    ensures Timely(s, a)
  {
  }

  lemma RowStepClocks(s: System, s': System, id: nat, now: int)
    requires TimingInv(s) && ClockInv(s) && id in s.processes && id in s'.processes
    requires s'.processes == s.processes[id := s'.processes[id]] && ClockOk(s', s'.processes[id])
    requires RowMoved(s, s', s.processes[id].caller, now)
    ensures ClockInv(s')
  {
  }

  lemma CallClocks(s: System, id: nat, now: int)
    requires TimingInv(s) && ClockInv(s) && Enabled(s, CallStore(id, now)) && Forward(s, CallStore(id, now))
    ensures ClockInv(Next(s, CallStore(id, now)))
  {
    var s' := Next(s, CallStore(id, now));
    var p := s.processes[id];
    if p.flight.value.work.needsLease {
      LeaseCallRow(s.row, p, p.flight.value.work, now);
    } else {
      ReserveCallRow(s.row, p, p.flight.value.work, now);
    }
    CallMovesRow(s, id, now);
    assert s'.processes == s.processes[id := s'.processes[id]];
    RowStepClocks(s, s', id, now);
  }

  lemma HeartbeatClocks(s: System, a: Action)
    requires TimingInv(s) && ClockInv(s) && Enabled(s, a) && Forward(s, a) && a.DrainHeartbeat?
    ensures ClockInv(Next(s, a))
  {
    var s' := Next(s, a);
    assert s'.processes == s.processes[a.id := s'.processes[a.id]];
    RowStepClocks(s, s', a.id, a.now);
  }

  lemma ReleaseClocks(s: System, a: Action)
    requires TimingInv(s) && ClockInv(s) && Enabled(s, a) && Forward(s, a) && a.Release?
    ensures ClockInv(Next(s, a))
  {
    var s' := Next(s, a);
    ReleaseKeepsFence(s.row, s.processes[a.id], a.now, a.rewritesExpired);
    assert s'.processes == s.processes[a.id := s'.processes[a.id]];
    RowStepClocks(s, s', a.id, a.now);
  }

  lemma StartClocks(s: System, a: Action)
    requires TimingInv(s) && ClockInv(s) && Enabled(s, a) && (a.Start? || a.Crash?)
    ensures ClockInv(Next(s, a))
  {
  }

  /** A local step leaves the row, and every process's identity and clock, alone. */
  lemma LocalKeepsClock(s: System, a: Action)
    requires Enabled(s, a) && (IsLocal(a) || a.FinishTransition?)
    ensures var s' := Next(s, a);
            && s'.row == s.row && s'.epochBegan == s.epochBegan && a.id in s'.processes
            && s'.processes == s.processes[a.id := s'.processes[a.id]]
            && s'.processes[a.id].caller == s.processes[a.id].caller
            && s'.processes[a.id].clock == s.processes[a.id].clock
            && s'.processes[a.id].duration == s.processes[a.id].duration
  {
  }

  lemma LocalClocks(s: System, s': System, id: nat)
    requires ClockInv(s) && id in s.processes && id in s'.processes && s'.row == s.row && s'.epochBegan == s.epochBegan
    requires s'.processes == s.processes[id := s'.processes[id]] && s'.processes[id].caller == s.processes[id].caller
    requires s'.processes[id].clock == s.processes[id].clock && s'.processes[id].duration == s.processes[id].duration
    ensures ClockInv(s')
  {
  }

  predicate ForwardRun(run: seq<Action>)
    requires IsRun(run)
    decreases |run|
  {
    run == [] || (ForwardRun(run[..|run| - 1]) && Forward(After(run[..|run| - 1]), run[|run| - 1]))
  }

  lemma {:induction false} ForwardRunsAreTimely(run: seq<Action>)
    requires IsRun(run) && ForwardRun(run)
    ensures TimelyRun(run) && ClockInv(After(run))
    decreases |run|
  {
    if run != [] {
      var before, last := run[..|run| - 1], run[|run| - 1];
      ForwardRunsAreTimely(before);
      TimelyRunsAreCareful(before);
      ForwardIsTimely(After(before), last);
      if last.CallStore? {
        CallClocks(After(before), last.id, last.now);
      } else if last.DrainHeartbeat? {
        HeartbeatClocks(After(before), last);
      } else if last.Release? {
        ReleaseClocks(After(before), last);
      } else if last.Start? || last.Crash? {
        StartClocks(After(before), last);
      } else {
        LocalKeepsClock(After(before), last);
        LocalClocks(After(before), Next(After(before), last), last.id);
      }
    }
  }
}
