/**
 In every run a broker's buffered batches are exactly those accepted under the fence it holds, so a flush
 never meets batches of two fences, and what it publishes was accepted under the fence that is checked.
 */
module BufferFences {
  import opened Numeric
  import opened LeaseStore
  import opened Allocation
  import opened Transitions
  import opened LeaseProtocol

  predicate AllUnder(batches: seq<Batch>, fence: Option<Fence>) {
    forall i | 0 <= i < |batches| :: batches[i].fence == fence
  }

  predicate FencesOk(p: Process) {
    && (p.releasing ==> !p.owned)
    && (!p.releasing && p.partition.expiry.Some? ==> p.partition.fence.Some?)
    && (p.partition.buffer != [] ==> p.partition.fence.Some?)
    && AllUnder(p.partition.buffer, p.partition.fence)
    && (forall f | f in p.flushes ::
          p.flushes[f] != [] && p.flushes[f][0].fence.Some? && AllUnder(p.flushes[f], p.flushes[f][0].fence))
  }

  ghost predicate FencesInv(s: System) {
    forall id | id in s.processes :: FencesOk(s.processes[id])
  }

  lemma FinishKeepsFences(p: Process)
    requires FencesOk(p) && p.flight.Some?
    ensures FencesOk(p.(partition := Finished(p), flight := None)) && FencesOk(p.(partition := Dropped(p), flight := None))
  {
  }

  lemma AcceptKeepsFences(s: System, a: Action)
    requires Enabled(s, a) && a.Accept? && FencesOk(s.processes[a.id])
    ensures FencesOk(Next(s, a).processes[a.id])
  {
  }

  /** A flush takes the whole buffer: its batches share the one fence the broker holds. */
  lemma FlushTakesTheBuffer(s: System, a: Action)
    requires Enabled(s, a) && a.TakeFlush? && FencesOk(s.processes[a.id])
    ensures var p, p' := s.processes[a.id], Next(s, a).processes[a.id];
            && FencesOk(p') && p'.partition.buffer == []
            && p'.flushes == p.flushes[a.flush := p.partition.buffer]
  {
    var p := s.processes[a.id];
    forall b | b in p.partition.buffer
      ensures b.fence == p.partition.fence
    {
    }
  }

  predicate MovesBatches(a: Action) {
    a.Accept? || a.TakeFlush? || a.FinishTransition? || a.DropTransition?
  }

  lemma OtherKeepsFences(s: System, a: Action)
    requires Enabled(s, a) && !a.Start? && !a.Crash? && !MovesBatches(a) && FencesOk(s.processes[a.id])
    ensures FencesOk(Next(s, a).processes[a.id])
  {
  }

  lemma OnlyOneProcess(s: System, a: Action)
    requires Enabled(s, a) && !a.Start? && !a.Crash?
    ensures var s' := Next(s, a); a.id in s'.processes && s'.processes == s.processes[a.id := s'.processes[a.id]]
  {
  }

  lemma {:induction false} NextFences(s: System, a: Action)
    requires FencesInv(s) && Enabled(s, a)
    ensures FencesInv(Next(s, a))
  {
    if a.Start? || a.Crash? {
    } else {
      OnlyOneProcess(s, a);
      if a.Accept? {
        AcceptKeepsFences(s, a);
      } else if a.TakeFlush? {
        FlushTakesTheBuffer(s, a);
      } else if a.FinishTransition? || a.DropTransition? {
        FinishKeepsFences(s.processes[a.id]);
      } else {
        OtherKeepsFences(s, a);
      }
    }
  }

  lemma {:induction false} RunFences(run: seq<Action>)
    requires IsRun(run)
    ensures FencesInv(After(run))
    decreases |run|
  {
    if run != [] {
      RunFences(run[..|run| - 1]);
      NextFences(After(run[..|run| - 1]), run[|run| - 1]);
    }
  }

  /** In every run each buffered batch was accepted under the fence now held, and a flush takes them all. */
  lemma BufferedUnderHeldFence(run: seq<Action>, id: nat)
    requires IsRun(run) && id in After(run).processes
    ensures var p := After(run).processes[id];
            && (forall b | b in p.partition.buffer :: p.partition.fence.Some? && b.fence == p.partition.fence)
            && (forall flush | Enabled(After(run), TakeFlush(id, flush)) ::
                  var p' := Next(After(run), TakeFlush(id, flush)).processes[id];
                  p'.flushes == p.flushes[flush := p.partition.buffer])
  {
    RunFences(run);
    var p := After(run).processes[id];
    forall flush | Enabled(After(run), TakeFlush(id, flush))
      ensures Next(After(run), TakeFlush(id, flush)).processes[id].flushes == p.flushes[flush := p.partition.buffer]
    {
      FlushTakesTheBuffer(After(run), TakeFlush(id, flush));
    }
  }

  /** In every run a publication's batches were all accepted under the lease it is checked against, live at that moment. */
  lemma PublishedUnderLiveFence(run: seq<Action>, id: nat, flush: nat, now: int)
    requires IsRun(run) && Enabled(After(run), Publish(id, flush, now))
    ensures var s := After(run);
            && s.row.Some? && s.row.value.expiresAt > now
            && forall b | b in s.processes[id].flushes[flush] :: b.fence == Some(s.row.value.fence)
  {
    RunFences(run);
    var batches := After(run).processes[id].flushes[flush];
    forall b | b in batches
      ensures b.fence == batches[0].fence
    {
    }
  }
}
