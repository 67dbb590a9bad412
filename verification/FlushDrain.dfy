/**
 Dependencies point only to plans selected earlier, so the oldest unfinished plan never waits, and once
 storage calls return every finite set of plans drains.
 */
module FlushDrain {
  import opened Numeric
  import opened LeaseStore
  import opened FlushPipeline
  import opened FlushInvariants

  // ---------------------------------------------------------------------------------------------
  // Remaining work
  // ---------------------------------------------------------------------------------------------

  function Total(xs: seq<nat>): nat {
    if xs == [] then 0 else xs[0] + Total(xs[1..])
  }

  lemma {:induction false} TotalDecreases(xs: seq<nat>, ys: seq<nat>, i: nat)
    requires |xs| == |ys| && i < |xs| && ys[i] < xs[i] && forall j | 0 <= j < |xs| :: ys[j] <= xs[j]
    ensures Total(ys) < Total(xs)
    decreases |xs|
  {
    if i == 0 {
      TotalIsMonotone(xs[1..], ys[1..]);
    } else {
      TotalDecreases(xs[1..], ys[1..], i - 1);
    }
  }

  lemma {:induction false} TotalIsMonotone(xs: seq<nat>, ys: seq<nat>)
    requires |xs| == |ys| && forall j | 0 <= j < |xs| :: ys[j] <= xs[j]
    ensures Total(ys) <= Total(xs)
    decreases |xs|
  {
    if xs != [] {
      TotalIsMonotone(xs[1..], ys[1..]);
    }
  }

  function EpochWork(e: Epoch): nat {
    (if e.segment.None? then 1 else 0) + (if e.result.None? then 1 else 0)
  }

  function StageWork(stage: Stage): nat {
    match stage case Building => 2 case Publishing => 1 case Closed => 0
  }

  function Works(s: Pipeline): seq<nat> {
    seq(|s.epochs|, i requires 0 <= i < |s.epochs| => EpochWork(s.epochs[i]))
    + seq(|s.plans|, i requires 0 <= i < |s.plans| => StageWork(s.plans[i]))
  }

  function Work(s: Pipeline): nat {
    Total(Works(s))
  }

  /** The steps of plans that were already selected. */
  predicate IsPlanStep(a: Action) {
    || (a.Identify? && a.members != {}) || a.FailBuild? || a.MarkAssigned? || a.WriteRow? || a.FailEpoch? || a.Close?
  }

  /** No epoch and no plan gains work. */
  predicate NoMoreWork(s: Pipeline, s': Pipeline) {
    && |s'.epochs| == |s.epochs| && |s'.plans| == |s.plans|
    && (forall i | 0 <= i < |s.epochs| :: EpochWork(s'.epochs[i]) <= EpochWork(s.epochs[i]))
    && (forall i | 0 <= i < |s.plans| :: StageWork(s'.plans[i]) <= StageWork(s.plans[i]))
  }

  lemma PlanStepsAddNoWork(s: Pipeline, a: Action)
    requires Enabled(s, a) && IsPlanStep(a)
    ensures NoMoreWork(s, Next(s, a))
  {
  }

  lemma PlanStepsReduceWork(s: Pipeline, a: Action)
    requires Enabled(s, a) && IsPlanStep(a)
    ensures Work(Next(s, a)) < Work(s)
  {
    PlanStepsAddNoWork(s, a);
    LessWork(s, Next(s, a), SmallerAt(s, a));
  }

  lemma LessWork(s: Pipeline, s': Pipeline, i: nat)
    requires NoMoreWork(s, s') && i < |Works(s)| && |Works(s')| == |Works(s)| && Works(s')[i] < Works(s)[i]
    ensures Work(s') < Work(s)
  {
    forall j | 0 <= j < |Works(s)|
      ensures Works(s')[j] <= Works(s)[j]
    {
    }
    TotalDecreases(Works(s), Works(s'), i);
  }

  /** Where the work became less. */
  ghost function SmallerAt(s: Pipeline, a: Action): (i: nat)
    requires Enabled(s, a) && IsPlanStep(a)
    ensures i < |Works(s)| && |Works(Next(s, a))| == |Works(s)| && Works(Next(s, a))[i] < Works(s)[i]
  {
    match a
    case Identify(members, _) => var e :| e in members; e
    case FailBuild(plan) => |s.epochs| + plan
    case MarkAssigned(plan) => |s.epochs| + plan
    case WriteRow(e, _, _) => e
    case FailEpoch(e) => e
    case Close(plan, _) => |s.epochs| + plan
  }

  // ---------------------------------------------------------------------------------------------
  // The oldest plan
  // ---------------------------------------------------------------------------------------------

  predicate IsOldest(s: Pipeline, plan: nat) {
    plan < |s.plans| && s.plans[plan] != Closed && forall p | 0 <= p < plan :: s.plans[p] == Closed
  }

  /** Everything the oldest unfinished plan depends on is already terminal. */
  lemma OldestPlanNeverWaits(run: seq<Action>, plan: nat, e: nat)
    requires IsRun(run) && IsOldest(After(run), plan) && e < |After(run).epochs| && After(run).epochs[e].plan == plan
    ensures PredIs(After(run), e, {Succeeded, Failed})
  {
    RunInv(run);
    PredsAreTerminal(After(run), plan, e);
  }

  lemma PredsAreTerminal(s: Pipeline, plan: nat, e: nat)
    requires EpochsOk(s) && IsOldest(s, plan) && e < |s.epochs| && s.epochs[e].plan == plan
    ensures PredIs(s, e, {Succeeded, Failed})
  {
    assert EpochOk(s, e);
    if s.epochs[e].pred.Some? {
      assert EpochOk(s, s.epochs[e].pred.value);
    }
  }

  /** A step that neither gives up a plan nor fails an epoch whose predecessor has not failed. */
  predicate IsHealthy(s: Pipeline, a: Action)
    requires Enabled(s, a)
  {
    match a
    case FailBuild(_) => false
    case Close(_, aborted) => !aborted
    case WriteRow(_, landed, reported) => landed && reported
    case FailEpoch(e) => s.epochs[e].pred.Some? && PredIs(s, e, {Failed})
    case _ => true
  }

  lemma BuildingAdvances(s: Pipeline, plan: nat) returns (a: Action)
    requires EpochsOk(s) && IsOldest(s, plan) && s.plans[plan] == Building
    ensures Enabled(s, a) && IsPlanStep(a) && IsHealthy(s, a)
  {
    if e :| 0 <= e < |s.epochs| && s.epochs[e].plan == plan && s.epochs[e].segment.None? && PredIs(s, e, {Assigned, Succeeded}) {
      a := Identify({e}, s.nextId);
    } else {
      a := MarkAssigned(plan);
      forall e | 0 <= e < |s.epochs| && s.epochs[e].plan == plan && s.epochs[e].segment.None?
        ensures s.epochs[e].pred.Some? && PredIs(s, e, {Failed})
      {
        PredsAreTerminal(s, plan, e);
      }
    }
  }

  lemma PublishingAdvances(s: Pipeline, plan: nat) returns (a: Action)
    requires EpochsOk(s) && IsOldest(s, plan) && s.plans[plan] == Publishing
    ensures Enabled(s, a) && IsPlanStep(a) && IsHealthy(s, a)
  {
    if e :| 0 <= e < |s.epochs| && s.epochs[e].plan == plan && s.epochs[e].phase == Assigned && s.epochs[e].result.None? {
      PredsAreTerminal(s, plan, e);
      if PredIs(s, e, {Succeeded}) {
        a := WriteRow(e, true, true);
      } else {
        a := FailEpoch(e);
      }
    } else {
      a := Close(plan, false);
    }
  }

  /**
   In every reachable state with an unfinished plan, the oldest one has a step that is enabled without
   waiting for any other plan, fails nothing that had not failed, and leaves less work.
   */
  lemma OldestPlanAdvances(run: seq<Action>, plan: nat) returns (a: Action)
    requires IsRun(run) && IsOldest(After(run), plan)
    ensures Enabled(After(run), a) && IsPlanStep(a) && IsHealthy(After(run), a)
    ensures Work(Next(After(run), a)) < Work(After(run))
  {
    RunInv(run);
    if After(run).plans[plan] == Building {
      a := BuildingAdvances(After(run), plan);
    } else {
      a := PublishingAdvances(After(run), plan);
    }
    PlanStepsReduceWork(After(run), a);
  }

  /** Without new selections at most `Work` steps remain, so every finite set of plans drains. */
  lemma {:induction false} PlansDrain(run: seq<Action>, k: nat)
    requires IsRun(run) && k <= |run| && IsRun(run[..k]) && forall i | k <= i < |run| :: IsPlanStep(run[i])
    ensures |run| - k + Work(After(run)) <= Work(After(run[..k]))
    decreases |run|
  {
    if k == |run| {
      assert run[..k] == run;
    } else {
      var before := run[..|run| - 1];
      assert before[..k] == run[..k];
      PlansDrain(before, k);
      PlanStepsReduceWork(After(before), run[|run| - 1]);
    }
  }
}
