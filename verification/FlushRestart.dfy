/**
 The other half of the ordering condition: whenever a partition has no tail while an earlier epoch can
 still publish, some continuation makes a later epoch visible first; and such states are reachable.
 */
module FlushRestart {
  import opened Numeric
  import opened LeaseStore
  import opened FlushPipeline
  import opened FlushInvariants
  import opened FlushDrain
  import opened FlushOrder

  /** `run'` continues `run` without taking, closing or writing anything outside one plan. */
  ghost predicate OnlyPlan(s: Pipeline, s': Pipeline, plan: nat) {
    && |s'.epochs| == |s.epochs| && |s'.plans| == |s.plans| && s'.rows == s.rows
    && (forall i | 0 <= i < |s.epochs| && s.epochs[i].plan != plan :: s'.epochs[i] == s.epochs[i])
    && (forall i | 0 <= i < |s.plans| && i != plan :: s'.plans[i] == s.plans[i])
    && (forall key | key in s.parts && s.parts[key].tail.None? :: key in s'.parts && s'.parts[key].tail.None?)
  }

  lemma FailOne(run: seq<Action>, e: nat)
    requires IsRun(run) && Enabled(After(run), FailEpoch(e))
    ensures IsRun(run + [FailEpoch(e)])
    ensures var s, s' := After(run), After(run + [FailEpoch(e)]);
            && s' == WithEpoch(s, e, s.epochs[e].(result := Some(false))) && Work(s') < Work(s)
  {
    Extend(run, FailEpoch(e));
    PlanStepsReduceWork(After(run), FailEpoch(e));
  }

  /** Failing one more epoch of the plan first changes nothing outside the plan either. */
  lemma FailFirst(s: Pipeline, e: nat, plan: nat, s': Pipeline)
    requires e < |s.epochs| && s.epochs[e].plan == plan
    requires OnlyPlan(WithEpoch(s, e, s.epochs[e].(result := Some(false))), s', plan)
    ensures OnlyPlan(s, s', plan)
  {
    var s1 := WithEpoch(s, e, s.epochs[e].(result := Some(false)));
    forall i | 0 <= i < |s.epochs| && s.epochs[i].plan != plan
      ensures s'.epochs[i] == s.epochs[i]
    {
      assert s1.epochs[i] == s.epochs[i];
    }
  }

  /** Reports failure for every epoch of the plan that has no result yet. */
  lemma {:induction false} FailRest(run: seq<Action>, plan: nat) returns (run': seq<Action>)
    requires IsRun(run) && plan < |After(run).plans| && After(run).plans[plan] == Publishing
    ensures IsRun(run') && run <= run' && OnlyPlan(After(run), After(run'), plan)
    ensures After(run').plans[plan] == Publishing && Enabled(After(run'), Close(plan, false))
    ensures forall i | 0 <= i < |After(run).epochs| && After(run).epochs[i].result.Some? ::
              After(run').epochs[i] == After(run).epochs[i]
    decreases Work(After(run))
  {
    var s := After(run);
    if e :| 0 <= e < |s.epochs| && s.epochs[e].plan == plan && s.epochs[e].phase == Assigned && s.epochs[e].result.None? {
      FailOne(run, e);
      run' := FailRest(run + [FailEpoch(e)], plan);
      FailFirst(s, e, plan, After(run'));
    } else {
      run' := run;
    }
  }

  /** Completes the plan; an epoch that had reported success succeeds. */
  lemma FinishPlan(run: seq<Action>, p: nat) returns (run': seq<Action>)
    requires IsRun(run) && InStage(After(run), p, Publishing)
    requires After(run).epochs[p].phase == Assigned && After(run).epochs[p].result == Some(true)
    ensures IsRun(run') && run <= run' && OnlyPlan(After(run), After(run'), After(run).epochs[p].plan)
    ensures PhaseIs(After(run'), p, Succeeded)
  {
    var plan := After(run).epochs[p].plan;
    run' := FailRest(run, plan);
    Extend(run', Close(plan, false));
    run' := run' + [Close(plan, false)];
  }

  predicate MayWrite(s: Pipeline, e: nat) {
    Enabled(s, WriteRow(e, true, true))
  }

  /** Some epoch at or before a viable one can be made ready to write without any selection. */
  lemma {:induction false} BecomesWritable(run: seq<Action>, e: nat) returns (run': seq<Action>, d: nat)
    requires IsRun(run) && Viable(After(run), e)
    ensures IsRun(run') && run <= run' && d <= e && MayWrite(After(run'), d)
    ensures After(run').epochs[d].key == After(run).epochs[e].key
    ensures forall key | key in After(run).parts && After(run).parts[key].tail.None? ::
              key in After(run').parts && After(run').parts[key].tail.None?
    decreases e
  {
    RunInv(run);
    var s := After(run);
    assert EpochOk(s, e);
    run', d := run, e;
    if s.epochs[e].pred.Some? {
      var p := s.epochs[e].pred.value;
      if Viable(s, p) {
        run', d := BecomesWritable(run, p);
      } else if !PhaseIs(s, p, Succeeded) {
        run' := FinishPlan(run, p);
        assert s.epochs[e].plan != s.epochs[p].plan;
      }
    }
  }

  lemma SelectOne(run: seq<Action>, key: Key)
    requires IsRun(run) && Eligible(OpenPlan(After(run)), key)
    ensures IsRun(run + [Select([TakeUp(key)])])
    ensures After(run + [Select([TakeUp(key)])]) == Take(OpenPlan(After(run)), key)
  {
    var open := OpenPlan(After(run));
    var picks := [TakeUp(key)];
    assert picks[1..] == [] && picks[0] in picks;
    assert Pickable(Take(open, key), []);
    assert TakeAll(open, picks) == TakeAll(Take(open, key), []);
    Extend(run, Select([TakeUp(key)]));
  }

  /** Accepts a batch and selects it at once, behind the partition's tail. */
  lemma AcceptAndSelect(run: seq<Action>, key: Key) returns (run': seq<Action>)
    requires IsRun(run)
    requires var part := PartAt(After(run), key);
             part.tail.Some? ==> !PhaseIs(After(run), part.tail.value, Pending)
    ensures IsRun(run') && run <= run'
    ensures var s, s', part := After(run), After(run'), PartAt(After(run), key);
            && s'.epochs == s.epochs + [Epoch(key, |s.plans|, part.buffer + [|s.owner|], part.tail, Pending, None, None)]
            && s'.plans == s.plans + [Building]
            && s'.parts == s.parts[key := Part([], Some(|s.epochs|), part.outstanding + 1)]
            && s'.rows == s.rows && s'.nextId == s.nextId && s'.owner == s.owner + [key]
  {
    Extend(run, Accept(key));
    SelectOne(run + [Accept(key)], key);
    run' := run + [Accept(key)] + [Select([TakeUp(key)])];
  }

  /** A new epoch without predecessor takes an identity and publishes. */
  lemma Overtake(run: seq<Action>, key: Key) returns (run': seq<Action>)
    requires IsRun(run) && key in After(run).parts && After(run).parts[key].tail.None?
    ensures IsRun(run') && run <= run'
    ensures var s, s' := After(run), After(run');
            && |s'.epochs| == |s.epochs| + 1 && s'.epochs[..|s.epochs|] == s.epochs && s'.epochs[|s.epochs|].key == key
            && |s'.plans| == |s.plans| + 1 && s'.plans[..|s.plans|] == s.plans
            && s'.rows == s.rows + [|s.epochs|]
  {
    RunInv(run);
    var s := After(run);
    forall i | 0 <= i < |s.epochs|
      ensures s.epochs[i].plan < |s.plans|
    {
      assert EpochOk(s, i);
    }
    run' := AcceptAndSelect(run, key);
    run' := PublishNew(run', |s.epochs|);
  }

  /** The newest epoch passes its identity barrier; nothing else changes. */
  lemma GetIdentity(run: seq<Action>, n: nat) returns (run': seq<Action>)
    requires IsRun(run) && InStage(After(run), n, Building) && After(run).epochs[n].segment.None?
    requires |After(run).epochs| == n + 1 && PredIs(After(run), n, {Assigned, Succeeded})
    requires forall i | 0 <= i < n :: After(run).epochs[i].plan != After(run).epochs[n].plan
    ensures IsRun(run') && run <= run'
    ensures var s, s' := After(run), After(run');
            && s'.epochs == s.epochs[n := s.epochs[n].(phase := Assigned, segment := Some(s.nextId))]
            && s'.plans == s.plans[s.epochs[n].plan := Publishing] && s'.parts == s.parts && s'.rows == s.rows
  {
    var s := After(run);
    var identify, mark := Identify({n}, s.nextId), MarkAssigned(s.epochs[n].plan);
    Extend(run, identify);
    Extend(run + [identify], mark);
    run' := run + [identify] + [mark];
  }

  /** The newest epoch, alone in its plan and without predecessor, goes through both barriers. */
  lemma PublishNew(run: seq<Action>, n: nat) returns (run': seq<Action>)
    requires IsRun(run) && n == |After(run).epochs| - 1 && InStage(After(run), n, Building)
    requires var e := After(run).epochs[n]; e.pred.None? && e.segment.None? && e.result.None? && e.plan == |After(run).plans| - 1
    requires forall i | 0 <= i < n :: After(run).epochs[i].plan != After(run).epochs[n].plan
    ensures IsRun(run') && run <= run'
    ensures var s, s' := After(run), After(run');
            && |s'.epochs| == |s.epochs| && s'.epochs[..n] == s.epochs[..n] && s'.epochs[n].key == s.epochs[n].key
            && |s'.plans| == |s.plans| && s'.plans[..|s.plans| - 1] == s.plans[..|s.plans| - 1]
            && s'.rows == s.rows + [n]
  {
    run' := GetIdentity(run, n);
    Extend(run', WriteRow(n, true, true));
    run' := run' + [WriteRow(n, true, true)];
  }

  /**
   A restart that is not safe can always be used: from any reachable state in which a partition has no
   tail while one of its epochs may still publish, some continuation breaks the order.
   */
  lemma UnsafeRestartBreaksOrder(run: seq<Action>, key: Key) returns (run': seq<Action>)
    requires IsRun(run) && !RestartsSafely(After(run), key)
    ensures IsRun(run') && run <= run' && !Ordered(After(run'))
  {
    var e :| 0 <= e < |After(run).epochs| && After(run).epochs[e].key == key && Viable(After(run), e);
    var d;
    run', d := BecomesWritable(run, e);
    run' := OvertakeAndWrite(run', key, d);
  }

  /** The overtaken epoch writes its row after the newer one. */
  lemma {:induction false} OvertakeAndWrite(run: seq<Action>, key: Key, d: nat) returns (run': seq<Action>)
    requires IsRun(run) && key in After(run).parts && After(run).parts[key].tail.None?
    requires MayWrite(After(run), d) && After(run).epochs[d].key == key
    ensures IsRun(run') && run <= run' && !Ordered(After(run'))
  {
    var s := After(run);
    run' := Overtake(run, key);
    var s1 := After(run');
    StillMayWrite(s, s1, d);
    Extend(run', WriteRow(d, true, true));
    run' := run' + [WriteRow(d, true, true)];
    var s2 := After(run');
    assert s2.rows == s1.rows + [d];
    assert s2.rows[|s.rows|] == |s.epochs| && s2.rows[|s.rows| + 1] == d;
  }

  lemma StillMayWrite(s: Pipeline, s': Pipeline, d: nat)
    requires MayWrite(s, d) && |s.epochs| <= |s'.epochs| && s'.epochs[..|s.epochs|] == s.epochs
    requires |s.plans| <= |s'.plans| && s'.plans[..|s.plans|] == s.plans
    ensures MayWrite(s', d) && s'.epochs[d] == s.epochs[d]
  {
  }

  /**
   Such states are reachable: the second epoch of a partition fails its upload while the first is
   still publishing, which clears the tail and leaves the first epoch viable.
   */
  lemma UnsafeRestartIsReachable(key: Key) returns (run: seq<Action>)
    ensures IsRun(run) && key in After(run).parts && !RestartsSafely(After(run), key)
  {
    run := AcceptAndSelect([], key);
    run := GetIdentity(run, 0);
    run := AcceptAndSelect(run, key);
    run := GetIdentity(run, 1);
    run := FailNewest(run, key);
  }

  /** The second epoch reports failure and is closed. */
  lemma FailNewest(run: seq<Action>, key: Key) returns (run': seq<Action>)
    requires IsRun(run)
    requires var s := After(run);
             && s.plans == [Publishing, Publishing] && |s.epochs| == 2
             && s.epochs[0].key == key && s.epochs[0].plan == 0 && s.epochs[0].pred.None?
             && s.epochs[0].phase == Assigned && s.epochs[0].result.None?
             && s.epochs[1].key == key && s.epochs[1].plan == 1
             && key in s.parts && s.parts[key].tail == Some(1) && InStage(s, 1, Publishing) && s.epochs[1].result.None?
    ensures IsRun(run') && key in After(run').parts && !RestartsSafely(After(run'), key)
  {
    var s := After(run);
    Extend(run, FailEpoch(1));
    var s1 := Next(s, FailEpoch(1));
    assert s1.epochs[0] == s.epochs[0] && s1.epochs[1].result == Some(false);
    Extend(run + [FailEpoch(1)], Close(1, false));
    run' := run + [FailEpoch(1)] + [Close(1, false)];
    var s2 := Next(s1, Close(1, false));
    assert InPlan(s1.epochs, 1, key);
    assert s2.epochs[1].phase == Failed && s2.epochs[0] == s.epochs[0];
    assert Viable(s2, 0);
  }
}
