/**
 A partition's rows land in selection order exactly when a publication chain is restarted only while no
 earlier epoch can still publish. The scheduler clears a failed tail without looking, so the condition
 can fail.
 */
module FlushOrder {
  import opened Numeric
  import opened LeaseStore
  import opened FlushPipeline
  import opened FlushInvariants

  /** A later epoch of a partition is never visible before an earlier one. */
  ghost predicate Ordered(s: Pipeline) {
    forall i, j | 0 <= i < j < |s.rows| && s.rows[i] < |s.epochs| && s.rows[j] < |s.epochs|
                  && s.epochs[s.rows[i]].key == s.epochs[s.rows[j]].key :: s.rows[i] < s.rows[j]
  }

  /** The epoch may still publish: it has an identity, no result yet, and a predecessor that may succeed. */
  predicate Viable(s: Pipeline, e: nat)
    decreases e, 0
  {
    && InStage(s, e, Publishing) && s.epochs[e].phase == Assigned && s.epochs[e].result.None?
    && (s.epochs[e].pred.Some? ==> s.epochs[e].pred.value < e && MaySucceed(s, s.epochs[e].pred.value))
  }

  predicate MaySucceed(s: Pipeline, p: nat)
    decreases p, 1
  {
    || PhaseIs(s, p, Succeeded)
    || (InStage(s, p, Publishing) && s.epochs[p].phase == Assigned && s.epochs[p].result == Some(true))
    || Viable(s, p)
  }

  /** Starting a chain afresh is harmless when nothing of the old one can still publish. */
  ghost predicate RestartsSafely(s: Pipeline, key: Key) {
    key in s.parts && s.parts[key].tail.None? ==>
      forall e | 0 <= e < |s.epochs| && s.epochs[e].key == key :: !Viable(s, e)
  }

  ghost predicate CarefulPicks(s: Pipeline, picks: seq<Pick>)
    requires s.plans != [] && Pickable(s, picks)
    decreases |picks|
  {
    picks == [] || (&& (picks[0].TakeUp? ==> RestartsSafely(s, picks[0].key))
                    && CarefulPicks(ApplyPick(s, picks[0]), picks[1..]))
  }

  ghost predicate Careful(s: Pipeline, a: Action)
    requires Enabled(s, a)
  {
    a.Select? ==> CarefulPicks(OpenPlan(s), a.picks)
  }

  // ---------------------------------------------------------------------------------------------
  // Careful restarts keep the order
  // ---------------------------------------------------------------------------------------------

  /** An epoch past its identity barrier that cannot publish any more. */
  predicate Spent(s: Pipeline, d: nat) {
    d < |s.epochs| && s.epochs[d].phase != Pending && !Viable(s, d)
  }

  ghost predicate OrderInv(s: Pipeline) {
    && Ordered(s)
    && (forall i | 0 <= i < |s.rows| :: s.rows[i] < |s.epochs|)
    && (forall d, e | 0 <= d < e < |s.epochs| && s.epochs[d].key == s.epochs[e].key :: InChain(s, d, e) || Spent(s, d))
  }

  lemma {:induction false} ChainStays(s: Pipeline, s': Pipeline, d: nat, e: nat)
    requires |s.epochs| <= |s'.epochs| && forall i | 0 <= i < |s.epochs| :: s'.epochs[i].pred == s.epochs[i].pred
    requires e < |s.epochs| && InChain(s, d, e)
    ensures InChain(s', d, e)
    decreases e
  {
    if d != e {
      ChainStays(s, s', d, s.epochs[e].pred.value);
    }
  }

  /** Every step other than a selection: what can no longer succeed will not. */
  lemma {:induction false} HopelessStays(s: Pipeline, a: Action, p: nat)
    requires ShapeInv(s) && Enabled(s, a) && !a.Select? && p < |s.epochs| && s.epochs[p].phase != Pending && !MaySucceed(s, p)
    ensures !MaySucceed(Next(s, a), p)
    decreases p, 1
  {
    assert EpochOk(s, p);
    if a.WriteRow? && a.epoch == p && s.epochs[p].pred.Some? {
      assert MaySucceed(s, s.epochs[p].pred.value);
    }
    SpentStays(s, a, p);
  }

  lemma {:induction false} SpentStays(s: Pipeline, a: Action, d: nat)
    requires ShapeInv(s) && Enabled(s, a) && !a.Select? && Spent(s, d)
    ensures Spent(Next(s, a), d)
    decreases d, 0
  {
    NextShape(s, a);
    var s' := Next(s, a);
    assert Evolves(s.epochs[d], s'.epochs[d]);
    assert EpochOk(s, d);
    if s.epochs[d].pred.Some? {
      var p := s.epochs[d].pred.value;
      if !MaySucceed(s, p) {
        HopelessStays(s, a, p);
      }
    }
  }

  lemma WriteKeepsOrder(s: Pipeline, e: nat, landed: bool, reported: bool)
    requires ShapeInv(s) && RowInv(s) && OrderInv(s) && Enabled(s, WriteRow(e, landed, reported))
    ensures Ordered(Next(s, WriteRow(e, landed, reported)))
  {
    if s.epochs[e].pred.Some? {
      assert EpochOk(s, e);
    }
    assert Viable(s, e);
    forall i: nat | i < |s.rows|
      ensures s.rows[i] != e
    {
      assert RowOk(s, i);
    }
    forall i: nat | i < |s.rows| && s.rows[i] < |s.epochs| && s.epochs[s.rows[i]].key == s.epochs[e].key
      ensures s.rows[i] < e
    {
      if s.rows[i] > e {
        assert InChain(s, e, s.rows[i]);
        ChainIsWritten(s, e, i);
      }
    }
  }

  lemma StepKeepsOrder(s: Pipeline, a: Action)
    requires ShapeInv(s) && RowInv(s) && OrderInv(s) && Enabled(s, a) && !a.Select?
    ensures OrderInv(Next(s, a))
  {
    var s' := Next(s, a);
    NextShape(s, a);
    forall i | 0 <= i < |s.epochs|
      ensures s'.epochs[i].pred == s.epochs[i].pred && s'.epochs[i].key == s.epochs[i].key
    {
      assert Evolves(s.epochs[i], s'.epochs[i]);
    }
    forall d, e | 0 <= d < e < |s'.epochs| && s'.epochs[d].key == s'.epochs[e].key
      ensures InChain(s', d, e) || Spent(s', d)
    {
      if InChain(s, d, e) {
        ChainStays(s, s', d, e);
      } else {
        SpentStays(s, a, d);
      }
    }
    if a.WriteRow? {
      WriteKeepsOrder(s, a.epoch, a.landed, a.reported);
    }
  }

  /** Taking an epoch changes no earlier one. */
  lemma {:induction false} SpentAfterTake(s: Pipeline, key: Key, d: nat)
    requires s.plans != [] && Eligible(s, key) && d < |s.epochs|
    ensures Viable(Take(s, key), d) == Viable(s, d)
    decreases d
  {
    if s.epochs[d].pred.Some? && s.epochs[d].pred.value < d {
      SpentAfterTake(s, key, s.epochs[d].pred.value);
    }
  }

  lemma TakeKeepsOrder(s: Pipeline, key: Key)
    requires ShapeInv(s) && OrderInv(s) && s.plans != [] && Eligible(s, key) && RestartsSafely(s, key)
    ensures OrderInv(Take(s, key))
  {
    var s' := Take(s, key);
    forall d, e | 0 <= d < e < |s'.epochs| && s'.epochs[d].key == s'.epochs[e].key
      ensures InChain(s', d, e) || Spent(s', d)
    {
      SpentAfterTake(s, key, d);
      if e < |s.epochs| {
        if InChain(s, d, e) {
          ChainStays(s, s', d, e);
        }
      } else if s.parts[key].tail.Some? {
        var t := s.parts[key].tail.value;
        if d == t || InChain(s, d, t) {
          ChainStays(s, s', d, t);
        }
      }
    }
  }

  /** Opening a plan adds a stage at the end. */
  lemma {:induction false} SpentAfterOpenPlan(s: Pipeline, d: nat)
    requires EpochsOk(s) && d < |s.epochs|
    ensures Viable(OpenPlan(s), d) == Viable(s, d)
    decreases d
  {
    assert EpochOk(s, d);
    if s.epochs[d].pred.Some? && s.epochs[d].pred.value < d {
      assert EpochOk(s, s.epochs[d].pred.value);
      SpentAfterOpenPlan(s, s.epochs[d].pred.value);
    }
  }

  lemma OpenPlanKeepsOrder(s: Pipeline)
    requires ShapeInv(s) && OrderInv(s)
    ensures OrderInv(OpenPlan(s))
  {
    var s' := OpenPlan(s);
    forall d, e | 0 <= d < e < |s'.epochs| && s'.epochs[d].key == s'.epochs[e].key
      ensures InChain(s', d, e) || Spent(s', d)
    {
      SpentAfterOpenPlan(s, d);
      if InChain(s, d, e) {
        ChainStays(s, s', d, e);
      }
    }
  }

  /** Dropping a buffer touches no epoch. */
  lemma {:induction false} SpentAfterDrop(s: Pipeline, key: Key, d: nat)
    requires key in s.parts && d < |s.epochs|
    ensures Viable(Drop(s, key), d) == Viable(s, d)
    decreases d
  {
    if s.epochs[d].pred.Some? && s.epochs[d].pred.value < d {
      SpentAfterDrop(s, key, s.epochs[d].pred.value);
    }
  }

  lemma DropKeepsOrder(s: Pipeline, key: Key)
    requires OrderInv(s) && key in s.parts
    ensures OrderInv(Drop(s, key))
  {
    var s' := Drop(s, key);
    forall d, e | 0 <= d < e < |s'.epochs| && s'.epochs[d].key == s'.epochs[e].key
      ensures InChain(s', d, e) || Spent(s', d)
    {
      SpentAfterDrop(s, key, d);
      if InChain(s, d, e) {
        ChainStays(s, s', d, e);
      }
    }
  }

  lemma {:induction false} TakeAllKeepsOrder(s: Pipeline, picks: seq<Pick>)
    requires ShapeInv(s) && OrderInv(s) && s.plans != [] && s.plans[|s.plans| - 1] == Building && Pickable(s, picks)
    requires CarefulPicks(s, picks)
    ensures OrderInv(TakeAll(s, picks))
    decreases |picks|
  {
    if picks != [] {
      PickShape(s, picks[0]);
      match picks[0] {
        case TakeUp(key) => TakeKeepsOrder(s, key);
        case DropOut(key) => DropKeepsOrder(s, key);
      }
      TakeAllKeepsOrder(ApplyPick(s, picks[0]), picks[1..]);
    }
  }

  ghost predicate CarefulRun(run: seq<Action>)
    requires IsRun(run)
    decreases |run|
  {
    run == [] || (CarefulRun(run[..|run| - 1]) && Careful(After(run[..|run| - 1]), run[|run| - 1]))
  }

  /** If chains restart only when nothing of the old chain can still publish, the order is kept. */
  lemma {:induction false} CarefulRunsAreOrdered(run: seq<Action>)
    requires IsRun(run) && CarefulRun(run)
    ensures OrderInv(After(run)) && Ordered(After(run))
    decreases |run|
  {
    if run != [] {
      var before, a := run[..|run| - 1], run[|run| - 1];
      CarefulRunsAreOrdered(before);
      RunInv(before);
      var s := After(before);
      if a.Select? {
        OpenPlanShape(s);
        OpenPlanKeepsOrder(s);
        TakeAllKeepsOrder(OpenPlan(s), a.picks);
      } else {
        StepKeepsOrder(s, a);
      }
    }
  }

  /** Nothing outstanding is enough for a safe restart. */
  lemma NothingOutstandingIsSafe(run: seq<Action>, key: Key)
    requires IsRun(run) && PartAt(After(run), key).outstanding == 0
    ensures RestartsSafely(After(run), key)
  {
    RunInv(run);
    var s := After(run);
    assert PartAt(s, key).outstanding == |OpenOf(s, key)|;
    assert OpenOf(s, key) == {};
    forall e | 0 <= e < |s.epochs| && s.epochs[e].key == key
      ensures !Viable(s, e)
    {
      assert e !in OpenOf(s, key);
    }
  }
}
