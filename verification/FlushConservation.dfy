/**
 No accepted batch is lost or duplicated by the flush pipeline, a partition's outstanding count is the
 number of in-flight plans that hold it, and a drained partition has nothing left to resolve.
 */
module FlushConservation {
  import opened Numeric
  import opened LeaseStore
  import opened FlushPipeline
  import opened FlushInvariants

  // ---------------------------------------------------------------------------------------------
  // Each batch is in one place
  // ---------------------------------------------------------------------------------------------

  datatype Place = InBuffer(key: Key, k: nat) | InEpoch(epoch: nat, k: nat) | Lost

  predicate At(s: Pipeline, place: Place, b: nat) {
    match place
    case InBuffer(key, k) => key in s.parts && k < |s.parts[key].buffer| && s.parts[key].buffer[k] == b
    case InEpoch(e, k) => e < |s.epochs| && k < |s.epochs[e].batches| && s.epochs[e].batches[k] == b
    case Lost => b in s.discarded
  }

  /** The partition a place belongs to, if it names one. */
  predicate Fits(s: Pipeline, place: Place, key: Key) {
    match place
    case InBuffer(k, _) => k == key
    case InEpoch(e, _) => e < |s.epochs| && s.epochs[e].key == key
    case Lost => true
  }

  ghost predicate Somewhere(s: Pipeline, b: nat) {
    exists x :: At(s, x, b)
  }

  ghost predicate BatchInv(s: Pipeline) {
    && (forall x, b: nat | At(s, x, b) :: b < |s.owner| && Fits(s, x, s.owner[b]))
    && (forall x, y, b: nat | At(s, x, b) && At(s, y, b) :: x == y)
    && (forall b: nat | b < |s.owner| :: Somewhere(s, b))
  }

  /** A batch that reached a terminal result. */
  predicate Resolved(s: Pipeline, b: nat) {
    b in s.discarded || exists e | 0 <= e < |s.epochs| :: b in s.epochs[e].batches && InStage(s, e, Closed)
  }

  /** Steps that leave buffers, epoch contents and drops alone. */
  lemma BatchesStay(s: Pipeline, s': Pipeline)
    requires BatchInv(s) && s'.owner == s.owner && s'.discarded == s.discarded
    requires |s'.epochs| == |s.epochs|
    requires forall e | 0 <= e < |s.epochs| :: s'.epochs[e].batches == s.epochs[e].batches && s'.epochs[e].key == s.epochs[e].key
    requires forall key | key in s'.parts :: key in s.parts && s'.parts[key].buffer == s.parts[key].buffer
    requires forall key | key in s.parts && key !in s'.parts :: s.parts[key].buffer == []
    ensures BatchInv(s')
  {
    forall x, b: nat
      ensures At(s', x, b) <==> At(s, x, b)
    {
    }
    forall b: nat | b < |s.owner|
      ensures Somewhere(s', b)
    {
      assert Somewhere(s, b);
      var x :| At(s, x, b);
      assert At(s', x, b);
    }
  }

  lemma AcceptBatches(s: Pipeline, key: Key)
    requires BatchInv(s)
    ensures BatchInv(Next(s, Accept(key)))
  {
    var s' := Next(s, Accept(key));
    var new_ := InBuffer(key, |PartAt(s, key).buffer|);
    forall x, b: nat
      ensures At(s', x, b) <==> At(s, x, b) || (x == new_ && b == |s.owner|)
    {
    }
    forall b: nat | b < |s'.owner|
      ensures Somewhere(s', b)
    {
      if b < |s.owner| {
        assert Somewhere(s, b);
        var x :| At(s, x, b);
        assert At(s', x, b);
      } else {
        assert At(s', new_, b);
      }
    }
  }

  lemma DropBatches(s: Pipeline, key: Key)
    requires BatchInv(s) && key in s.parts
    ensures BatchInv(Drop(s, key))
  {
    var s' := Drop(s, key);
    forall x, b: nat | At(s', x, b)
      ensures At(s, x, b) || (x == Lost && exists k: nat :: At(s, InBuffer(key, k), b))
      ensures !(x.InBuffer? && x.key == key)
    {
      if x == Lost && b !in s.discarded {
        var k :| 0 <= k < |s.parts[key].buffer| && s.parts[key].buffer[k] == b;
        assert At(s, InBuffer(key, k), b);
      }
    }
    forall b: nat | b < |s.owner|
      ensures Somewhere(s', b)
    {
      assert Somewhere(s, b);
      var x :| At(s, x, b);
      if x.InBuffer? && x.key == key {
        assert At(s', Lost, b);
      } else {
        assert At(s', x, b);
      }
    }
  }

  lemma TakeBatches(s: Pipeline, key: Key)
    requires BatchInv(s) && s.plans != [] && Eligible(s, key)
    ensures BatchInv(Take(s, key))
  {
    var s' := Take(s, key);
    var e := |s.epochs|;
    forall x, b: nat | At(s', x, b)
      ensures At(s, if x.InEpoch? && x.epoch == e then InBuffer(key, x.k) else x, b) && !(x.InBuffer? && x.key == key)
    {
    }
    forall b: nat | b < |s.owner|
      ensures Somewhere(s', b)
    {
      assert Somewhere(s, b);
      var x :| At(s, x, b);
      assert At(s', if x.InBuffer? && x.key == key then InEpoch(e, x.k) else x, b);
    }
  }

  lemma {:induction false} TakeAllBatches(s: Pipeline, picks: seq<Pick>)
    requires BatchInv(s) && s.plans != [] && Pickable(s, picks)
    ensures BatchInv(TakeAll(s, picks))
    decreases |picks|
  {
    if picks != [] {
      match picks[0] {
        case TakeUp(key) => TakeBatches(s, key);
        case DropOut(key) => DropBatches(s, key);
      }
      TakeAllBatches(ApplyPick(s, picks[0]), picks[1..]);
    }
  }

  lemma NextBatches(s: Pipeline, a: Action)
    requires ShapeInv(s) && BatchInv(s) && Enabled(s, a)
    ensures BatchInv(Next(s, a))
  {
    match a
    case Accept(key) => AcceptBatches(s, key);
    case Discard(key) => DropBatches(s, key);
    case Select(picks) =>
      BatchesStay(s, OpenPlan(s));
      TakeAllBatches(OpenPlan(s), picks);
    case _ => BatchesStay(s, Next(s, a));
  }

  lemma {:induction false} RunBatches(run: seq<Action>)
    requires IsRun(run)
    ensures BatchInv(After(run))
    decreases |run|
  {
    if run != [] {
      RunInv(run[..|run| - 1]);
      RunBatches(run[..|run| - 1]);
      NextBatches(After(run[..|run| - 1]), run[|run| - 1]);
    }
  }

  // ---------------------------------------------------------------------------------------------
  // Conservation and draining
  // ---------------------------------------------------------------------------------------------

  /** At every moment each accepted batch is in exactly one place, which belongs to its partition. */
  lemma EveryBatchIsInOnePlace(run: seq<Action>, b: nat) returns (place: Place)
    requires IsRun(run) && b < |After(run).owner|
    ensures At(After(run), place, b) && Fits(After(run), place, After(run).owner[b])
    ensures forall x | At(After(run), x, b) :: x == place
  {
    RunBatches(run);
    assert Somewhere(After(run), b);
    place :| At(After(run), place, b);
  }

  /** Outstanding counts the in-flight plans that hold the partition: one epoch per plan. */
  lemma OutstandingCountsPlans(run: seq<Action>, key: Key)
    requires IsRun(run)
    ensures PartAt(After(run), key).outstanding == |OpenOf(After(run), key)|
    ensures forall d, e | d in OpenOf(After(run), key) && e in OpenOf(After(run), key) && d != e ::
              After(run).epochs[d].plan != After(run).epochs[e].plan
  {
    RunInv(run);
  }

  /** An empty buffer with nothing outstanding means every accepted batch reached a terminal result. */
  lemma DrainedMeansResolved(run: seq<Action>, key: Key, b: nat)
    requires IsRun(run) && b < |After(run).owner| && After(run).owner[b] == key
    requires PartAt(After(run), key).outstanding == 0 && PartAt(After(run), key).buffer == []
    ensures Resolved(After(run), b)
  {
    var s := After(run);
    RunInv(run);
    var place := EveryBatchIsInOnePlace(run, b);
    if place.InEpoch? {
      assert EpochOk(s, place.epoch);
      assert PartAt(s, key).outstanding == |OpenOf(s, key)|;
      assert OpenOf(s, key) == {};
      assert place.epoch !in OpenOf(s, key);
      assert b in s.epochs[place.epoch].batches;
    }
  }
}
