/**
 What every step of the flush pipeline keeps: the shape of epochs and chains, and the publication
 order inside a chain.
 */
module FlushInvariants {
  import opened Numeric
  import opened LeaseStore
  import opened FlushPipeline

  // ---------------------------------------------------------------------------------------------
  // Epochs and their links
  // ---------------------------------------------------------------------------------------------

  /** A dependency points to an earlier plan, past its identity barrier, with a smaller segment. */
  predicate LinkOk(s: Pipeline, p: nat, e: nat)
    requires e < |s.epochs|
  {
    && p < e && s.epochs[p].key == s.epochs[e].key
    && s.epochs[p].plan < s.epochs[e].plan
    && s.epochs[p].phase != Pending
    && (s.epochs[e].segment.Some? ==>
          s.epochs[p].segment.Some? && s.epochs[p].segment.value < s.epochs[e].segment.value)
  }

  predicate StageOk(stage: Stage, epoch: Epoch) {
    match stage
    case Building => epoch.phase == Pending && epoch.result.None?
    case Publishing => epoch.phase == Assigned || epoch.phase == Failed
    case Closed => epoch.phase == Succeeded || epoch.phase == Failed
  }

  predicate EpochOk(s: Pipeline, e: nat)
    requires e < |s.epochs|
  {
    var epoch := s.epochs[e];
    && epoch.plan < |s.plans| && StageOk(s.plans[epoch.plan], epoch)
    && (epoch.phase == Assigned || epoch.phase == Succeeded ==> epoch.segment.Some?)
    && (epoch.segment.Some? ==> epoch.segment.value < s.nextId)
    && (epoch.pred.Some? ==> LinkOk(s, epoch.pred.value, e))
  }

  ghost predicate EpochsOk(s: Pipeline) {
    forall e | 0 <= e < |s.epochs| :: EpochOk(s, e)
  }

  /** The tail is the partition's latest epoch, and only the tail can be before its identity barrier. */
  ghost predicate TailsOk(s: Pipeline) {
    && (forall key | key in s.parts && s.parts[key].tail.Some? ::
          && s.parts[key].tail.value < |s.epochs| && s.epochs[s.parts[key].tail.value].key == key
          && forall e | 0 <= e < |s.epochs| && s.epochs[e].key == key :: e <= s.parts[key].tail.value)
    && (forall e | 0 <= e < |s.epochs| && s.epochs[e].phase == Pending ::
          s.epochs[e].key in s.parts && s.parts[s.epochs[e].key].tail == Some(e))
  }

  /** A plan holds each partition at most once. */
  ghost predicate PlansOk(s: Pipeline) {
    forall d, e | 0 <= d < |s.epochs| && 0 <= e < |s.epochs| && d != e && s.epochs[d].plan == s.epochs[e].plan ::
      s.epochs[d].key != s.epochs[e].key
  }

  /** The in-flight epochs of a partition. */
  ghost function OpenOf(s: Pipeline, key: Key): set<nat> {
    set e: nat | e < |s.epochs| && IsOpen(s, e) && s.epochs[e].key == key
  }

  ghost predicate CountsOk(s: Pipeline) {
    forall key :: PartAt(s, key).outstanding == |OpenOf(s, key)|
  }

  ghost predicate ShapeInv(s: Pipeline) {
    EpochsOk(s) && TailsOk(s) && PlansOk(s) && CountsOk(s)
  }

  // ---------------------------------------------------------------------------------------------
  // Steps that only move epochs along
  // ---------------------------------------------------------------------------------------------

  /** States only move Pending, Assigned, Succeeded or Failed. */
  predicate Moves(from: Phase, to: Phase) {
    from == to || from == Pending || (from == Assigned && (to == Succeeded || to == Failed))
  }

  predicate Evolves(old_: Epoch, new_: Epoch) {
    && new_.key == old_.key && new_.plan == old_.plan && new_.batches == old_.batches && new_.pred == old_.pred
    && Moves(old_.phase, new_.phase)
    && (old_.phase != Pending ==> new_.phase != Pending)
    && (old_.segment.Some? ==> new_.segment == old_.segment)
  }

  ghost predicate AllEvolve(s: Pipeline, s': Pipeline) {
    |s'.epochs| == |s.epochs| && forall e | 0 <= e < |s.epochs| :: Evolves(s.epochs[e], s'.epochs[e])
  }

  lemma LinksEvolve(s: Pipeline, s': Pipeline, e: nat)
    requires EpochsOk(s) && AllEvolve(s, s') && e < |s.epochs| && s.epochs[e].pred.Some?
    requires s'.epochs[e].segment == s.epochs[e].segment
    ensures LinkOk(s', s'.epochs[e].pred.value, e)
  {
    assert EpochOk(s, e);
    assert Evolves(s.epochs[e], s'.epochs[e]) && Evolves(s.epochs[s.epochs[e].pred.value], s'.epochs[s.epochs[e].pred.value]);
  }

  lemma IdentifyShape(s: Pipeline, members: set<nat>, id: nat)
    requires ShapeInv(s) && Enabled(s, Identify(members, id))
    ensures ShapeInv(Next(s, Identify(members, id))) && AllEvolve(s, Next(s, Identify(members, id)))
  {
    var s' := Next(s, Identify(members, id));
    forall e | 0 <= e < |s.epochs|
      ensures EpochOk(s', e)
    {
      assert EpochOk(s, e);
      if e !in members && s.epochs[e].pred.Some? {
        LinksEvolve(s, s', e);
      } else if s.epochs[e].pred.Some? {
        assert EpochOk(s, s.epochs[e].pred.value);
      }
    }
    SameCounts(s, s');
  }

  /** Counts depend only on which epochs are open. */
  lemma SameCounts(s: Pipeline, s': Pipeline)
    requires CountsOk(s) && AllEvolve(s, s')
    requires forall key :: PartAt(s', key).outstanding == PartAt(s, key).outstanding
    requires forall e: nat | e < |s.epochs| :: IsOpen(s, e) <==> IsOpen(s', e)
    ensures CountsOk(s')
  {
    forall key
      ensures OpenOf(s', key) == OpenOf(s, key)
    {
      forall e: nat
        ensures e in OpenOf(s', key) <==> e in OpenOf(s, key)
      {
        if e < |s.epochs| {
          assert Evolves(s.epochs[e], s'.epochs[e]);
        }
      }
    }
    forall key
      ensures PartAt(s', key).outstanding == |OpenOf(s', key)|
    {
      assert OpenOf(s', key) == OpenOf(s, key);
    }
  }

  /** Ending the build phase of a plan, successfully or not. */
  lemma BuildShape(s: Pipeline, a: Action)
    requires ShapeInv(s) && Enabled(s, a) && (a.FailBuild? || a.MarkAssigned?)
    ensures ShapeInv(Next(s, a)) && AllEvolve(s, Next(s, a))
  {
    var s' := Next(s, a);
    forall e | 0 <= e < |s.epochs|
      ensures Evolves(s.epochs[e], s'.epochs[e])
    {
      assert EpochOk(s, e);
    }
    forall e | 0 <= e < |s.epochs|
      ensures EpochOk(s', e)
    {
      assert EpochOk(s, e);
      if s.epochs[e].pred.Some? {
        LinksEvolve(s, s', e);
      }
    }
    SameCounts(s, s');
  }

  lemma ResultShape(s: Pipeline, a: Action)
    requires ShapeInv(s) && Enabled(s, a) && (a.WriteRow? || a.FailEpoch?)
    ensures ShapeInv(Next(s, a)) && AllEvolve(s, Next(s, a))
  {
    var s' := Next(s, a);
    forall e | 0 <= e < |s.epochs|
      ensures EpochOk(s', e)
    {
      assert EpochOk(s, e);
      if s.epochs[e].pred.Some? {
        LinksEvolve(s, s', e);
      }
    }
    SameCounts(s, s');
  }

  // ---------------------------------------------------------------------------------------------
  // Closing a plan
  // ---------------------------------------------------------------------------------------------

  lemma CloseEpochs(s: Pipeline, plan: nat, aborted: bool)
    requires ShapeInv(s) && Enabled(s, Close(plan, aborted))
    ensures AllEvolve(s, Next(s, Close(plan, aborted))) && EpochsOk(Next(s, Close(plan, aborted)))
  {
    var s' := Next(s, Close(plan, aborted));
    forall e | 0 <= e < |s.epochs|
      ensures Evolves(s.epochs[e], s'.epochs[e])
    {
      assert EpochOk(s, e);
    }
    forall e | 0 <= e < |s.epochs|
      ensures EpochOk(s', e)
    {
      assert EpochOk(s, e);
      if s.epochs[e].pred.Some? {
        LinksEvolve(s, s', e);
      }
    }
  }

  lemma CloseTails(s: Pipeline, plan: nat, aborted: bool)
    requires ShapeInv(s) && Enabled(s, Close(plan, aborted))
    ensures TailsOk(Next(s, Close(plan, aborted))) && PlansOk(Next(s, Close(plan, aborted)))
  {
    var s' := Next(s, Close(plan, aborted));
    CloseEpochs(s, plan, aborted);
    forall e | 0 <= e < |s'.epochs| && s'.epochs[e].phase == Pending
      ensures s'.epochs[e].key in s'.parts && s'.parts[s'.epochs[e].key].tail == Some(e)
    {
      assert Evolves(s.epochs[e], s'.epochs[e]);
    }
    forall key | key in s'.parts && s'.parts[key].tail.Some?
      ensures s'.parts[key].tail == s.parts[key].tail
    {
    }
  }

  /** Open epochs after closing are those of other plans. */
  lemma OpenAfterClose(s: Pipeline, plan: nat, aborted: bool, key: Key)
    requires ShapeInv(s) && Enabled(s, Close(plan, aborted))
    ensures OpenOf(Next(s, Close(plan, aborted)), key) == set e | e in OpenOf(s, key) && s.epochs[e].plan != plan
  {
  }

  /** The plan's one epoch of a partition leaves its set of in-flight epochs. */
  lemma CloseOpen(s: Pipeline, plan: nat, aborted: bool, key: Key)
    requires ShapeInv(s) && Enabled(s, Close(plan, aborted))
    ensures var s' := Next(s, Close(plan, aborted)); PartAt(s', key).outstanding == |OpenOf(s', key)|
  {
    OpenAfterClose(s, plan, aborted, key);
    assert PartAt(s, key).outstanding == |OpenOf(s, key)|;
    var left := set e | e in OpenOf(s, key) && s.epochs[e].plan != plan;
    if InPlan(s.epochs, plan, key) {
      var e :| 0 <= e < |s.epochs| && s.epochs[e].plan == plan && s.epochs[e].key == key;
      OnlyOneInPlan(s, plan, key, e);
      assert left == OpenOf(s, key) - {e};
    } else {
      assert left == OpenOf(s, key);
    }
  }

  lemma OnlyOneInPlan(s: Pipeline, plan: nat, key: Key, e: nat)
    requires EpochsOk(s) && PlansOk(s) && plan < |s.plans| && s.plans[plan] != Closed
    requires e < |s.epochs| && s.epochs[e].plan == plan && s.epochs[e].key == key
    ensures e in OpenOf(s, key) && forall d | d in OpenOf(s, key) && s.epochs[d].plan == plan :: d == e
  {
  }

  lemma CloseShape(s: Pipeline, plan: nat, aborted: bool)
    requires ShapeInv(s) && Enabled(s, Close(plan, aborted))
    ensures ShapeInv(Next(s, Close(plan, aborted))) && AllEvolve(s, Next(s, Close(plan, aborted)))
  {
    CloseEpochs(s, plan, aborted);
    CloseTails(s, plan, aborted);
    var s' := Next(s, Close(plan, aborted));
    forall key
      ensures PartAt(s', key).outstanding == |OpenOf(s', key)|
    {
      CloseOpen(s, plan, aborted, key);
    }
  }

  // ---------------------------------------------------------------------------------------------
  // Selection
  // ---------------------------------------------------------------------------------------------

  lemma OpenPlanShape(s: Pipeline)
    requires ShapeInv(s)
    ensures ShapeInv(OpenPlan(s))
  {
    var s' := OpenPlan(s);
    forall e | 0 <= e < |s.epochs|
      ensures EpochOk(s', e)
    {
      assert EpochOk(s, e);
    }
    forall e: nat | e < |s.epochs|
      ensures IsOpen(s, e) <==> IsOpen(s', e)
    {
      assert EpochOk(s, e);
    }
    SameCounts(s, s');
  }

  lemma TakeEpochs(s: Pipeline, key: Key)
    requires ShapeInv(s) && s.plans != [] && s.plans[|s.plans| - 1] == Building && Eligible(s, key)
    ensures EpochsOk(Take(s, key)) && TailsOk(Take(s, key)) && PlansOk(Take(s, key))
  {
    var s' := Take(s, key);
    forall e | 0 <= e < |s.epochs|
      ensures EpochOk(s', e) && (s.epochs[e].plan == |s.plans| - 1 ==> s.epochs[e].key != key)
    {
      assert EpochOk(s, e);
    }
    var tail := s.parts[key].tail;
    if tail.Some? {
      assert EpochOk(s, tail.value);
    }
    assert EpochOk(s', |s.epochs|);
  }

  lemma TakeCounts(s: Pipeline, key: Key)
    requires ShapeInv(s) && s.plans != [] && s.plans[|s.plans| - 1] == Building && Eligible(s, key)
    ensures CountsOk(Take(s, key))
  {
    var s' := Take(s, key);
    forall k
      ensures PartAt(s', k).outstanding == |OpenOf(s', k)|
    {
      forall e: nat
        ensures e in OpenOf(s', k) <==> e in OpenOf(s, k) || (e == |s.epochs| && k == key)
      {
      }
      assert OpenOf(s', k) == if k == key then OpenOf(s, k) + {|s.epochs|} else OpenOf(s, k);
      assert PartAt(s, k).outstanding == |OpenOf(s, k)|;
    }
  }

  lemma DropShape(s: Pipeline, key: Key)
    requires ShapeInv(s) && key in s.parts
    ensures ShapeInv(Drop(s, key)) && Drop(s, key).epochs == s.epochs
  {
    var s' := Drop(s, key);
    forall e | 0 <= e < |s.epochs|
      ensures EpochOk(s', e)
    {
      assert EpochOk(s, e);
    }
    SameCounts(s, s');
  }

  lemma PickShape(s: Pipeline, pick: Pick)
    requires ShapeInv(s) && s.plans != [] && s.plans[|s.plans| - 1] == Building && CanPick(s, pick)
    ensures ShapeInv(ApplyPick(s, pick)) && s.epochs <= ApplyPick(s, pick).epochs
  {
    match pick
    case TakeUp(key) =>
      TakeEpochs(s, key);
      TakeCounts(s, key);
    case DropOut(key) => DropShape(s, key);
  }

  lemma {:induction false} TakeAllShape(s: Pipeline, picks: seq<Pick>)
    requires ShapeInv(s) && s.plans != [] && s.plans[|s.plans| - 1] == Building && Pickable(s, picks)
    ensures ShapeInv(TakeAll(s, picks)) && s.epochs <= TakeAll(s, picks).epochs
    decreases |picks|
  {
    if picks != [] {
      PickShape(s, picks[0]);
      TakeAllShape(ApplyPick(s, picks[0]), picks[1..]);
    }
  }

  // ---------------------------------------------------------------------------------------------
  // Buffers
  // ---------------------------------------------------------------------------------------------

  lemma BufferShape(s: Pipeline, a: Action)
    requires ShapeInv(s) && Enabled(s, a) && (a.Accept? || a.Clear?)
    ensures ShapeInv(Next(s, a))
  {
    var s' := Next(s, a);
    forall e | 0 <= e < |s.epochs|
      ensures EpochOk(s', e)
    {
      assert EpochOk(s, e);
    }
    if a.Clear? {
      assert PartAt(s, a.key).outstanding == |OpenOf(s, a.key)|;
      assert OpenOf(s, a.key) == {};
      forall e | 0 <= e < |s.epochs| && s.epochs[e].phase == Pending
        ensures s.epochs[e].key != a.key
      {
        assert EpochOk(s, e);
        assert IsOpen(s, e) && e !in OpenOf(s, a.key);
      }
    }
    SameCounts(s, s');
  }

  lemma NextShape(s: Pipeline, a: Action)
    requires ShapeInv(s) && Enabled(s, a)
    ensures ShapeInv(Next(s, a))
    ensures |s.epochs| <= |Next(s, a).epochs|
    ensures forall e | 0 <= e < |s.epochs| :: Evolves(s.epochs[e], Next(s, a).epochs[e])
  {
    match a
    case Select(picks) =>
      OpenPlanShape(s);
      TakeAllShape(OpenPlan(s), picks);
    case Identify(members, id) => IdentifyShape(s, members, id);
    case FailBuild(_) => BuildShape(s, a);
    case MarkAssigned(_) => BuildShape(s, a);
    case WriteRow(_, _, _) => ResultShape(s, a);
    case FailEpoch(_) => ResultShape(s, a);
    case Close(plan, aborted) => CloseShape(s, plan, aborted);
    case Discard(key) => DropShape(s, key);
    case _ => BufferShape(s, a);
  }

  // ---------------------------------------------------------------------------------------------
  // Publication order inside a chain
  // ---------------------------------------------------------------------------------------------

  /** `d` is `e` or one of the epochs its dependencies lead back to. */
  predicate InChain(s: Pipeline, d: nat, e: nat)
    decreases e
  {
    d == e || (e < |s.epochs| && s.epochs[e].pred.Some? && s.epochs[e].pred.value < e && InChain(s, d, s.epochs[e].pred.value))
  }

  /** A written epoch was written once, after the epoch it depends on, which had succeeded. */
  predicate RowOk(s: Pipeline, i: nat)
    requires i < |s.rows|
  {
    && s.rows[i] < |s.epochs| && s.epochs[s.rows[i]].result.Some?
    && s.epochs[s.rows[i]].segment.Some?
    && (s.epochs[s.rows[i]].pred.Some? ==>
          && s.epochs[s.rows[i]].pred.value < |s.epochs|
          && s.epochs[s.epochs[s.rows[i]].pred.value].phase == Succeeded
          && s.epochs[s.rows[i]].pred.value in s.rows[..i])
  }

  predicate SuccessOk(s: Pipeline, e: nat)
    requires e < |s.epochs|
  {
    s.epochs[e].phase == Succeeded || s.epochs[e].result == Some(true) ==> e in s.rows
  }

  ghost predicate RowInv(s: Pipeline) {
    && (forall i: nat | i < |s.rows| :: RowOk(s, i))
    && (forall e | 0 <= e < |s.epochs| :: SuccessOk(s, e))
    && (forall i, j | 0 <= i < j < |s.rows| :: s.rows[i] != s.rows[j])
  }

  /** Epochs that do not write keep what was written. */
  lemma RowsStay(s: Pipeline, s': Pipeline)
    requires RowInv(s) && s'.rows == s.rows && |s.epochs| <= |s'.epochs|
    requires forall e | 0 <= e < |s.epochs| ::
               && Evolves(s.epochs[e], s'.epochs[e])
               && (s.epochs[e].result.Some? ==> s'.epochs[e].result.Some?)
               && (s'.epochs[e].phase == Succeeded || s'.epochs[e].result == Some(true) ==>
                     s.epochs[e].phase == Succeeded || s.epochs[e].result == Some(true))
    requires forall e | |s.epochs| <= e < |s'.epochs| :: s'.epochs[e].phase != Succeeded && s'.epochs[e].result.None?
    ensures RowInv(s')
  {
    forall i: nat | i < |s'.rows|
      ensures RowOk(s', i)
    {
      assert RowOk(s, i);
    }
    forall e | 0 <= e < |s'.epochs|
      ensures SuccessOk(s', e)
    {
      if e < |s.epochs| {
        assert SuccessOk(s, e);
      }
    }
  }

  lemma WriteRows(s: Pipeline, e: nat, landed: bool, reported: bool)
    requires ShapeInv(s) && RowInv(s) && Enabled(s, WriteRow(e, landed, reported))
    ensures RowInv(Next(s, WriteRow(e, landed, reported)))
  {
    var s' := Next(s, WriteRow(e, landed, reported));
    assert EpochOk(s, e);
    if s.epochs[e].pred.Some? {
      assert SuccessOk(s, s.epochs[e].pred.value);
    }
    forall i: nat | i < |s'.rows|
      ensures RowOk(s', i) && (i < |s.rows| ==> s.rows[i] != e)
    {
      if i < |s.rows| {
        assert RowOk(s, i);
        assert s'.rows[..i] == s.rows[..i];
      } else {
        assert s'.rows[..i] == s.rows;
      }
    }
    forall d | 0 <= d < |s'.epochs|
      ensures SuccessOk(s', d)
    {
      assert SuccessOk(s, d);
    }
  }

  lemma {:induction false} TakeAllAppends(s: Pipeline, picks: seq<Pick>)
    requires s.plans != [] && Pickable(s, picks)
    ensures var s' := TakeAll(s, picks);
            && s.epochs <= s'.epochs && s'.rows == s.rows && s'.plans == s.plans
            && forall e | |s.epochs| <= e < |s'.epochs| :: s'.epochs[e].phase == Pending && s'.epochs[e].result.None?
    decreases |picks|
  {
    if picks != [] {
      TakeAllAppends(ApplyPick(s, picks[0]), picks[1..]);
    }
  }

  lemma NextRows(s: Pipeline, a: Action)
    requires ShapeInv(s) && RowInv(s) && Enabled(s, a)
    ensures RowInv(Next(s, a))
  {
    if a.WriteRow? {
      WriteRows(s, a.epoch, a.landed, a.reported);
    } else {
      NextShape(s, a);
      if a.Select? {
        TakeAllAppends(OpenPlan(s), a.picks);
      }
      forall e | 0 <= e < |s.epochs|
        ensures s.epochs[e].result.Some? ==> Next(s, a).epochs[e].result.Some?
        ensures Next(s, a).epochs[e].phase == Succeeded || Next(s, a).epochs[e].result == Some(true) ==>
                  s.epochs[e].phase == Succeeded || s.epochs[e].result == Some(true)
      {
        assert EpochOk(s, e);
      }
      RowsStay(s, Next(s, a));
    }
  }

  lemma {:induction false} RunInv(run: seq<Action>)
    requires IsRun(run)
    ensures ShapeInv(After(run)) && RowInv(After(run))
    decreases |run|
  {
    if run == [] {
      forall key
        ensures PartAt(INITIAL, key).outstanding == |OpenOf(INITIAL, key)|
      {
        assert OpenOf(INITIAL, key) == {};
      }
    } else {
      RunInv(run[..|run| - 1]);
      NextShape(After(run[..|run| - 1]), run[|run| - 1]);
      NextRows(After(run[..|run| - 1]), run[|run| - 1]);
    }
  }

  lemma {:induction false} ChainIsWritten(s: Pipeline, d: nat, i: nat)
    requires ShapeInv(s) && RowInv(s) && i < |s.rows| && d != s.rows[i] && InChain(s, d, s.rows[i])
    ensures d < |s.epochs| && s.epochs[d].phase == Succeeded && d in s.rows[..i]
    ensures s.epochs[d].segment.Some? && s.epochs[s.rows[i]].segment.Some?
    ensures s.epochs[d].segment.value < s.epochs[s.rows[i]].segment.value
    decreases i
  {
    assert RowOk(s, i);
    var e := s.rows[i];
    var p := s.epochs[e].pred.value;
    assert EpochOk(s, e);
    var j :| 0 <= j < i && s.rows[j] == p;
    if d != p {
      ChainIsWritten(s, d, j);
      assert d in s.rows[..i];
    } else {
      assert EpochOk(s, p);
    }
  }

  /**
   In every run, within a partition's publication chain: an epoch's metadata lands only after every
   earlier epoch of the chain succeeded and landed, with a larger segment identity than each of them.
   */
  lemma ChainsPublishInOrder(run: seq<Action>, d: nat, i: nat)
    requires IsRun(run) && i < |After(run).rows| && d != After(run).rows[i] && InChain(After(run), d, After(run).rows[i])
    ensures var s := After(run);
            && d < |s.epochs| && s.epochs[d].phase == Succeeded && d in s.rows[..i]
            && s.rows[i] < |s.epochs| && s.epochs[d].segment.Some? && s.epochs[s.rows[i]].segment.Some?
            && s.epochs[d].segment.value < s.epochs[s.rows[i]].segment.value
  {
    RunInv(run);
    assert RowOk(After(run), i);
    ChainIsWritten(After(run), d, i);
  }

  lemma {:induction false} FailureReaches(s: Pipeline, d: nat, e: nat)
    requires ShapeInv(s) && RowInv(s) && e < |s.epochs| && d != e && InChain(s, d, e)
    requires d < |s.epochs| && s.epochs[d].phase == Failed
    ensures e !in s.rows && s.epochs[e].phase != Succeeded
    decreases e
  {
    assert EpochOk(s, e);
    var p := s.epochs[e].pred.value;
    if d != p {
      FailureReaches(s, d, p);
    }
    forall i: nat | i < |s.rows|
      ensures s.rows[i] != e
    {
      assert RowOk(s, i);
    }
    assert SuccessOk(s, e);
  }

  /** A failed epoch makes every later epoch of its chain fail: none ever lands, and a closed one has failed. */
  lemma FailurePropagates(run: seq<Action>, d: nat, e: nat)
    requires IsRun(run) && e < |After(run).epochs| && d != e && InChain(After(run), d, e)
    requires d < |After(run).epochs| && After(run).epochs[d].phase == Failed
    ensures e !in After(run).rows
    ensures InStage(After(run), e, Closed) ==> After(run).epochs[e].phase == Failed
  {
    RunInv(run);
    FailureReaches(After(run), d, e);
    assert EpochOk(After(run), e);
  }

  /** Along a run an epoch keeps its place in the chain and its phase only moves forward. */
  lemma {:induction false} PhasesMoveForward(run: seq<Action>, k: nat, e: nat)
    requires IsRun(run) && k <= |run| && IsRun(run[..k]) && e < |After(run[..k]).epochs|
    ensures e < |After(run).epochs| && Evolves(After(run[..k]).epochs[e], After(run).epochs[e])
    decreases |run|
  {
    if k == |run| {
      assert run[..k] == run;
    } else {
      var before := run[..|run| - 1];
      assert before[..k] == run[..k];
      PhasesMoveForward(before, k, e);
      RunInv(before);
      NextShape(After(before), run[|run| - 1]);
    }
  }
}
