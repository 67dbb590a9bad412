/**
 The flush pipeline: partitions buffer batches, plans take whole buffers as publication epochs, and
 each epoch passes two barriers: its successor may take a segment identity once this one has, and may
 publish metadata once this one has succeeded.
 */
module FlushPipeline {
  import opened Numeric
  import opened LeaseStore

  // ---------------------------------------------------------------------------------------------
  // State
  // ---------------------------------------------------------------------------------------------

  datatype Phase = Pending | Assigned | Succeeded | Failed

  /** One partition's share of one plan; `pred` is the epoch whose barriers it waits for. */
  datatype Epoch = Epoch(
    key: Key,
    plan: nat,
    batches: seq<nat>,
    pred: Option<nat>,
    phase: Phase,
    segment: Option<nat>,
    result: Option<bool>)

  datatype Stage = Building | Publishing | Closed

  datatype Part = Part(buffer: seq<nat>, tail: Option<nat>, outstanding: nat)

  /** Batches are numbered as accepted; `rows` lists epochs in the order their metadata landed. */
  datatype Pipeline = Pipeline(
    parts: map<Key, Part>,
    epochs: seq<Epoch>,
    plans: seq<Stage>,
    owner: seq<Key>,
    discarded: set<nat>,
    nextId: nat,
    rows: seq<nat>)

  const INITIAL := Pipeline(map[], [], [], [], {}, 0, [])

  /** A selection pass takes a buffer into the plan, or drops one that has no single lease fence. */
  datatype Pick = TakeUp(key: Key) | DropOut(key: Key)

  datatype Action =
    | Accept(key: Key)
    | Discard(key: Key)
    | Select(picks: seq<Pick>)
    | Identify(members: set<nat>, id: nat)
    | FailBuild(plan: nat)
    | MarkAssigned(plan: nat)
    | WriteRow(epoch: nat, landed: bool, reported: bool)
    | FailEpoch(epoch: nat)
    | Close(plan: nat, aborted: bool)
    | Clear(key: Key)

  // ---------------------------------------------------------------------------------------------
  // Steps
  // ---------------------------------------------------------------------------------------------

  function PartAt(s: Pipeline, key: Key): Part {
    if key in s.parts then s.parts[key] else Part([], None, 0)
  }

  predicate IsOpen(s: Pipeline, e: nat) {
    e < |s.epochs| && s.epochs[e].plan < |s.plans| && s.plans[s.epochs[e].plan] != Closed
  }

  predicate InStage(s: Pipeline, e: nat, stage: Stage) {
    e < |s.epochs| && s.epochs[e].plan < |s.plans| && s.plans[s.epochs[e].plan] == stage
  }

  predicate PhaseIs(s: Pipeline, e: nat, phase: Phase) {
    e < |s.epochs| && s.epochs[e].phase == phase
  }

  /** A partition whose last epoch has not taken its identity stays buffered. */
  predicate Eligible(s: Pipeline, key: Key) {
    && key in s.parts && s.parts[key].buffer != []
    && (s.parts[key].tail.Some? ==> !PhaseIs(s, s.parts[key].tail.value, Pending))
  }

  /** The newest plan takes the whole buffer as an epoch behind the partition's tail. */
  function Take(s: Pipeline, key: Key): Pipeline
    requires s.plans != [] && Eligible(s, key)
  {
    var part := s.parts[key];
    s.(parts := s.parts[key := Part([], Some(|s.epochs|), part.outstanding + 1)],
       epochs := s.epochs + [Epoch(key, |s.plans| - 1, part.buffer, part.tail, Pending, None, None)])
  }

  function Drop(s: Pipeline, key: Key): Pipeline
    requires key in s.parts
  {
    s.(parts := s.parts[key := s.parts[key].(buffer := [])],
       discarded := s.discarded + set b | b in s.parts[key].buffer)
  }

  predicate CanPick(s: Pipeline, pick: Pick) {
    match pick
    case TakeUp(key) => Eligible(s, key)
    case DropOut(key) => key in s.parts
  }

  function ApplyPick(s: Pipeline, pick: Pick): Pipeline
    requires s.plans != [] && CanPick(s, pick)
  {
    match pick
    case TakeUp(key) => Take(s, key)
    case DropOut(key) => Drop(s, key)
  }

  predicate Pickable(s: Pipeline, picks: seq<Pick>)
    requires s.plans != []
    decreases |picks|
  {
    picks == [] || (CanPick(s, picks[0]) && Pickable(ApplyPick(s, picks[0]), picks[1..]))
  }

  function TakeAll(s: Pipeline, picks: seq<Pick>): Pipeline
    requires s.plans != [] && Pickable(s, picks)
    decreases |picks|
  {
    if picks == [] then s else TakeAll(ApplyPick(s, picks[0]), picks[1..])
  }

  lemma {:induction false} PickOneMore(s: Pipeline, picks: seq<Pick>, pick: Pick)
    requires s.plans != [] && Pickable(s, picks) && TakeAll(s, picks).plans != [] && CanPick(TakeAll(s, picks), pick)
    ensures Pickable(s, picks + [pick]) && TakeAll(s, picks + [pick]) == ApplyPick(TakeAll(s, picks), pick)
    decreases |picks|
  {
    if picks == [] {
      assert [pick][1..] == [];
      assert Pickable(ApplyPick(s, pick), []);
      assert picks + [pick] == [pick];
    } else {
      PickOneMore(ApplyPick(s, picks[0]), picks[1..], pick);
      assert (picks + [pick])[1..] == picks[1..] + [pick];
    }
  }

  lemma {:induction false} PickMore(s: Pipeline, picks: seq<Pick>, more: seq<Pick>)
    requires s.plans != [] && Pickable(s, picks) && TakeAll(s, picks).plans != [] && Pickable(TakeAll(s, picks), more)
    ensures Pickable(s, picks + more) && TakeAll(s, picks + more) == TakeAll(TakeAll(s, picks), more)
    decreases |picks|
  {
    if picks == [] {
      assert picks + more == more;
    } else {
      PickMore(ApplyPick(s, picks[0]), picks[1..], more);
      assert (picks + more)[1..] == picks[1..] + more;
    }
  }

  function OpenPlan(s: Pipeline): Pipeline {
    s.(plans := s.plans + [Building])
  }

  function WithEpoch(s: Pipeline, e: nat, epoch: Epoch): Pipeline
    requires e < |s.epochs|
  {
    s.(epochs := s.epochs[e := epoch])
  }

  /** How a plan's progress changes its epochs. */
  datatype Progress = BuildFailed | IdentitiesAssigned | Completed(aborted: bool)

  function Advance(e: Epoch, progress: Progress): Epoch {
    match progress
    case BuildFailed => e.(phase := Failed)
    case IdentitiesAssigned => e.(phase := if e.segment.Some? then Assigned else Failed)
    case Completed(aborted) =>
      e.(phase := if e.phase == Assigned && e.result == Some(true) && !aborted then Succeeded else Failed)
  }

  function AdvancePlan(epochs: seq<Epoch>, plan: nat, progress: Progress): (r: seq<Epoch>)
    ensures |r| == |epochs|
    ensures forall i | 0 <= i < |epochs| :: r[i] == if epochs[i].plan == plan then Advance(epochs[i], progress) else epochs[i]
  {
    seq(|epochs|, i requires 0 <= i < |epochs| =>
      if epochs[i].plan == plan then Advance(epochs[i], progress) else epochs[i])
  }

  predicate InPlan(epochs: seq<Epoch>, plan: nat, key: Key) {
    exists i | 0 <= i < |epochs| :: epochs[i].plan == plan && epochs[i].key == key
  }

  /** Completion lowers the count and drops a tail that has failed. */
  function ClosePart(part: Part, epochs: seq<Epoch>): Part {
    Part(part.buffer,
         if part.tail.Some? && part.tail.value < |epochs| && epochs[part.tail.value].phase == Failed then None else part.tail,
         if part.outstanding > 0 then part.outstanding - 1 else 0)
  }

  predicate PredIs(s: Pipeline, e: nat, phases: set<Phase>)
    requires e < |s.epochs|
  {
    s.epochs[e].pred.Some? ==> s.epochs[e].pred.value < |s.epochs| && s.epochs[s.epochs[e].pred.value].phase in phases
  }

  /**
   The predecessor was seen to have its identity. The identity itself is taken after further waits, so the
   predecessor may have failed in the meantime.
   */
  predicate PassedIdentityBarrier(s: Pipeline, e: nat)
    requires e < |s.epochs|
  {
    || PredIs(s, e, {Assigned, Succeeded})
    || (PredIs(s, e, {Failed}) && s.epochs[s.epochs[e].pred.value].segment.Some?)
  }

  predicate Enabled(s: Pipeline, a: Action) {
    match a
    case Accept(_) => true
    case Discard(key) => key in s.parts
    case Select(picks) => (exists p | p in picks :: p.TakeUp?) && Pickable(OpenPlan(s), picks)
    case Identify(members, id) =>
      && s.nextId <= id
      && forall e | e in members ::
           InStage(s, e, Building) && s.epochs[e].segment.None? && PassedIdentityBarrier(s, e)
    case FailBuild(plan) => plan < |s.plans| && s.plans[plan] == Building
    case MarkAssigned(plan) =>
      && plan < |s.plans| && s.plans[plan] == Building
      && forall e | 0 <= e < |s.epochs| && s.epochs[e].plan == plan && s.epochs[e].segment.None? ::
           s.epochs[e].pred.Some? && PredIs(s, e, {Failed})
    case WriteRow(e, landed, reported) =>
      && InStage(s, e, Publishing) && s.epochs[e].phase == Assigned && s.epochs[e].result.None?
      && PredIs(s, e, {Succeeded}) && (reported ==> landed)
    case FailEpoch(e) => InStage(s, e, Publishing) && s.epochs[e].result.None?
    case Close(plan, aborted) =>
      && plan < |s.plans| && s.plans[plan] == Publishing
      && (aborted || forall e | 0 <= e < |s.epochs| && s.epochs[e].plan == plan && s.epochs[e].phase == Assigned ::
                       s.epochs[e].result.Some?)
    case Clear(key) => key in s.parts && s.parts[key].buffer == [] && s.parts[key].outstanding == 0
  }

  function Next(s: Pipeline, a: Action): Pipeline
    requires Enabled(s, a)
  {
    match a
    case Accept(key) =>
      var part := PartAt(s, key);
      s.(parts := s.parts[key := part.(buffer := part.buffer + [|s.owner|])], owner := s.owner + [key])
    case Discard(key) => Drop(s, key)
    case Select(picks) => TakeAll(OpenPlan(s), picks)
    case Identify(members, id) =>
      s.(epochs := seq(|s.epochs|, i requires 0 <= i < |s.epochs| =>
           if i in members then s.epochs[i].(segment := Some(id)) else s.epochs[i]),
         nextId := id + 1)
    case FailBuild(plan) => s.(epochs := AdvancePlan(s.epochs, plan, BuildFailed), plans := s.plans[plan := Publishing])
    case MarkAssigned(plan) => s.(epochs := AdvancePlan(s.epochs, plan, IdentitiesAssigned), plans := s.plans[plan := Publishing])
    case WriteRow(e, landed, reported) =>
      WithEpoch(s, e, s.epochs[e].(result := Some(reported))).(rows := if landed then s.rows + [e] else s.rows)
    case FailEpoch(e) => WithEpoch(s, e, s.epochs[e].(result := Some(false)))
    case Close(plan, aborted) =>
      var epochs := AdvancePlan(s.epochs, plan, Completed(aborted));
      s.(epochs := epochs, plans := s.plans[plan := Closed],
         parts := map key | key in s.parts ::
                    if InPlan(s.epochs, plan, key) then ClosePart(s.parts[key], epochs) else s.parts[key])
    case Clear(key) => s.(parts := s.parts - {key})
  }

  /**
   A closed plan's epoch has succeeded exactly if it kept its identity, its row was reported written and the
   plan was not aborted. Each partition of the plan counts one plan less and forgets a tail that has failed.
   */
  lemma CloseMeans(s: Pipeline, plan: nat, aborted: bool)
    requires Enabled(s, Close(plan, aborted))
    ensures var s' := Next(s, Close(plan, aborted));
            && s' == s.(parts := s'.parts, epochs := s'.epochs, plans := s.plans[plan := Closed])
            && |s'.epochs| == |s.epochs| && s'.parts.Keys == s.parts.Keys
            && (forall e | 0 <= e < |s.epochs| && s.epochs[e].plan != plan :: s'.epochs[e] == s.epochs[e])
            && (forall e | 0 <= e < |s.epochs| && s.epochs[e].plan == plan ::
                  && s'.epochs[e] == s.epochs[e].(phase := s'.epochs[e].phase) && s'.epochs[e].phase in {Succeeded, Failed}
                  && (s'.epochs[e].phase == Succeeded <==>
                        s.epochs[e].phase == Assigned && s.epochs[e].result == Some(true) && !aborted))
            && (forall key | key in s.parts && !InPlan(s.epochs, plan, key) :: s'.parts[key] == s.parts[key])
            && (forall key | key in s.parts && InPlan(s.epochs, plan, key) ::
                  && s'.parts[key].buffer == s.parts[key].buffer
                  && (s.parts[key].outstanding > 0 ==> s'.parts[key].outstanding == s.parts[key].outstanding - 1)
                  && (s'.parts[key].tail.Some? ==> s'.parts[key].tail == s.parts[key].tail)
                  && (s.parts[key].tail.Some? ==>
                        (s'.parts[key].tail.None? <==> PhaseIs(s', s.parts[key].tail.value, Failed))))
  {
  }

  // ---------------------------------------------------------------------------------------------
  // Runs
  // ---------------------------------------------------------------------------------------------

  predicate IsRun(run: seq<Action>)
    decreases |run|, 0
  {
    run == [] || (IsRun(run[..|run| - 1]) && Enabled(After(run[..|run| - 1]), run[|run| - 1]))
  }

  function After(run: seq<Action>): Pipeline
    requires IsRun(run)
    decreases |run|, 1
  {
    if run == [] then INITIAL else Next(After(run[..|run| - 1]), run[|run| - 1])
  }

  lemma Extend(run: seq<Action>, a: Action)
    requires IsRun(run) && Enabled(After(run), a)
    ensures IsRun(run + [a]) && After(run + [a]) == Next(After(run), a)
  {
  }
}
