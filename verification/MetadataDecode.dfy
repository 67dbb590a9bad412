/**
 The consumer's validator for broker metadata responses, and which broker answers it accepts.
 */
module MetadataDecode {
  import opened Numeric
  import opened SealedCache
  import opened MetadataRead

  // ---------------------------------------------------------------------------------------------
  // Requests and responses
  // ---------------------------------------------------------------------------------------------

  datatype Wants = Tail(bounds: seq<(nat, nat)>) | FullRecovery(ids: seq<nat>)

  datatype Request = Request(strong: bool, wants: Wants, seal: Option<nat>, horizon: int)

  datatype Response =
    | Success(
        observedAt: int, floor: Option<nat>, generation: nat, retained: bool, sealedBefore: Option<nat>,
        sealedAt: Option<int>, retainedStrong: bool, rows: seq<Segment>)
    | Failure

  datatype Decoded = Decoded(rows: seq<Segment>, observedAt: int, sealed: Option<(nat, int)>)

  /** A later bound for the same partition replaces an earlier one. */
  function BoundsOf(bounds: seq<(nat, nat)>): map<nat, nat> {
    if bounds == [] then map[]
    else BoundsOf(bounds[..|bounds| - 1])[bounds[|bounds| - 1].0 := bounds[|bounds| - 1].1]
  }

  function SetOf(ids: seq<nat>): set<nat> {
    set id | id in ids
  }

  /** The broker's validation of a strong request; the seal is clamped to the window. */
  function ToSpec(c: Config, request: Request): Result<Spec> {
    var seal := if request.seal.Some? then Some(MinId(request.seal.value, c.windowEnd)) else None;
    match request.wants
    case Tail(bounds) =>
      var merged := BoundsOf(bounds);
      if merged == map[] || |merged| != |bounds| then Err
      else Ok(Spec(merged.Keys, Some(merged), seal, request.horizon))
    case FullRecovery(ids) =>
      if ids == [] || |SetOf(ids)| != |ids| then Err
      else Ok(Spec(SetOf(ids), None, seal, request.horizon))
  }

  /** The success built from an entry; the seal is clamped to what was asked for. */
  function Respond(spec: Spec, entry: Entry, retainedStrong: bool): Response {
    var sealedBefore :=
      if entry.sealedBefore.None? then None
      else if spec.seal.Some? then Some(MinId(entry.sealedBefore.value, spec.seal.value))
      else entry.sealedBefore;
    Success(entry.observedAt, entry.floor, entry.generation, false, sealedBefore,
            if entry.sealedBefore.Some? then entry.sealedAt else None, retainedStrong,
            Projected(spec, entry.segments))
  }

  // ---------------------------------------------------------------------------------------------
  // The validator
  // ---------------------------------------------------------------------------------------------

  ghost predicate SealAccepted(c: Config, request: Request, r: Response, horizon: int)
    requires r.Success?
  {
    if r.sealedBefore.Some? && r.sealedAt.Some? then
      && request.seal.Some? && r.sealedBefore.value <= request.seal.value
      && r.sealedBefore.value <= c.minId(r.sealedAt.value - horizon)
      && r.sealedAt.value <= r.observedAt
    else
      r.sealedBefore.None? && r.sealedAt.None? && !r.retainedStrong
  }

  ghost predicate FloorAccepted(request: Request, r: Response)
    requires r.Success?
  {
    match request.wants
    case Tail(bounds) =>
      BoundsOf(bounds) != map[] && r.floor.Some? && r.floor.value <= LeastBound(BoundsOf(bounds))
    case FullRecovery(ids) => r.floor.None? && ids != [] && |SetOf(ids)| == |ids|
  }

  predicate PartitionAccepted(request: Request, p: nat, id: nat) {
    match request.wants
    case Tail(bounds) => p in BoundsOf(bounds) && BoundsOf(bounds)[p] <= id
    case FullRecovery(ids) => p in SetOf(ids)
  }

  ghost predicate RowsAccepted(request: Request, rows: seq<Segment>) {
    && (forall i, j | 0 <= i < j < |rows| :: rows[i].id != rows[j].id)
    && (forall i | 0 <= i < |rows| :: rows[i].partitions != map[])
    && (forall i, p | 0 <= i < |rows| && p in rows[i].partitions :: PartitionAccepted(request, p, rows[i].id))
  }

  ghost function Decode(c: Config, request: Request, response: Response, receivedAt: int, maxAge: int, horizon: int)
    : Result<Decoded>
  {
    if response.Failure? || response.generation == 0 then
      Err
    else if request.strong && response.retained then
      Err
    else if !request.strong && (response.sealedBefore.Some? || response.sealedAt.Some? || response.retainedStrong) then
      Err
    else if !SealAccepted(c, request, response, horizon) then
      Err
    else if !request.strong && response.observedAt < receivedAt - maxAge then
      Err
    else if !FloorAccepted(request, response) || !RowsAccepted(request, response.rows) then
      Err
    else
      Ok(Decoded(response.rows, response.observedAt,
                 if response.sealedBefore.Some? && response.sealedAt.Some?
                 then Some((response.sealedBefore.value, response.sealedAt.value)) else None))
  }

  /** The bound that a tail request states for a partition: the last one it lists. */
  predicate IsBoundFor(bounds: seq<(nat, nat)>, p: nat, b: nat) {
    exists i | 0 <= i < |bounds| :: bounds[i] == (p, b) && forall j | i < j < |bounds| :: bounds[j].0 != p
  }

  lemma {:induction false} BoundsAreLast(bounds: seq<(nat, nat)>, p: nat, b: nat)
    ensures p in BoundsOf(bounds) && BoundsOf(bounds)[p] == b <==> IsBoundFor(bounds, p, b)
    decreases |bounds|
  {
    if bounds != [] {
      var before, last := bounds[..|bounds| - 1], bounds[|bounds| - 1];
      BoundsAreLast(before, p, b);
      if last.0 != p {
        if IsBoundFor(before, p, b) {
          var i :| 0 <= i < |before| && before[i] == (p, b) && forall j | i < j < |before| :: before[j].0 != p;
          assert bounds[i] == (p, b);
        }
        if IsBoundFor(bounds, p, b) {
          var i :| 0 <= i < |bounds| && bounds[i] == (p, b) && forall j | i < j < |bounds| :: bounds[j].0 != p;
          assert before[i] == (p, b) && forall j | i < j < |before| :: before[j] == bounds[j];
        }
      } else if last == (p, b) {
        assert bounds[|bounds| - 1] == (p, b);
      }
    }
  }

  /** The proofs that an accepted response carries, for a strong or a weak request. */
  predicate ProofsInOrder(c: Config, request: Request, r: Response, receivedAt: int, maxAge: int, horizon: int)
    requires r.Success?
  {
    && r.generation > 0 && (r.sealedBefore.Some? <==> r.sealedAt.Some?)
    && (request.strong ==> !r.retained)
    && (!request.strong ==> r.sealedBefore.None? && r.observedAt + maxAge >= receivedAt)
    && (r.retainedStrong ==> r.sealedBefore.Some?)
    && (r.sealedBefore.Some? ==>
          && request.seal.Some? && r.sealedBefore.value <= request.seal.value
          && r.sealedBefore.value <= c.minId(r.sealedAt.value - horizon) && r.sealedAt.value <= r.observedAt)
  }

  /** The scan behind an accepted response reached down to every bound, or was a full one. */
  ghost predicate ReachesEveryBound(request: Request, floor: Option<nat>) {
    match request.wants
    case Tail(bounds) => bounds != [] && floor.Some? && forall p: nat, b: nat | IsBoundFor(bounds, p, b) :: floor.value <= b
    case FullRecovery(ids) => floor.None? && ids != [] && forall i, j | 0 <= i < j < |ids| :: ids[i] != ids[j]
  }

  /** An accepted row shows only partitions that were asked for, none below its bound. */
  ghost predicate AskedFor(request: Request, p: nat, id: nat) {
    match request.wants
    case Tail(bounds) => exists b: nat :: IsBoundFor(bounds, p, b) && b <= id
    case FullRecovery(ids) => p in ids
  }

  lemma PartitionAcceptedIff(request: Request, p: nat, id: nat)
    ensures PartitionAccepted(request, p, id) <==> AskedFor(request, p, id)
  {
    match request.wants
    case Tail(bounds) =>
      forall b: nat
        ensures p in BoundsOf(bounds) && BoundsOf(bounds)[p] == b <==> IsBoundFor(bounds, p, b)
      {
        BoundsAreLast(bounds, p, b);
      }
      if p in BoundsOf(bounds) {
        assert IsBoundFor(bounds, p, BoundsOf(bounds)[p]);
      }
    case FullRecovery(ids) =>
  }

  lemma {:induction false} DistinctIff(ids: seq<nat>)
    ensures |SetOf(ids)| <= |ids|
    ensures |SetOf(ids)| == |ids| <==> forall i, j | 0 <= i < j < |ids| :: ids[i] != ids[j]
    decreases |ids|
  {
    if ids != [] {
      var before, last := ids[..|ids| - 1], ids[|ids| - 1];
      DistinctIff(before);
      assert SetOf(ids) == SetOf(before) + {last};
      if last in before {
        var i :| 0 <= i < |before| && before[i] == last;
        assert ids[i] == ids[|ids| - 1];
        assert SetOf(ids) == SetOf(before);
      }
    }
  }

  lemma {:induction false} DistinctBoundsIff(bounds: seq<(nat, nat)>)
    ensures |BoundsOf(bounds)| <= |bounds|
    ensures |BoundsOf(bounds)| == |bounds| <==> forall i, j | 0 <= i < j < |bounds| :: bounds[i].0 != bounds[j].0
    ensures forall i | 0 <= i < |bounds| :: bounds[i].0 in BoundsOf(bounds)
    decreases |bounds|
  {
    if bounds != [] {
      var before, last := bounds[..|bounds| - 1], bounds[|bounds| - 1];
      DistinctBoundsIff(before);
      if last.0 in BoundsOf(before) {
        BoundsAreLast(before, last.0, BoundsOf(before)[last.0]);
        var i :| 0 <= i < |before| && before[i].0 == last.0;
        assert bounds[i].0 == bounds[|bounds| - 1].0;
        assert BoundsOf(bounds).Keys == BoundsOf(before).Keys;
        assert |BoundsOf(bounds)| == |BoundsOf(bounds).Keys| && |BoundsOf(before)| == |BoundsOf(before).Keys|;
      } else {
        assert BoundsOf(bounds).Keys == BoundsOf(before).Keys + {last.0};
        assert |BoundsOf(bounds)| == |BoundsOf(bounds).Keys| && |BoundsOf(before)| == |BoundsOf(before).Keys|;
        assert forall i | 0 <= i < |before| :: bounds[i].0 == before[i].0 && bounds[i].0 != last.0;
      }
    }
  }

  /**
   The broker refuses a request exactly when it names no partition or one twice; otherwise it reads what
   was asked for, under the same horizon, sealed no further than asked nor past the window.
   */
  lemma ToSpecAsks(c: Config, request: Request)
    ensures ToSpec(c, request).Ok? <==>
            match request.wants
            case Tail(bounds) => bounds != [] && forall i, j | 0 <= i < j < |bounds| :: bounds[i].0 != bounds[j].0
            case FullRecovery(ids) => ids != [] && forall i, j | 0 <= i < j < |ids| :: ids[i] != ids[j]
    ensures ToSpec(c, request).Ok? ==>
              var spec := ToSpec(c, request).value;
              && (forall p, id :: Asks(spec, p, id) <==> AskedFor(request, p, id))
              && spec.requestedHorizon == request.horizon && (spec.seal.Some? <==> request.seal.Some?)
              && (spec.seal.Some? ==>
                    && spec.seal.value <= request.seal.value && spec.seal.value <= c.windowEnd
                    && (spec.seal.value == request.seal.value || spec.seal.value == c.windowEnd))
  {
    match request.wants {
      case Tail(bounds) =>
        DistinctBoundsIff(bounds);
        if bounds != [] {
          assert bounds[0].0 in BoundsOf(bounds);
        }
      case FullRecovery(ids) =>
        DistinctIff(ids);
    }
    forall p, id
      ensures PartitionAccepted(request, p, id) <==> AskedFor(request, p, id)
    {
      PartitionAcceptedIff(request, p, id);
    }
  }

  lemma FloorAcceptedIff(request: Request, r: Response)
    requires r.Success?
    ensures FloorAccepted(request, r) <==> ReachesEveryBound(request, r.floor)
  {
    match request.wants
    case Tail(bounds) =>
      var merged := BoundsOf(bounds);
      forall p: nat, b: nat
        ensures p in merged && merged[p] == b <==> IsBoundFor(bounds, p, b)
      {
        BoundsAreLast(bounds, p, b);
      }
      if bounds != [] {
        assert bounds[|bounds| - 1].0 in merged;
        var p :| p in merged && merged[p] == LeastBound(merged);
        assert IsBoundFor(bounds, p, merged[p]);
      }
    case FullRecovery(ids) => DistinctIff(ids);
  }

  /** What the validator accepts, for every request and every response. */
  lemma DecodesIff(c: Config, request: Request, r: Response, receivedAt: int, maxAge: int, horizon: int)
    ensures Decode(c, request, r, receivedAt, maxAge, horizon).Ok? <==>
            && r.Success? && ProofsInOrder(c, request, r, receivedAt, maxAge, horizon) && ReachesEveryBound(request, r.floor)
            && (forall i, j | 0 <= i < j < |r.rows| :: r.rows[i].id != r.rows[j].id)
            && (forall i | 0 <= i < |r.rows| :: r.rows[i].partitions != map[])
            && (forall i, p | 0 <= i < |r.rows| && p in r.rows[i].partitions :: AskedFor(request, p, r.rows[i].id))
    ensures Decode(c, request, r, receivedAt, maxAge, horizon).Ok? ==>
              var decoded := Decode(c, request, r, receivedAt, maxAge, horizon).value;
              && decoded.rows == r.rows && decoded.observedAt == r.observedAt
              && (decoded.sealed.Some? <==> r.sealedBefore.Some?)
              && (decoded.sealed.Some? ==> decoded.sealed.value == (r.sealedBefore.value, r.sealedAt.value))
  {
    if r.Success? {
      FloorAcceptedIff(request, r);
      forall p, id
        ensures PartitionAccepted(request, p, id) <==> AskedFor(request, p, id)
      {
        PartitionAcceptedIff(request, p, id);
      }
    }
  }

  // ---------------------------------------------------------------------------------------------
  // Projections are always acceptable
  // ---------------------------------------------------------------------------------------------

  lemma {:induction false} ProjectedRows(spec: Spec, rows: seq<Segment>)
    requires Ascending(rows)
    ensures Ascending(Projected(spec, rows))
    ensures forall r | r in Projected(spec, rows) ::
              && r.partitions != map[]
              && (forall p | p in r.partitions ::
                    p in spec.partitions && (spec.bounds.Some? ==> p in spec.bounds.value && spec.bounds.value[p] <= r.id))
    ensures forall r | r in Projected(spec, rows) :: exists row :: row in rows && row.id == r.id
    decreases |rows|
  {
    if rows != [] {
      var before, last := rows[..|rows| - 1], rows[|rows| - 1];
      ProjectedRows(spec, before);
      forall r | r in Projected(spec, rows)
        ensures exists row :: row in rows && row.id == r.id
      {
        if r in Projected(spec, before) {
          var row :| row in before && row.id == r.id;
          assert row in rows;
        } else {
          assert last in rows;
        }
      }
      forall r | r in Projected(spec, before)
        ensures r.id < last.id
      {
        var row :| row in before && row.id == r.id;
      }
    }
  }

  lemma ProjectionIsAccepted(c: Config, request: Request, rows: seq<Segment>)
    requires ToSpec(c, request).Ok? && Ascending(rows)
    ensures RowsAccepted(request, Projected(ToSpec(c, request).value, rows))
  {
    var spec := ToSpec(c, request).value;
    ProjectedRows(spec, rows);
    var shown := Projected(spec, rows);
    forall i, p | 0 <= i < |shown| && p in shown[i].partitions
      ensures PartitionAccepted(request, p, shown[i].id)
    {
      assert shown[i] in shown;
    }
  }

  // ---------------------------------------------------------------------------------------------
  // What the broker must promise about an answer
  // ---------------------------------------------------------------------------------------------

  /** A seal carries its proof time and was safe then under the reader's own horizon. */
  predicate Certified(c: Config, a: Answer) {
    && a.entry.generation > 0
    && (a.entry.sealedBefore.Some? ==>
          && a.entry.sealedAt.Some?
          && (a.spec.seal.Some? ==>
                MinId(a.entry.sealedBefore.value, a.spec.seal.value) <= c.minId(a.entry.sealedAt.value - a.spec.requestedHorizon)))
    && (a.retained ==> a.entry.sealedBefore.Some?)
  }

  /** The clock reading that proves the seal is not later than the one that dates the observation. */
  predicate InOrder(e: Entry) {
    e.sealedBefore.Some? && e.sealedAt.Some? ==> e.sealedAt.value <= e.observedAt
  }

  /** The validator accepts a certified answer exactly when its two clock readings are in order. */
  lemma CertifiedIsAcceptedIff(c: Config, request: Request, a: Answer, receivedAt: int, maxAge: int)
    requires request.strong && request.seal.Some? && ToSpec(c, request) == Ok(a.spec)
    requires Certified(c, a) && Covers(a.entry.floor, Floor(a.spec)) && Ascending(a.entry.segments)
    ensures var decoded := Decode(c, request, Respond(a.spec, a.entry, a.retained), receivedAt, maxAge, request.horizon);
            && (decoded.Ok? <==> InOrder(a.entry))
            && (decoded.Ok? ==> decoded.value.rows == Projected(a.spec, a.entry.segments))
  {
    ProjectionIsAccepted(c, request, a.entry.segments);
  }

  /** Without a requested seal the validator accepts exactly the entries that carry none. */
  lemma UnsealedIsAcceptedIff(c: Config, request: Request, a: Answer, receivedAt: int, maxAge: int)
    requires request.strong && request.seal.None? && ToSpec(c, request) == Ok(a.spec)
    requires Certified(c, a) && !a.retained && Covers(a.entry.floor, Floor(a.spec)) && Ascending(a.entry.segments)
    ensures Decode(c, request, Respond(a.spec, a.entry, a.retained), receivedAt, maxAge, request.horizon).Ok?
       <==> a.entry.sealedBefore.None?
  {
    ProjectionIsAccepted(c, request, a.entry.segments);
  }
}
