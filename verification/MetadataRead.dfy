/**
 One scan serves many callers: how Tail bounds are merged while a refill is pending, and how each
 caller's response is projected from the shared rows.
 */
module MetadataRead {
  import opened Numeric
  import opened SealedCache

  // ---------------------------------------------------------------------------------------------
  // Projection
  // ---------------------------------------------------------------------------------------------

  /** The partitions of a row that the caller asked for, at or above their own bounds. */
  function Wanted(spec: Spec, row: Segment): map<nat, Placement> {
    map p | p in row.partitions && p in spec.partitions
            && (spec.bounds.Some? ==> p in spec.bounds.value && spec.bounds.value[p] <= row.id)
          :: row.partitions[p]
  }

  /** What the caller is shown of some rows: only wanted partitions, and no row without one. */
  function Projected(spec: Spec, rows: seq<Segment>): seq<Segment> {
    if rows == [] then
      []
    else
      var rest := Projected(spec, rows[..|rows| - 1]);
      var last := rows[|rows| - 1];
      if Wanted(spec, last) == map[] then rest else rest + [Segment(last.id, Wanted(spec, last))]
  }

  lemma {:induction false} ProjectedAppend(spec: Spec, a: seq<Segment>, b: seq<Segment>)
    ensures Projected(spec, a + b) == Projected(spec, a) + Projected(spec, b)
    decreases |b|
  {
    if b == [] {
      assert a + b == a;
    } else {
      assert (a + b)[..|a + b| - 1] == a + b[..|b| - 1];
      ProjectedAppend(spec, a, b[..|b| - 1]);
    }
  }

  lemma NothingBelowFloorIsWanted(spec: Spec, row: Segment)
    requires spec.bounds.Some? && spec.bounds.value != map[] && row.id < LeastBound(spec.bounds.value)
    ensures Wanted(spec, row) == map[]
  {
  }

  lemma UnwantedIsNotShown(spec: Spec, row: Segment)
    requires Wanted(spec, row) == map[]
    ensures Projected(spec, [row]) == []
  {
    assert [row][..0] == [];
  }

  /** Rows below the caller's floor do not change what it is shown. */
  lemma {:induction false} ProjectionIgnoresExtraRows(spec: Spec, rows: seq<Segment>, floor: Option<nat>)
    requires Covers(floor, Floor(spec))
    ensures Projected(spec, From(rows, floor)) == Projected(spec, rows)
    decreases |rows|
  {
    if rows != [] {
      var first, rest := rows[0], rows[1..];
      ProjectionIgnoresExtraRows(spec, rest, floor);
      assert rows == [first] + rest;
      ProjectedAppend(spec, [first], rest);
      if AtLeast(floor, first.id) {
        ProjectedAppend(spec, [first], From(rest, floor));
      } else {
        NothingBelowFloorIsWanted(spec, first);
        UnwantedIsNotShown(spec, first);
      }
    }
  }

  /** The caller asked for this partition of a row with this identifier. */
  predicate Asks(spec: Spec, p: nat, id: nat) {
    p in spec.partitions && (spec.bounds.Some? ==> p in spec.bounds.value && spec.bounds.value[p] <= id)
  }

  predicate HoldsAsked(spec: Spec, row: Segment) {
    exists p | p in row.partitions :: Asks(spec, p, row.id)
  }

  /** The row with exactly the asked partitions, each placed as in the row. */
  ghost predicate ShowsRow(spec: Spec, row: Segment, shown: Segment) {
    && shown.id == row.id
    && (forall p :: p in shown.partitions <==> p in row.partitions && Asks(spec, p, row.id))
    && (forall p | p in shown.partitions :: shown.partitions[p] == row.partitions[p])
  }

  /** `out` shows the rows numbered `kept`, in order and each once: exactly those that hold an asked partition. */
  ghost predicate Shows(spec: Spec, rows: seq<Segment>, out: seq<Segment>, kept: seq<nat>) {
    && |out| == |kept|
    && (forall i | 0 <= i < |kept| :: kept[i] < |rows| && ShowsRow(spec, rows[kept[i]], out[i]))
    && (forall i, j | 0 <= i < j < |kept| :: kept[i] < kept[j])
    && (forall k: nat | k < |rows| :: k in kept <==> HoldsAsked(spec, rows[k]))
  }

  lemma WantedIsShown(spec: Spec, row: Segment)
    ensures Wanted(spec, row) == map[] <==> !HoldsAsked(spec, row)
    ensures ShowsRow(spec, row, Segment(row.id, Wanted(spec, row)))
  {
    if HoldsAsked(spec, row) {
      var p :| p in row.partitions && Asks(spec, p, row.id);
      assert p in Wanted(spec, row);
    }
  }

  /** What a projection shows, told without it. */
  lemma {:induction false} ProjectionShows(spec: Spec, rows: seq<Segment>) returns (kept: seq<nat>)
    ensures Shows(spec, rows, Projected(spec, rows), kept)
    decreases |rows|
  {
    kept := [];
    if rows != [] {
      var before, last := rows[..|rows| - 1], rows[|rows| - 1];
      kept := ProjectionShows(spec, before);
      WantedIsShown(spec, last);
      assert rows == before + [last];
      if Wanted(spec, last) != map[] {
        ShowsOneMore(spec, before, last, Projected(spec, before), kept, Segment(last.id, Wanted(spec, last)));
        kept := kept + [|before|];
      } else {
        ShowsNoMore(spec, before, last, Projected(spec, before), kept);
      }
    }
  }

  lemma ShowsOneMore(spec: Spec, rows: seq<Segment>, row: Segment, out: seq<Segment>, kept: seq<nat>, shown: Segment)
    requires Shows(spec, rows, out, kept) && HoldsAsked(spec, row) && ShowsRow(spec, row, shown)
    ensures Shows(spec, rows + [row], out + [shown], kept + [|rows|])
  {
    var kept' := kept + [|rows|];
    assert kept'[|kept|] == |rows|;
    assert forall k: nat | k < |rows| :: k in kept' <==> k in kept;
  }

  lemma ShowsNoMore(spec: Spec, rows: seq<Segment>, row: Segment, out: seq<Segment>, kept: seq<nat>)
    requires Shows(spec, rows, out, kept) && !HoldsAsked(spec, row)
    ensures Shows(spec, rows + [row], out, kept)
  {
    assert |rows| !in kept;
  }

  function TotalSize(rows: seq<Segment>, size: Segment -> nat): nat {
    if rows == [] then 0 else TotalSize(rows[..|rows| - 1], size) + size(rows[|rows| - 1])
  }

  /** The lowest bound, found by a loop over the bounds. */
  method MinSnowflake(bounds: map<nat, nat>) returns (least: nat)
    requires bounds != map[]
    ensures least == LeastBound(bounds)
  {
    var p :| p in bounds;
    least := bounds[p];
    var rest := bounds.Keys - {p};
    while rest != {}
      invariant rest <= bounds.Keys
      invariant exists q | q in bounds :: bounds[q] == least
      invariant forall q | q in bounds && q !in rest :: least <= bounds[q]
      decreases |rest|
    {
      var q :| q in rest;
      if bounds[q] < least {
        least := bounds[q];
      }
      rest := rest - {q};
    }
  }

  /** The projecting loop; refused exactly when the projection has too many rows or too many bytes. */
  method ProjectRows(spec: Spec, rows: seq<Segment>, size: Segment -> nat, byteLimit: u64, maxItems: nat)
    returns (r: Result<seq<Segment>>)
    requires spec.bounds.Some? ==> spec.bounds.value != map[]
    ensures r == if |Projected(spec, rows)| <= maxItems && Sat(TotalSize(Projected(spec, rows), size)) <= byteLimit
                 then Ok(Projected(spec, rows)) else Err
  {
    var floor := 0;
    if spec.bounds.Some? {
      floor := MinSnowflake(spec.bounds.value);
    }
    var out := [];
    var bytes: u64 := 0;
    for i := 0 to |rows|
      invariant out == Projected(spec, rows[..i]) && |out| <= maxItems
      invariant bytes == Sat(TotalSize(out, size)) && bytes <= byteLimit
    {
      assert rows[..i + 1][..i] == rows[..i];
      var row := rows[i];
      if row.id < floor {
        NothingBelowFloorIsWanted(spec, row);
        continue;
      }
      var wanted := Wanted(spec, row);
      if wanted == map[] {
        continue;
      }
      var shown := Segment(row.id, wanted);
      assert (out + [shown])[..|out|] == out;
      bytes := Sat(bytes + size(shown));
      if bytes > byteLimit || |out| >= maxItems {
        RefusedEarly(spec, rows, i + 1, size, byteLimit, maxItems);
        return Err;
      }
      out := out + [shown];
    }
    assert rows[..|rows|] == rows;
    r := Ok(out);
  }

  /** The rows of a response: what they show, and that they are refused exactly when they are too many or too large. */
  method ResponseRows(spec: Spec, rows: seq<Segment>, size: Segment -> nat, byteLimit: u64, maxItems: nat)
    returns (r: Result<seq<Segment>>, ghost shown: seq<Segment>, ghost kept: seq<nat>)
    requires spec.bounds.Some? ==> spec.bounds.value != map[]
    ensures Shows(spec, rows, shown, kept)
    ensures r == if |shown| <= maxItems && Sat(TotalSize(shown, size)) <= byteLimit then Ok(shown) else Err
  {
    r := ProjectRows(spec, rows, size, byteLimit, maxItems);
    shown := Projected(spec, rows);
    kept := ProjectionShows(spec, rows);
  }

  /** A prefix over the limits keeps the whole over the limits. */
  lemma RefusedEarly(spec: Spec, rows: seq<Segment>, k: nat, size: Segment -> nat, byteLimit: u64, maxItems: nat)
    requires k <= |rows|
    requires Sat(TotalSize(Projected(spec, rows[..k]), size)) > byteLimit || |Projected(spec, rows[..k])| > maxItems
    ensures Sat(TotalSize(Projected(spec, rows), size)) > byteLimit || |Projected(spec, rows)| > maxItems
  {
    assert rows == rows[..k] + rows[k..];
    ProjectedAppend(spec, rows[..k], rows[k..]);
    TotalSizeGrows(Projected(spec, rows[..k]), Projected(spec, rows[k..]), size);
  }

  lemma {:induction false} TotalSizeGrows(a: seq<Segment>, b: seq<Segment>, size: Segment -> nat)
    ensures TotalSize(a + b, size) >= TotalSize(a, size)
    decreases |b|
  {
    if b == [] {
      assert a + b == a;
    } else {
      assert (a + b)[..|a + b| - 1] == a + b[..|b| - 1];
      TotalSizeGrows(a, b[..|b| - 1], size);
    }
  }

  // ---------------------------------------------------------------------------------------------
  // Coalescing
  // ---------------------------------------------------------------------------------------------

  /** Both sets of bounds, the lower one where they overlap. */
  function Merged(a: map<nat, nat>, b: map<nat, nat>): map<nat, nat> {
    map p | p in a.Keys + b.Keys ::
      if p in a && p in b then MinId(a[p], b[p]) else if p in a then a[p] else b[p]
  }

  /** `bounds` has merged every key of `other` outside `todo`. */
  ghost predicate MergedExcept(pending: map<nat, nat>, other: map<nat, nat>, todo: set<nat>, bounds: map<nat, nat>) {
    && (forall p :: p in bounds <==> p in pending || (p in other && p !in todo))
    && (forall p | p in bounds && (p !in other || p in todo) :: p in pending && bounds[p] == pending[p])
    && (forall p | p in other && p !in todo ::
          p in bounds && bounds[p] == if p in pending then MinId(pending[p], other[p]) else other[p])
  }

  method MergeBounds(pending: map<nat, nat>, other: map<nat, nat>) returns (bounds: map<nat, nat>)
    ensures bounds == Merged(pending, other)
  {
    bounds := pending;
    var todo := other.Keys;
    while todo != {}
      invariant todo <= other.Keys && MergedExcept(pending, other, todo, bounds)
      decreases |todo|
    {
      var p :| p in todo;
      ghost var before := bounds;
      bounds := bounds[p := if p in bounds then MinId(bounds[p], other[p]) else other[p]];
      MergeOne(pending, other, todo, before, p);
      todo := todo - {p};
    }
    assert bounds.Keys == Merged(pending, other).Keys;
  }

  lemma MergeOne(pending: map<nat, nat>, other: map<nat, nat>, todo: set<nat>, bounds: map<nat, nat>, p: nat)
    requires MergedExcept(pending, other, todo, bounds) && p in todo && p in other
    ensures MergedExcept(pending, other, todo - {p}, bounds[p := if p in bounds then MinId(bounds[p], other[p]) else other[p]])
  {
  }

  class PendingRefill {
    var spec: Spec
    var completed: Option<Result<Entry>>

    constructor (first: Spec)
      ensures spec == first && completed.None?
    {
      spec, completed := first, None;
    }

    /** A later Tail caller lowers the pending bounds until the refill completes. */
    method Admit(other: Spec)
      modifies this`spec
      ensures spec == Admitted(old(spec), completed.Some?, other)
      ensures completed.Some? || old(spec).bounds.None? || other.bounds.None? ==> spec == old(spec)
      ensures completed.None? && old(spec).bounds.Some? && other.bounds.Some? ==>
                && spec.bounds.Some? && spec == old(spec).(bounds := spec.bounds)
                && (forall p :: p in spec.bounds.value <==> p in old(spec).bounds.value || p in other.bounds.value)
                && (forall p | p in old(spec).bounds.value :: spec.bounds.value[p] <= old(spec).bounds.value[p])
                && (forall p | p in other.bounds.value :: spec.bounds.value[p] <= other.bounds.value[p])
                && (forall p | p in spec.bounds.value ::
                      || (p in old(spec).bounds.value && spec.bounds.value[p] == old(spec).bounds.value[p])
                      || (p in other.bounds.value && spec.bounds.value[p] == other.bounds.value[p]))
    {
      if completed.Some? || spec.bounds.None? || other.bounds.None? {
        return;
      }
      var bounds := MergeBounds(spec.bounds.value, other.bounds.value);
      spec := spec.(bounds := Some(bounds));
    }

    method Complete(result: Result<Entry>)
      modifies this`completed
      ensures completed == Some(result)
    {
      completed := Some(result);
    }
  }

  function Admitted(pending: Spec, isComplete: bool, other: Spec): Spec {
    if isComplete || pending.bounds.None? || other.bounds.None? then pending
    else pending.(bounds := Some(Merged(pending.bounds.value, other.bounds.value)))
  }

  /** The specification a refill captures after the callers `others` joined the first one. */
  function Coalesced(first: Spec, others: seq<Spec>): Spec {
    if others == [] then first
    else Admitted(Coalesced(first, others[..|others| - 1]), false, others[|others| - 1])
  }

  predicate IsTail(spec: Spec) {
    spec.bounds.Some? && spec.bounds.value != map[]
  }

  lemma AdmittedLowersFloor(pending: Spec, other: Spec)
    requires IsTail(pending) && IsTail(other)
    ensures IsTail(Admitted(pending, false, other))
    ensures Covers(Floor(Admitted(pending, false, other)), Floor(pending))
    ensures Covers(Floor(Admitted(pending, false, other)), Floor(other))
    ensures Floor(Admitted(pending, false, other)) in {Floor(pending), Floor(other)}
  {
    var merged := Admitted(pending, false, other).bounds.value;
    var p :| p in pending.bounds.value && pending.bounds.value[p] == LeastBound(pending.bounds.value);
    var q :| q in other.bounds.value && other.bounds.value[q] == LeastBound(other.bounds.value);
    assert p in merged && q in merged;
    var r :| r in merged && merged[r] == LeastBound(merged);
  }

  lemma {:induction false} CoalescedCoversAll(first: Spec, others: seq<Spec>)
    requires IsTail(first) && forall o | o in others :: IsTail(o)
    ensures IsTail(Coalesced(first, others)) && Covers(Floor(Coalesced(first, others)), Floor(first))
    ensures forall o | o in others :: Covers(Floor(Coalesced(first, others)), Floor(o))
    ensures exists o | o == first || o in others :: Floor(Coalesced(first, others)) == Floor(o)
    decreases |others|
  {
    if others != [] {
      var before, last := others[..|others| - 1], others[|others| - 1];
      CoalescedCoversAll(first, before);
      AdmittedLowersFloor(Coalesced(first, before), last);
      forall o | o in others
        ensures Covers(Floor(Coalesced(first, others)), Floor(o))
      {
        assert o == last || o in before;
      }
      var least :| (least == first || least in before) && Floor(Coalesced(first, before)) == Floor(least);
      assert least == first || least in others;
      assert last in others;
    }
  }

  /**
   Whatever callers joined before the refill began: if the store holds `rows` when the one shared scan
   runs, each of them is shown exactly what its own scan from its own floor would show.
   */
  lemma {:induction false} SharedScanServesEveryCaller(first: Spec, others: seq<Spec>, caller: Spec, rows: seq<Segment>)
    requires IsTail(first) && (forall o | o in others :: IsTail(o)) && (caller == first || caller in others)
    ensures Projected(caller, From(rows, Floor(Coalesced(first, others)))) == Projected(caller, From(rows, Floor(caller)))
  {
    CoalescedCoversAll(first, others);
    ProjectionIgnoresExtraRows(caller, rows, Floor(Coalesced(first, others)));
    ProjectionIgnoresExtraRows(caller, rows, Floor(caller));
  }

  /** Whatever the store holds, a scan from the captured floor shows the caller what its own scan would. */
  ghost predicate ShowsTheSame(captured: Spec, caller: Spec) {
    forall rows: seq<Segment> :: Projected(caller, From(rows, Floor(captured))) == Projected(caller, From(rows, Floor(caller)))
  }

  /** A row that a scan from a higher floor misses and the caller wants. */
  lemma MissedRow(captured: Spec, caller: Spec) returns (rows: seq<Segment>)
    requires IsTail(captured) && IsTail(caller) && !Covers(Floor(captured), Floor(caller))
    requires caller.partitions == caller.bounds.value.Keys
    ensures Projected(caller, From(rows, Floor(captured))) != Projected(caller, From(rows, Floor(caller)))
  {
    var bounds := caller.bounds.value;
    var p :| p in bounds && bounds[p] == LeastBound(bounds);
    var row := Segment(bounds[p], map[p := Placement(0, 0)]);
    rows := [row];
    assert rows[1..] == [] && rows[..0] == [];
    assert From(rows, Floor(captured)) == [] && From(rows, Floor(caller)) == rows;
    assert p in Wanted(caller, row);
  }

  /**
   A caller that joined after the refill had begun is answered from it exactly when that is right: the
   captured floor covers its own if and only if the shared scan shows it, for every content of the
   store, what its own scan would.
   */
  lemma LateCallerIsAnsweredIffServed(c: Config, captured: Spec, caller: Spec, scanned: seq<Segment>, startedAt: int,
                                      observedAt: int, generation: nat)
    requires IsTail(captured) && IsTail(caller) && caller.partitions == caller.bounds.value.Keys
    ensures AnswerOfLoad(c, caller, LoadedEntry(c, captured, scanned, startedAt, observedAt, generation)).Some?
       <==> ShowsTheSame(captured, caller)
  {
    if Covers(Floor(captured), Floor(caller)) {
      forall rows: seq<Segment>
        ensures Projected(caller, From(rows, Floor(captured))) == Projected(caller, From(rows, Floor(caller)))
      {
        ProjectionIgnoresExtraRows(caller, rows, Floor(captured));
        ProjectionIgnoresExtraRows(caller, rows, Floor(caller));
      }
    } else {
      var rows := MissedRow(captured, caller);
    }
  }
}
