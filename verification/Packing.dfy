/**
 Packing of encoded partitions into segment objects. The specification is the set of all contiguous
 splits; the greedy table and the balancing heuristic are both proved against it.
 */
module Packing {
  import opened Numeric

  // ---------------------------------------------------------------------------------------------
  // Contiguous splits
  // ---------------------------------------------------------------------------------------------

  /** Exact number of bytes in the partitions `[i, j)`. */
  function RangeSum(bytes: seq<nat>, i: nat, j: nat): nat
    requires i <= j <= |bytes|
    decreases j - i
  {
    if i == j then 0 else bytes[i] + RangeSum(bytes, i + 1, j)
  }

  /** One object may hold `[i, j)`: it stays within the limit or it is a single partition. */
  predicate Fits(bytes: seq<nat>, i: nat, j: nat, limit: nat)
    requires i <= j <= |bytes|
  {
    i < j && (j == i + 1 || RangeSum(bytes, i, j) <= limit)
  }

  /** `lens` cuts the partitions `[i, j)` into consecutive objects, each of which fits. */
  predicate Packs(lens: seq<nat>, bytes: seq<nat>, i: nat, j: nat, limit: nat)
    requires i <= j <= |bytes|
    decreases |lens|
  {
    if lens == [] then
      i == j
    else
      && i + lens[0] <= j
      && Fits(bytes, i, i + lens[0], limit)
      && Packs(lens[1..], bytes, i + lens[0], j, limit)
  }

  /** `count` is the least number of objects over every split of the suffix from `i`. */
  ghost predicate IsMinimum(bytes: seq<nat>, i: nat, limit: nat, count: nat)
    requires i <= |bytes|
  {
    && (exists lens :: Packs(lens, bytes, i, |bytes|, limit) && |lens| == count)
    && (forall lens :: Packs(lens, bytes, i, |bytes|, limit) ==> count <= |lens|)
  }

  lemma {:induction false} RangeSumSplit(bytes: seq<nat>, i: nat, k: nat, j: nat)
    requires i <= k <= j <= |bytes|
    ensures RangeSum(bytes, i, j) == RangeSum(bytes, i, k) + RangeSum(bytes, k, j)
    decreases k - i
  {
    if i < k {
      RangeSumSplit(bytes, i + 1, k, j);
    }
  }

  lemma {:induction false} PacksSnoc(lens: seq<nat>, bytes: seq<nat>, i: nat, k: nat, j: nat, limit: nat)
    requires i <= k <= j <= |bytes|
    requires Packs(lens, bytes, i, k, limit) && Fits(bytes, k, j, limit)
    ensures Packs(lens + [j - k], bytes, i, j, limit)
    decreases |lens|
  {
    var longer := lens + [j - k];
    if lens == [] {
      assert longer[1..] == [];
    } else {
      PacksSnoc(lens[1..], bytes, i + lens[0], k, j, limit);
      assert longer[1..] == lens[1..] + [j - k];
      RangeSumSplit(bytes, i, i + lens[0], k);
    }
  }

  // ---------------------------------------------------------------------------------------------
  // Greedy splitting is optimal
  // ---------------------------------------------------------------------------------------------

  /** Extend an object that starts at `i` and already holds `[i, j)` for as long as it fits. */
  function Grow(bytes: seq<nat>, i: nat, j: nat, limit: nat): (end: nat)
    requires i < j <= |bytes|
    ensures j <= end <= |bytes|
    ensures Fits(bytes, i, j, limit) ==> Fits(bytes, i, end, limit)
    ensures end < |bytes| ==> RangeSum(bytes, i, end + 1) > limit
    decreases |bytes| - j
  {
    if j < |bytes| && RangeSum(bytes, i, j + 1) <= limit then Grow(bytes, i, j + 1, limit) else j
  }

  /** End of the longest object that starts at `i`. */
  function Next(bytes: seq<nat>, i: nat, limit: nat): (end: nat)
    requires i < |bytes|
    ensures i < end <= |bytes|
    ensures Fits(bytes, i, end, limit)
    ensures end < |bytes| ==> RangeSum(bytes, i, end + 1) > limit
  {
    Grow(bytes, i, i + 1, limit)
  }

  /** Number of objects of the greedy split of the suffix from `i`. */
  function GreedyCount(bytes: seq<nat>, i: nat, limit: nat): (count: nat)
    requires i <= |bytes|
    ensures count <= |bytes| - i
    decreases |bytes| - i
  {
    if i == |bytes| then 0 else 1 + GreedyCount(bytes, Next(bytes, i, limit), limit)
  }

  function GreedyLens(bytes: seq<nat>, i: nat, limit: nat): (lens: seq<nat>)
    requires i <= |bytes|
    ensures Packs(lens, bytes, i, |bytes|, limit)
    ensures |lens| == GreedyCount(bytes, i, limit)
    decreases |bytes| - i
  {
    if i == |bytes| then
      []
    else
      var end := Next(bytes, i, limit);
      [end - i] + GreedyLens(bytes, end, limit)
  }

  /** No object that starts at `i` reaches past the greedy end, and later starts reach no less far. */
  lemma NextIsFarthest(bytes: seq<nat>, i: nat, k: nat, j: nat, limit: nat)
    requires i <= k < j <= |bytes|
    requires Fits(bytes, i, j, limit)
    ensures j <= Next(bytes, k, limit)
  {
    var end := Next(bytes, k, limit);
    if end < j {
      RangeSumSplit(bytes, i, k, j);
      RangeSumSplit(bytes, k, end + 1, j);
    }
  }

  lemma {:induction false} GreedyCountAntitone(bytes: seq<nat>, i: nat, k: nat, limit: nat)
    requires i <= k <= |bytes|
    ensures GreedyCount(bytes, k, limit) <= GreedyCount(bytes, i, limit)
    decreases |bytes| - i
  {
    if k < |bytes| {
      var end := Next(bytes, i, limit);
      if k < end {
        NextIsFarthest(bytes, i, k, end, limit);
        GreedyCountAntitone(bytes, end, Next(bytes, k, limit), limit);
      } else {
        GreedyCountAntitone(bytes, end, k, limit);
      }
    }
  }

  lemma {:induction false} GreedyIsLowerBound(lens: seq<nat>, bytes: seq<nat>, i: nat, limit: nat)
    requires i <= |bytes| && Packs(lens, bytes, i, |bytes|, limit)
    ensures GreedyCount(bytes, i, limit) <= |lens|
    decreases |lens|
  {
    if lens != [] {
      var k := i + lens[0];
      GreedyIsLowerBound(lens[1..], bytes, k, limit);
      NextIsFarthest(bytes, i, i, k, limit);
      GreedyCountAntitone(bytes, k, Next(bytes, i, limit), limit);
    }
  }

  /** The greedy count is the optimum over all contiguous splits, oversized and empty partitions included. */
  lemma GreedyIsMinimum(bytes: seq<nat>, i: nat, limit: nat)
    requires i <= |bytes|
    ensures IsMinimum(bytes, i, limit, GreedyCount(bytes, i, limit))
  {
    assert Packs(GreedyLens(bytes, i, limit), bytes, i, |bytes|, limit);
    forall lens | Packs(lens, bytes, i, |bytes|, limit)
      ensures GreedyCount(bytes, i, limit) <= |lens|
    {
      GreedyIsLowerBound(lens, bytes, i, limit);
    }
  }

  // ---------------------------------------------------------------------------------------------
  // The limit that saturating comparisons enforce
  // ---------------------------------------------------------------------------------------------

  /**
   The code compares saturated sums with the cap, so a cap of `u64::MAX` never closes an object.
   Every smaller cap is enforced exactly.
   */
  function Limit(bytes: seq<nat>, cap: u64): (limit: nat)
    ensures limit == cap <==> cap < U64_MAX || RangeSum(bytes, 0, |bytes|) <= U64_MAX
  {
    if cap < U64_MAX then cap else Max(cap, RangeSum(bytes, 0, |bytes|))
  }

  lemma SaturatedComparison(bytes: seq<nat>, cap: u64, i: nat, j: nat)
    requires i <= j <= |bytes|
    ensures Sat(RangeSum(bytes, i, j)) <= cap <==> RangeSum(bytes, i, j) <= Limit(bytes, cap)
  {
    RangeSumSplit(bytes, 0, i, |bytes|);
    RangeSumSplit(bytes, i, j, |bytes|);
  }

  lemma {:induction false} GrowSkips(bytes: seq<nat>, i: nat, j: nat, k: nat, limit: nat)
    requires i < j <= k <= |bytes|
    requires RangeSum(bytes, i, k) <= limit
    ensures Grow(bytes, i, j, limit) == Grow(bytes, i, k, limit)
    decreases k - j
  {
    if j < k {
      RangeSumSplit(bytes, i, j + 1, k);
      GrowSkips(bytes, i, j + 1, k, limit);
    }
  }

  // ---------------------------------------------------------------------------------------------
  // The two-pointer suffix table
  // ---------------------------------------------------------------------------------------------

  /** The inner loop: move the object end forward while the object stays within the cap. */
  method ExtendObject(bytes: seq<u64>, cap: u64, objectStart: nat, from: nat, fromBytes: u64)
    returns (objectEnd: nat, objectBytes: u64)
    requires objectStart < from <= |bytes|
    requires RangeSum(bytes, objectStart, from) <= Limit(bytes, cap)
    requires cap < U64_MAX ==> fromBytes == RangeSum(bytes, objectStart, from)
    ensures objectEnd == Next(bytes, objectStart, Limit(bytes, cap))
    ensures RangeSum(bytes, objectStart, objectEnd) <= Limit(bytes, cap)
    ensures cap < U64_MAX ==> objectBytes == RangeSum(bytes, objectStart, objectEnd)
  {
    ghost var limit := Limit(bytes, cap);
    GrowSkips(bytes, objectStart, objectStart + 1, from, limit);
    objectEnd, objectBytes := from, fromBytes;
    while objectEnd < |bytes| && bytes[objectEnd] <= cap && SatAdd(objectBytes, bytes[objectEnd]) <= cap
      invariant objectStart < objectEnd <= |bytes|
      invariant RangeSum(bytes, objectStart, objectEnd) <= limit
      invariant cap < U64_MAX ==> objectBytes == RangeSum(bytes, objectStart, objectEnd)
      invariant Grow(bytes, objectStart, objectEnd, limit) == Next(bytes, objectStart, limit)
    {
      RangeSumSplit(bytes, objectStart, objectEnd, objectEnd + 1);
      SaturatedComparison(bytes, cap, objectStart, objectEnd + 1);
      objectBytes := SatAdd(objectBytes, bytes[objectEnd]);
      objectEnd := objectEnd + 1;
    }
    if objectEnd < |bytes| {
      RangeSumSplit(bytes, objectStart, objectEnd, objectEnd + 1);
      SaturatedComparison(bytes, cap, objectStart, objectEnd + 1);
    }
  }

  method NextObjectStarts(bytes: seq<u64>, cap: u64) returns (starts: seq<nat>)
    ensures |starts| == |bytes|
    ensures forall i | 0 <= i < |bytes| :: starts[i] == Next(bytes, i, Limit(bytes, cap))
  {
    ghost var limit := Limit(bytes, cap);
    var nextObjectStart := new nat[|bytes|](_ => |bytes|);
    var objectEnd: nat := 0;
    var objectBytes: u64 := 0;
    for objectStart := 0 to |bytes|
      invariant objectStart <= objectEnd <= |bytes|
      invariant RangeSum(bytes, objectStart, objectEnd) <= limit
      invariant objectStart < objectEnd && cap < U64_MAX ==> objectBytes == RangeSum(bytes, objectStart, objectEnd)
      invariant forall i | 0 <= i < objectStart :: nextObjectStart[i] == Next(bytes, i, limit)
    {
      SaturatedComparison(bytes, cap, objectStart, objectStart + 1);
      if objectEnd == objectStart {
        if bytes[objectStart] > cap {
          NextOfOversized(bytes, objectStart, limit);
          nextObjectStart[objectStart] := objectStart + 1;
          objectEnd := objectEnd + 1;
          continue;
        }
        objectBytes := bytes[objectStart];
        objectEnd := objectEnd + 1;
      }
      objectEnd, objectBytes := ExtendObject(bytes, cap, objectStart, objectEnd, objectBytes);
      nextObjectStart[objectStart] := objectEnd;
      objectBytes := SatSub(objectBytes, bytes[objectStart]);
    }
    starts := nextObjectStart[..];
  }

  lemma NextOfOversized(bytes: seq<nat>, i: nat, limit: nat)
    requires i < |bytes| && RangeSum(bytes, i, i + 1) > limit
    ensures Next(bytes, i, limit) == i + 1
  {
  }

  /** Entry `i` is the greedy count of the suffix from `i`. */
  predicate IsSuffixTable(counts: seq<u64>, bytes: seq<nat>, limit: nat) {
    |counts| == |bytes| + 1 && forall i {:trigger counts[i]} | 0 <= i <= |bytes| :: counts[i] == GreedyCount(bytes, i, limit)
  }

  /** The backward pass over the object starts. */
  method CountObjects(bytes: seq<u64>, cap: u64, starts: seq<nat>) returns (counts: seq<u64>)
    requires |bytes| <= U64_MAX && |starts| == |bytes|
    requires forall i | 0 <= i < |bytes| :: starts[i] == Next(bytes, i, Limit(bytes, cap))
    ensures IsSuffixTable(counts, bytes, Limit(bytes, cap))
  {
    ghost var limit := Limit(bytes, cap);
    var table := new u64[|bytes| + 1](_ => 0);
    for objectStart := |bytes| downto 0
      invariant forall i {:trigger table[i]} | objectStart <= i <= |bytes| :: table[i] == GreedyCount(bytes, i, limit)
    {
      table[objectStart] := SatAdd(table[starts[objectStart]], 1);
    }
    counts := table[..];
  }

  /** Every entry is the true optimum for its suffix. */
  method MinimumSuffixObjectCounts(bytes: seq<u64>, cap: u64) returns (counts: seq<u64>)
    requires |bytes| <= U64_MAX
    ensures IsSuffixTable(counts, bytes, Limit(bytes, cap))
    ensures forall i | 0 <= i <= |bytes| :: IsMinimum(bytes, i, Limit(bytes, cap), counts[i])
  {
    var starts := NextObjectStarts(bytes, cap);
    counts := CountObjects(bytes, cap, starts);
    forall i | 0 <= i <= |bytes|
      ensures IsMinimum(bytes, i, Limit(bytes, cap), counts[i])
    {
      GreedyIsMinimum(bytes, i, Limit(bytes, cap));
    }
  }

  // ---------------------------------------------------------------------------------------------
  // The balancing packer
  // ---------------------------------------------------------------------------------------------

  datatype TargetFillGroup<T> = TargetFillGroup(first: T, remaining: seq<T>)

  function Bytes<T>(partitions: seq<(u64, T)>): (bytes: seq<u64>)
    ensures |bytes| == |partitions|
    ensures forall i | 0 <= i < |bytes| :: bytes[i] == partitions[i].0
  {
    seq(|partitions|, i requires 0 <= i < |partitions| => partitions[i].0)
  }

  function Items<T>(partitions: seq<(u64, T)>): (items: seq<T>)
    ensures |items| == |partitions|
    ensures forall i | 0 <= i < |items| :: items[i] == partitions[i].1
  {
    seq(|partitions|, i requires 0 <= i < |partitions| => partitions[i].1)
  }

  /** The members of all groups, in order. */
  function Members<T>(groups: seq<TargetFillGroup<T>>): seq<T> {
    if groups == [] then
      []
    else
      Members(groups[..|groups| - 1]) + [groups[|groups| - 1].first] + groups[|groups| - 1].remaining
  }

  /** The number of partitions in each group. */
  function Lens<T>(groups: seq<TargetFillGroup<T>>): (lens: seq<nat>)
    ensures |lens| == |groups|
  {
    if groups == [] then [] else Lens(groups[..|groups| - 1]) + [1 + |groups[|groups| - 1].remaining|]
  }

  function DivCeil(a: nat, b: nat): nat
    requires b > 0
  {
    (a + b - 1) / b
  }

  function AbsDiff(a: nat, b: nat): nat {
    if a >= b then a - b else b - a
  }

  /**
   Whether the packer ends the current object before the next partition. It must when the cap
   would be exceeded; otherwise it may only when the suffix still fits the objects left over.
   */
  predicate ClosesObject(currentBytes: u64, partitionBytes: u64, remainingBytes: u64, objectsLeft: u64,
                         suffixCount: u64, cap: u64)
    requires objectsLeft > 0
  {
    var candidateBytes := SatAdd(currentBytes, partitionBytes);
    if candidateBytes > cap then
      true
    else
      var targetBytes := DivCeil(SatAdd(currentBytes, remainingBytes), objectsLeft);
      && suffixCount <= SatSub(objectsLeft, 1)
      && AbsDiff(currentBytes, targetBytes) < AbsDiff(candidateBytes, targetBytes)
  }

  // ---------------------------------------------------------------------------------------------
  // Where the packer ends an object
  // ---------------------------------------------------------------------------------------------

  /** The partitions from `j` on can be packed into at most `k` objects. */
  ghost predicate RestFits(bytes: seq<nat>, j: nat, k: int, limit: nat)
    requires j <= |bytes|
  {
    exists lens :: Packs(lens, bytes, j, |bytes|, limit) && |lens| <= k
  }

  function Distance(a: int, b: int): int {
    if a <= b then b - a else a - b
  }

  /** The least whole number of bytes of which `m` shares hold everything from `s` on. */
  predicate IsEqualShare(bytes: seq<nat>, s: nat, m: nat, share: nat)
    requires s <= |bytes|
  {
    (share - 1) * m < RangeSum(bytes, s, |bytes|) <= share * m
  }

  /**
   An object that starts at `s`, with `m` objects left for everything from there on, must end before
   partition `j`, or should: the rest still fits and another partition would take it further from an
   equal share.
   */
  ghost predicate EndsBefore(bytes: seq<nat>, s: nat, j: nat, m: nat, cap: nat)
    requires s < j < |bytes|
  {
    || RangeSum(bytes, s, j + 1) > cap
    || (&& RestFits(bytes, j, m - 1, cap)
        && exists share: nat :: IsEqualShare(bytes, s, m, share)
             && Distance(RangeSum(bytes, s, j), share) < Distance(RangeSum(bytes, s, j + 1), share))
  }

  /** How many partitions these objects hold. */
  function Count(lens: seq<nat>): nat {
    if lens == [] then 0 else Count(lens[..|lens| - 1]) + lens[|lens| - 1]
  }

  /** The object `[s, e)` ends at the first place where it must or should. */
  ghost predicate EndsRightly(bytes: seq<nat>, s: nat, e: nat, m: nat, cap: nat) {
    && s < e <= |bytes|
    && (forall j | s < j < e :: !EndsBefore(bytes, s, j, m, cap))
    && (e < |bytes| ==> EndsBefore(bytes, s, e, m, cap))
  }

  /** Every object ends at the first place where it must or should, given how many objects there are in all. */
  ghost predicate Balanced(lens: seq<nat>, bytes: seq<nat>, total: nat, cap: nat)
    decreases |lens|
  {
    lens == [] ||
    (var before := lens[..|lens| - 1];
     && |lens| <= total && Balanced(before, bytes, total, cap)
     && EndsRightly(bytes, Count(before), Count(lens), total - |before|, cap))
  }

  lemma {:induction false} BalancedMore(lens: seq<nat>, bytes: seq<nat>, total: nat, cap: nat, start: nat, end: nat)
    requires Balanced(lens, bytes, total, cap) && |lens| < total && start == Count(lens) && start <= end
    requires EndsRightly(bytes, start, end, total - |lens|, cap)
    ensures Balanced(lens + [end - start], bytes, total, cap) && Count(lens + [end - start]) == end
  {
    var more := lens + [end - start];
    assert more[..|more| - 1] == lens;
  }

  lemma EqualShareIs(bytes: seq<nat>, s: nat, m: nat, share: nat)
    requires s <= |bytes| && m > 0
    ensures IsEqualShare(bytes, s, m, share) <==> share == DivCeil(RangeSum(bytes, s, |bytes|), m)
  {
    var sum := RangeSum(bytes, s, |bytes|);
    var t := DivCeil(sum, m);
    DivCeilBounds(sum, m);
    if share < t {
      MulMonotone(share, t - 1, m);
    } else if share > t {
      MulMonotone(t, share - 1, m);
    }
  }

  lemma DivCeilBounds(a: nat, b: nat)
    requires b > 0
    ensures (DivCeil(a, b) - 1) * b < a <= DivCeil(a, b) * b
  {
    var q := (a + b - 1) / b;
    assert a + b - 1 == q * b + (a + b - 1) % b;
    assert (q - 1) * b == q * b - b;
  }

  lemma MulMonotone(a: int, b: int, m: nat)
    requires a <= b
    ensures a * m <= b * m
  {
  }

  /** With exact sums the packer's test is exactly that. */
  lemma ClosingMeans(bytes: seq<u64>, start: nat, index: nat, objectsLeft: u64, cap: u64)
    requires start < index < |bytes| && 0 < objectsLeft && RangeSum(bytes, 0, |bytes|) <= U64_MAX
    requires GreedyCount(bytes, index, cap) <= U64_MAX
    ensures RangeSum(bytes, start, index) <= U64_MAX && RangeSum(bytes, index, |bytes|) <= U64_MAX
    ensures ClosesObject(RangeSum(bytes, start, index), bytes[index], RangeSum(bytes, index, |bytes|), objectsLeft,
                         GreedyCount(bytes, index, cap), cap)
       <==> EndsBefore(bytes, start, index, objectsLeft, cap)
  {
    RangeSumSplit(bytes, 0, start, |bytes|);
    RangeSumSplit(bytes, start, index, |bytes|);
    RangeSumSplit(bytes, index, index + 1, |bytes|);
    RangeSumSplit(bytes, start, index, index + 1);
    GreedyIsMinimum(bytes, index, cap);
    var share := DivCeil(RangeSum(bytes, start, |bytes|), objectsLeft);
    EqualShareIs(bytes, start, objectsLeft, share);
    forall other: nat
      ensures IsEqualShare(bytes, start, objectsLeft, other) ==> other == share
    {
      EqualShareIs(bytes, start, objectsLeft, other);
    }
  }

  /** The objects closed so far and the open one are a split of the first `index` partitions. */
  ghost predicate Filled<T>(groups: seq<TargetFillGroup<T>>, current: TargetFillGroup<T>, bytes: seq<nat>, items: seq<T>,
                            start: nat, index: nat, limit: nat)
    requires start < index <= |bytes| == |items|
  {
    && Members(groups) + [current.first] + current.remaining == items[..index]
    && 1 + |current.remaining| == index - start
    && Packs(Lens(groups), bytes, 0, start, limit)
    && Fits(bytes, start, index, limit)
  }

  lemma CloseObject<T>(groups: seq<TargetFillGroup<T>>, current: TargetFillGroup<T>, bytes: seq<nat>, items: seq<T>,
                       start: nat, index: nat, limit: nat)
    requires start < index <= |bytes| == |items| && Filled(groups, current, bytes, items, start, index, limit)
    ensures Members(groups + [current]) == items[..index]
    ensures Packs(Lens(groups + [current]), bytes, 0, index, limit)
    ensures index < |items| ==>
              Filled(groups + [current], TargetFillGroup(items[index], []), bytes, items, index, index + 1, limit)
  {
    var closed := groups + [current];
    assert closed[..|closed| - 1] == groups;
    PacksSnoc(Lens(groups), bytes, 0, start, index, limit);
    if index < |items| {
      assert items[..index + 1] == items[..index] + [items[index]];
    }
  }

  lemma ExtendGroup<T>(groups: seq<TargetFillGroup<T>>, current: TargetFillGroup<T>, bytes: seq<nat>, items: seq<T>,
                       start: nat, index: nat, limit: nat)
    requires start < index < |bytes| == |items| && Filled(groups, current, bytes, items, start, index, limit)
    requires RangeSum(bytes, start, index + 1) <= limit
    ensures Filled(groups, current.(remaining := current.remaining + [items[index]]), bytes, items,
                   start, index + 1, limit)
  {
  }

  /** The loop's state before partition `index`: the open object's bytes, and enough objects for the rest. */
  ghost predicate Filling<T>(groups: seq<TargetFillGroup<T>>, current: TargetFillGroup<T>, bytes: seq<nat>, items: seq<T>,
                             start: nat, index: nat, limit: nat, currentBytes: u64, objectsLeft: u64, total: u64)
  {
    && start < index <= |bytes| == |items| && Filled(groups, current, bytes, items, start, index, limit)
    && currentBytes == Sat(RangeSum(bytes, start, index))
    && |groups| + objectsLeft == total && 0 < GreedyCount(bytes, start, limit) <= objectsLeft
  }

  lemma StartFilling<T>(bytes: seq<u64>, items: seq<T>, limit: nat, counts: seq<u64>)
    requires 0 < |bytes| == |items| && IsSuffixTable(counts, bytes, limit)
    ensures Filling([], TargetFillGroup(items[0], []), bytes, items, 0, 1, limit, bytes[0], counts[0], counts[0])
  {
  }

  lemma CloseStep<T>(groups: seq<TargetFillGroup<T>>, current: TargetFillGroup<T>, bytes: seq<u64>, items: seq<T>, cap: u64,
                     counts: seq<u64>, start: nat, index: nat, currentBytes: u64, remainingBytes: u64, objectsLeft: u64)
    requires index < |bytes| && IsSuffixTable(counts, bytes, Limit(bytes, cap))
    requires Filling(groups, current, bytes, items, start, index, Limit(bytes, cap), currentBytes, objectsLeft, counts[0])
    requires ClosesObject(currentBytes, bytes[index], remainingBytes, objectsLeft, counts[index], cap)
    ensures Filling(groups + [current], TargetFillGroup(items[index], []), bytes, items, index, index + 1,
                    Limit(bytes, cap), bytes[index], SatSub(objectsLeft, 1), counts[0])
  {
    NextPartition(bytes, cap, start, index);
    CloseObject(groups, current, bytes, items, start, index, Limit(bytes, cap));
  }

  lemma ExtendStep<T>(groups: seq<TargetFillGroup<T>>, current: TargetFillGroup<T>, bytes: seq<u64>, items: seq<T>, cap: u64,
                      counts: seq<u64>, start: nat, index: nat, currentBytes: u64, remainingBytes: u64, objectsLeft: u64)
    requires index < |bytes| && IsSuffixTable(counts, bytes, Limit(bytes, cap))
    requires Filling(groups, current, bytes, items, start, index, Limit(bytes, cap), currentBytes, objectsLeft, counts[0])
    requires !ClosesObject(currentBytes, bytes[index], remainingBytes, objectsLeft, counts[index], cap)
    ensures Filling(groups, current.(remaining := current.remaining + [items[index]]), bytes, items, start, index + 1,
                    Limit(bytes, cap), SatAdd(currentBytes, bytes[index]), objectsLeft, counts[0])
  {
    NextPartition(bytes, cap, start, index);
    ExtendGroup(groups, current, bytes, items, start, index, Limit(bytes, cap));
  }

  lemma FinishFilling<T>(groups: seq<TargetFillGroup<T>>, current: TargetFillGroup<T>, bytes: seq<nat>, items: seq<T>,
                         start: nat, limit: nat, currentBytes: u64, objectsLeft: u64, total: u64)
    requires Filling(groups, current, bytes, items, start, |bytes|, limit, currentBytes, objectsLeft, total)
    requires total == GreedyCount(bytes, 0, limit)
    ensures Members(groups + [current]) == items
    ensures Packs(Lens(groups + [current]), bytes, 0, |bytes|, limit)
    ensures |groups| + 1 == total
  {
    CloseObject(groups, current, bytes, items, start, |bytes|, limit);
    GreedyIsLowerBound(Lens(groups + [current]), bytes, 0, limit);
    assert items[..|bytes|] == items;
  }

  /** The closed objects end rightly, and the open one has not had to end yet. */
  ghost predicate Balancing<T>(groups: seq<TargetFillGroup<T>>, bytes: seq<nat>, start: nat, index: nat, remainingBytes: nat,
                               objectsLeft: nat, total: nat, cap: nat)
  {
    && start < index <= |bytes| && |groups| + objectsLeft == total
    && Balanced(Lens(groups), bytes, total, cap) && Count(Lens(groups)) == start
    && (forall j | start < j < index :: !EndsBefore(bytes, start, j, objectsLeft, cap))
    && remainingBytes == RangeSum(bytes, index, |bytes|)
  }

  /** A fresh object after `lens`; nothing has been asked about it yet. */
  lemma {:induction false} BalanceStarts<T>(groups: seq<TargetFillGroup<T>>, bytes: seq<nat>, start: nat, remainingBytes: nat, objectsLeft: nat,
                         total: nat, cap: nat)
    requires start < |bytes| && |groups| + objectsLeft == total && Balanced(Lens(groups), bytes, total, cap)
    requires Count(Lens(groups)) == start && remainingBytes == RangeSum(bytes, start + 1, |bytes|)
    ensures Balancing(groups, bytes, start, start + 1, remainingBytes, objectsLeft, total, cap)
  {
  }

  lemma {:induction false} BalanceExtends<T>(groups: seq<TargetFillGroup<T>>, bytes: seq<nat>, start: nat, index: nat, remainingBytes: nat,
                          objectsLeft: nat, total: nat, cap: nat)
    requires Balancing(groups, bytes, start, index, remainingBytes, objectsLeft, total, cap) && index < |bytes|
    requires !EndsBefore(bytes, start, index, objectsLeft, cap)
    ensures Balancing(groups, bytes, start, index + 1, RangeSum(bytes, index + 1, |bytes|), objectsLeft, total, cap)
  {
  }

  lemma {:induction false} BalanceCloses<T>(groups: seq<TargetFillGroup<T>>, current: TargetFillGroup<T>, bytes: seq<nat>, start: nat, index: nat,
                         remainingBytes: nat, objectsLeft: nat, total: nat, cap: nat)
    requires Balancing(groups, bytes, start, index, remainingBytes, objectsLeft, total, cap) && objectsLeft > 0
    requires 1 + |current.remaining| == index - start && (index < |bytes| ==> EndsBefore(bytes, start, index, objectsLeft, cap))
    ensures Balanced(Lens(groups + [current]), bytes, total, cap)
    ensures Count(Lens(groups + [current])) == index
  {
    var closed := groups + [current];
    assert closed[..|closed| - 1] == groups;
    assert EndsRightly(bytes, start, index, objectsLeft, cap);
    BalancedMore(Lens(groups), bytes, total, cap, start, index);
  }

  /** The loop's test and remainders, with exact sums. */
  lemma {:induction false} TestIsExact<T>(groups: seq<TargetFillGroup<T>>, current: TargetFillGroup<T>, bytes: seq<u64>, items: seq<T>, cap: u64,
                       counts: seq<u64>, start: nat, index: nat, currentBytes: u64, remainingBytes: u64, objectsLeft: u64)
    requires index < |bytes| && IsSuffixTable(counts, bytes, Limit(bytes, cap)) && RangeSum(bytes, 0, |bytes|) <= U64_MAX
    requires Filling(groups, current, bytes, items, start, index, Limit(bytes, cap), currentBytes, objectsLeft, counts[0])
    requires remainingBytes == RangeSum(bytes, index, |bytes|)
    ensures ClosesObject(currentBytes, bytes[index], remainingBytes, objectsLeft, counts[index], cap)
       <==> EndsBefore(bytes, start, index, objectsLeft, cap)
    ensures SatSub(remainingBytes, bytes[index]) == RangeSum(bytes, index + 1, |bytes|) == remainingBytes - bytes[index]
  {
    assert counts[index] == GreedyCount(bytes, index, cap);
    ClosingMeans(bytes, start, index, objectsLeft, cap);
  }

  /** The loop's whole state before partition `index`. */
  ghost predicate Filler<T>(groups: seq<TargetFillGroup<T>>, current: TargetFillGroup<T>, bytes: seq<u64>, items: seq<T>, cap: u64,
                            start: nat, index: nat, currentBytes: u64, remainingBytes: u64, objectsLeft: u64, total: u64)
  {
    && Filling(groups, current, bytes, items, start, index, Limit(bytes, cap), currentBytes, objectsLeft, total)
    && (RangeSum(bytes, 0, |bytes|) <= U64_MAX ==> Balancing(groups, bytes, start, index, remainingBytes, objectsLeft, total, cap))
  }

  lemma {:induction false} FillerStarts<T>(bytes: seq<u64>, items: seq<T>, cap: u64, counts: seq<u64>, sum: u64)
    requires 0 < |bytes| == |items| && IsSuffixTable(counts, bytes, Limit(bytes, cap)) && sum == Sat(RangeSum(bytes, 0, |bytes|))
    ensures Filler([], TargetFillGroup(items[0], []), bytes, items, cap, 0, 1, bytes[0], SatSub(sum, bytes[0]), counts[0], counts[0])
  {
    StartFilling(bytes, items, Limit(bytes, cap), counts);
    if RangeSum(bytes, 0, |bytes|) <= U64_MAX {
      BalanceStarts<T>([], bytes, 0, sum - bytes[0], counts[0], counts[0], cap);
    }
  }

  lemma {:induction false} FillerCloses<T>(groups: seq<TargetFillGroup<T>>, current: TargetFillGroup<T>, bytes: seq<u64>, items: seq<T>, cap: u64,
                        counts: seq<u64>, start: nat, index: nat, currentBytes: u64, remainingBytes: u64, objectsLeft: u64)
    requires index < |bytes| && IsSuffixTable(counts, bytes, Limit(bytes, cap))
    requires Filler(groups, current, bytes, items, cap, start, index, currentBytes, remainingBytes, objectsLeft, counts[0])
    requires ClosesObject(currentBytes, bytes[index], remainingBytes, objectsLeft, counts[index], cap)
    ensures Filler(groups + [current], TargetFillGroup(items[index], []), bytes, items, cap, index, index + 1, bytes[index],
                   SatSub(remainingBytes, bytes[index]), SatSub(objectsLeft, 1), counts[0])
  {
    CloseStep(groups, current, bytes, items, cap, counts, start, index, currentBytes, remainingBytes, objectsLeft);
    if RangeSum(bytes, 0, |bytes|) <= U64_MAX {
      TestIsExact(groups, current, bytes, items, cap, counts, start, index, currentBytes, remainingBytes, objectsLeft);
      BalanceCloses(groups, current, bytes, start, index, remainingBytes, objectsLeft, counts[0], cap);
      BalanceStarts(groups + [current], bytes, index, remainingBytes - bytes[index], objectsLeft - 1, counts[0], cap);
    }
  }

  lemma {:induction false} FillerExtends<T>(groups: seq<TargetFillGroup<T>>, current: TargetFillGroup<T>, bytes: seq<u64>, items: seq<T>, cap: u64,
                         counts: seq<u64>, start: nat, index: nat, currentBytes: u64, remainingBytes: u64, objectsLeft: u64)
    requires index < |bytes| && IsSuffixTable(counts, bytes, Limit(bytes, cap))
    requires Filler(groups, current, bytes, items, cap, start, index, currentBytes, remainingBytes, objectsLeft, counts[0])
    requires !ClosesObject(currentBytes, bytes[index], remainingBytes, objectsLeft, counts[index], cap)
    ensures Filler(groups, current.(remaining := current.remaining + [items[index]]), bytes, items, cap, start, index + 1,
                   SatAdd(currentBytes, bytes[index]), SatSub(remainingBytes, bytes[index]), objectsLeft, counts[0])
  {
    ExtendStep(groups, current, bytes, items, cap, counts, start, index, currentBytes, remainingBytes, objectsLeft);
    if RangeSum(bytes, 0, |bytes|) <= U64_MAX {
      TestIsExact(groups, current, bytes, items, cap, counts, start, index, currentBytes, remainingBytes, objectsLeft);
      BalanceExtends(groups, bytes, start, index, remainingBytes, objectsLeft, counts[0], cap);
    }
  }

  lemma {:induction false} FillerEnds<T>(groups: seq<TargetFillGroup<T>>, current: TargetFillGroup<T>, bytes: seq<u64>, items: seq<T>, cap: u64,
                      start: nat, currentBytes: u64, remainingBytes: u64, objectsLeft: u64, total: u64)
    requires Filler(groups, current, bytes, items, cap, start, |bytes|, currentBytes, remainingBytes, objectsLeft, total)
    requires total == GreedyCount(bytes, 0, Limit(bytes, cap))
    ensures Members(groups + [current]) == items
    ensures Packs(Lens(groups + [current]), bytes, 0, |bytes|, Limit(bytes, cap))
    ensures |groups| + 1 == total
    ensures RangeSum(bytes, 0, |bytes|) <= U64_MAX ==> Balanced(Lens(groups + [current]), bytes, total, cap)
  {
    FinishFilling(groups, current, bytes, items, start, Limit(bytes, cap), currentBytes, objectsLeft, total);
    if RangeSum(bytes, 0, |bytes|) <= U64_MAX {
      BalanceCloses(groups, current, bytes, start, |bytes|, remainingBytes, objectsLeft, total, cap);
    }
  }

  /**
   The packing loop, given the suffix table: it emits as many objects as the table's first entry, and each
   ends at the first place where it must or should.
   */
  method FillObjects<T>(bytes: seq<u64>, items: seq<T>, cap: u64, counts: seq<u64>)
    returns (groups: seq<TargetFillGroup<T>>)
    requires 0 < |bytes| == |items| && IsSuffixTable(counts, bytes, Limit(bytes, cap))
    ensures Members(groups) == items
    ensures Packs(Lens(groups), bytes, 0, |bytes|, Limit(bytes, cap))
    ensures |groups| == counts[0]
    ensures RangeSum(bytes, 0, |bytes|) <= U64_MAX ==> Balanced(Lens(groups), bytes, |groups|, cap)
  {
    var remainingBytes := SaturatedTotal(bytes);
    FillerStarts(bytes, items, cap, counts, remainingBytes);
    var objectsLeft := counts[0];
    var currentBytes := bytes[0];
    var current := TargetFillGroup(items[0], []);
    ghost var start: nat := 0;
    remainingBytes := SatSub(remainingBytes, bytes[0]);
    groups := [];
    for index := 1 to |bytes|
      invariant Filler(groups, current, bytes, items, cap, start, index, currentBytes, remainingBytes, objectsLeft, counts[0])
    {
      if ClosesObject(currentBytes, bytes[index], remainingBytes, objectsLeft, counts[index], cap) {
        FillerCloses(groups, current, bytes, items, cap, counts, start, index, currentBytes, remainingBytes, objectsLeft);
        groups := groups + [current];
        objectsLeft := SatSub(objectsLeft, 1);
        currentBytes := bytes[index];
        current := TargetFillGroup(items[index], []);
        start := index;
      } else {
        FillerExtends(groups, current, bytes, items, cap, counts, start, index, currentBytes, remainingBytes, objectsLeft);
        currentBytes := SatAdd(currentBytes, bytes[index]);
        current := current.(remaining := current.remaining + [items[index]]);
      }
      remainingBytes := SatSub(remainingBytes, bytes[index]);
    }
    FillerEnds(groups, current, bytes, items, cap, start, currentBytes, remainingBytes, objectsLeft, counts[0]);
    groups := groups + [current];
  }

  /**
   Early closes chase an equal share of the remaining bytes, yet the emitted split always has the
   minimum number of objects, keeps the scheduler order, and loses nothing.
   */
  method TargetFillObjectGroups<T>(partitions: seq<(u64, T)>, cap: u64) returns (groups: seq<TargetFillGroup<T>>)
    requires |partitions| <= U64_MAX
    ensures Members(groups) == Items(partitions)
    ensures Packs(Lens(groups), Bytes(partitions), 0, |partitions|, Limit(Bytes(partitions), cap))
    ensures IsMinimum(Bytes(partitions), 0, Limit(Bytes(partitions), cap), |groups|)
    ensures Packs(Lens(groups), Bytes(partitions), 0, |partitions|, cap) <==> CapIsEnforced(Bytes(partitions), cap)
    ensures RangeSum(Bytes(partitions), 0, |partitions|) <= U64_MAX ==>
              Balanced(Lens(groups), Bytes(partitions), |groups|, cap)
  {
    var bytes := Bytes(partitions);
    GreedyIsMinimum(bytes, 0, Limit(bytes, cap));
    if partitions == [] {
      return [];
    }
    var counts := MinimumSuffixObjectCounts(bytes, cap);
    groups := FillObjects(bytes, Items(partitions), cap, counts);
    OptimalSplitRespectsCap(bytes, cap, Lens(groups));
  }

  /** What adding the partition at `index` to the open object `[start, index)` means for the limit. */
  lemma NextPartition(bytes: seq<u64>, cap: u64, start: nat, index: nat)
    requires start < index < |bytes|
    requires Fits(bytes, start, index, Limit(bytes, cap))
    ensures Sat(RangeSum(bytes, index, index + 1)) == bytes[index]
    ensures SatAdd(Sat(RangeSum(bytes, start, index)), bytes[index]) == Sat(RangeSum(bytes, start, index + 1))
    ensures Sat(RangeSum(bytes, start, index + 1)) <= cap ==> RangeSum(bytes, start, index + 1) <= Limit(bytes, cap)
    ensures Sat(RangeSum(bytes, start, index + 1)) > cap ==> Next(bytes, start, Limit(bytes, cap)) == index
  {
    RangeSumSplit(bytes, start, index, index + 1);
    SaturatedComparison(bytes, cap, start, index + 1);
    if Sat(RangeSum(bytes, start, index + 1)) > cap {
      NextStopsAt(bytes, start, index, Limit(bytes, cap));
    }
  }

  lemma NextStopsAt(bytes: seq<nat>, i: nat, j: nat, limit: nat)
    requires i < j < |bytes|
    requires Fits(bytes, i, j, limit) && RangeSum(bytes, i, j + 1) > limit
    ensures Next(bytes, i, limit) == j
  {
    NextIsFarthest(bytes, i, i, j, limit);
    var end := Next(bytes, i, limit);
    if j < end {
      RangeSumSplit(bytes, i, j + 1, end);
    }
  }

  method SaturatedTotal(bytes: seq<u64>) returns (total: u64)
    ensures total == Sat(RangeSum(bytes, 0, |bytes|))
  {
    total := 0;
    for i := 0 to |bytes|
      invariant total == Sat(RangeSum(bytes, 0, i))
    {
      RangeSumSplit(bytes, 0, i, i + 1);
      total := SatAdd(total, bytes[i]);
    }
  }

  // ---------------------------------------------------------------------------------------------
  // When the configured cap itself is respected
  // ---------------------------------------------------------------------------------------------

  /** Saturation is invisible: the cap is below `u64::MAX`, or no sum of several partitions exceeds it. */
  predicate CapIsEnforced(bytes: seq<nat>, cap: u64) {
    cap < U64_MAX || RangeSum(bytes, 0, |bytes|) <= U64_MAX || |bytes| <= 1
  }

  /**
   An optimal split for the limit that saturated sums enforce respects the configured cap exactly
   when saturation is invisible.
   */
  lemma OptimalSplitRespectsCap(bytes: seq<u64>, cap: u64, lens: seq<nat>)
    requires Packs(lens, bytes, 0, |bytes|, Limit(bytes, cap))
    requires IsMinimum(bytes, 0, Limit(bytes, cap), |lens|)
    ensures Packs(lens, bytes, 0, |bytes|, cap) <==> CapIsEnforced(bytes, cap)
  {
    var total := RangeSum(bytes, 0, |bytes|);
    if cap < U64_MAX || total <= U64_MAX {
    } else {
      var whole := [|bytes|];
      assert whole[1..] == [];
      assert Packs(whole, bytes, 0, |bytes|, Limit(bytes, cap));
      assert |lens| <= 1;
      if lens != [] {
        assert lens[1..] == [];
        assert lens[0] == |bytes|;
      }
    }
  }
}
