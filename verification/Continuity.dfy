/**
 The inspector's one-pass continuity scan from a suspect cursor, and what its gaps are on rows in
 sequence order.
 */
module Continuity {
  import opened Numeric
  import opened LeaseStore

  datatype Issue =
    | Gap(start: u64, end: u64)
    | Overlap(start: u64, end: u64)
    | OutOfOrder(sequenceStart: u64, sequenceEnd: u64, expectedAtLeast: u64)

  predicate Covers(row: SeqRange, n: nat) {
    row.start <= n <= row.end
  }

  predicate InGap(issues: seq<Issue>, n: nat) {
    exists i | 0 <= i < |issues| :: issues[i].Gap? && issues[i].start <= n <= issues[i].end
  }

  /** A number above the cursor, no higher than some row's end, that no row covers. */
  predicate IsMissing(cursor: u64, rows: seq<SeqRange>, n: nat) {
    && cursor < n
    && (exists i | 0 <= i < |rows| :: n <= rows[i].end)
    && (forall i | 0 <= i < |rows| :: !Covers(rows[i], n))
  }

  predicate InSequenceOrder(rows: seq<SeqRange>) {
    && (forall i | 0 <= i < |rows| :: rows[i].start <= rows[i].end)
    && (forall i, j | 0 <= i < j < |rows| :: rows[i].start <= rows[j].start)
  }

  /** `expected` is just past the cursor or the highest end seen; `highest` opened that range. */
  predicate Tracks(cursor: u64, rows: seq<SeqRange>, expected: u64, highest: u64) {
    && SatAdd(cursor, 1) <= expected
    && (forall i | 0 <= i < |rows| :: SatAdd(rows[i].end, 1) <= expected)
    && (|| (expected == highest == SatAdd(cursor, 1))
        || (exists i | 0 <= i < |rows| :: expected == SatAdd(rows[i].end, 1) && highest == rows[i].start))
  }

  predicate InOverlap(issues: seq<Issue>, n: nat) {
    exists i | 0 <= i < |issues| :: issues[i].Overlap? && issues[i].start <= n <= issues[i].end
  }

  /** Two rows cover the number. */
  predicate IsRepeated(rows: seq<SeqRange>, n: nat) {
    exists i, j | 0 <= i < j < |rows| :: Covers(rows[i], n) && Covers(rows[j], n)
  }

  /** Gaps are the missing numbers, overlaps the repeated ones above the cursor, and nothing is out of order. */
  ghost predicate Exact(cursor: u64, rows: seq<SeqRange>, issues: seq<Issue>) {
    && (forall n: nat :: InGap(issues, n) <==> IsMissing(cursor, rows, n))
    && (forall n: nat | n < U64_MAX && InOverlap(issues, n) :: IsRepeated(rows, n))
    && (forall n: nat | cursor < n < U64_MAX && IsRepeated(rows, n) :: InOverlap(issues, n))
    && (forall i | 0 <= i < |issues| :: !issues[i].OutOfOrder?)
  }

  /** An earlier row starts after this one and ends no earlier. */
  predicate IsLate(rows: seq<SeqRange>, i: nat)
    requires i < |rows|
  {
    exists j | 0 <= j < i :: rows[i].start < rows[j].start && rows[i].end <= rows[j].end
  }

  /** The row, above the cursor, starts before every earlier one and ends before some earlier one. */
  predicate IsBehind(cursor: u64, rows: seq<SeqRange>, i: nat)
    requires i < |rows|
  {
    && cursor < rows[i].end
    && (forall j | 0 <= j < i :: rows[i].start < rows[j].start)
    && (exists j | 0 <= j < i :: rows[i].end < rows[j].end)
  }

  predicate Reports(issues: seq<Issue>, row: SeqRange) {
    exists k | 0 <= k < |issues| ::
      issues[k].OutOfOrder? && issues[k].sequenceStart == row.start && issues[k].sequenceEnd == row.end
  }

  /** The issue names a late row. */
  predicate IsJustified(rows: seq<SeqRange>, issue: Issue)
    requires issue.OutOfOrder?
  {
    exists i | 0 <= i < |rows| :: rows[i].start == issue.sequenceStart && rows[i].end == issue.sequenceEnd && IsLate(rows, i)
  }

  predicate AllJustified(rows: seq<SeqRange>, issues: seq<Issue>) {
    forall k | 0 <= k < |issues| && issues[k].OutOfOrder? :: IsJustified(rows, issues[k])
  }

  predicate AllReported(cursor: u64, rows: seq<SeqRange>, issues: seq<Issue>) {
    forall i | 0 <= i < |rows| && IsBehind(cursor, rows, i) :: Reports(issues, rows[i])
  }

  /** On any rows: what is reported out of order is late, and every row that is behind all others is reported. */
  predicate OrderReported(cursor: u64, rows: seq<SeqRange>, issues: seq<Issue>) {
    AllJustified(rows, issues) && AllReported(cursor, rows, issues)
  }

  /** On rows in sequence order the issues are exact; on any rows out-of-order reports are justified. */
  method ContinuityIssues(cursor: u64, rows: seq<SeqRange>) returns (issues: seq<Issue>)
    ensures InSequenceOrder(rows) ==> Exact(cursor, rows, issues)
    ensures OrderReported(cursor, rows, issues)
  {
    var expected := SatAdd(cursor, 1);
    var highest := expected;
    issues := [];
    ScanStarts(cursor, rows);
    for i := 0 to |rows|
      invariant Scanned(cursor, rows, i, expected, highest, issues)
    {
      var row := rows[i];
      ghost var before := issues;
      if row.end < expected {
        if row.end > cursor {
          if row.start >= highest {
            issues := issues + [Overlap(row.start, row.end)];
          } else {
            issues := issues + [OutOfOrder(row.start, row.end, expected)];
          }
        }
        ScanPasses(cursor, rows, i, expected, highest, before, issues);
        continue;
      }
      if row.start > expected {
        issues := issues + [Gap(expected, row.start - 1)];
      } else {
        var overlapStart := if row.start < SatAdd(cursor, 1) then SatAdd(cursor, 1) else row.start;
        if overlapStart < expected {
          issues := issues + [Overlap(overlapStart, expected - 1)];
        }
      }
      ScanExtends(cursor, rows, i, expected, highest, before, issues);
      if SatAdd(row.end, 1) > expected {
        expected := SatAdd(row.end, 1);
        highest := row.start;
      }
    }
    ScanEnds(cursor, rows, expected, highest, issues);
  }

  /** The scan before row `i`. */
  ghost predicate Scanned(cursor: u64, rows: seq<SeqRange>, i: nat, expected: u64, highest: u64, issues: seq<Issue>) {
    && i <= |rows| && Tracks(cursor, rows[..i], expected, highest)
    && (InSequenceOrder(rows) ==> Exact(cursor, rows[..i], issues))
    && OrderReported(cursor, rows[..i], issues)
  }

  lemma ScanStarts(cursor: u64, rows: seq<SeqRange>)
    ensures Scanned(cursor, rows, 0, SatAdd(cursor, 1), SatAdd(cursor, 1), [])
  {
  }

  lemma ScanEnds(cursor: u64, rows: seq<SeqRange>, expected: u64, highest: u64, issues: seq<Issue>)
    requires Scanned(cursor, rows, |rows|, expected, highest, issues)
    ensures InSequenceOrder(rows) ==> Exact(cursor, rows, issues)
    ensures OrderReported(cursor, rows, issues)
  {
    assert rows[..|rows|] == rows;
  }

  lemma ScanPasses(cursor: u64, rows: seq<SeqRange>, i: nat, expected: u64, highest: u64, before: seq<Issue>, issues: seq<Issue>)
    requires i < |rows| && Scanned(cursor, rows, i, expected, highest, before) && rows[i].end < expected
    requires rows[i].end <= cursor ==> issues == before
    requires rows[i].end > cursor && rows[i].start >= highest ==> issues == before + [Overlap(rows[i].start, rows[i].end)]
    requires rows[i].end > cursor && rows[i].start < highest ==> issues == before + [OutOfOrder(rows[i].start, rows[i].end, expected)]
    ensures Scanned(cursor, rows, i + 1, expected, highest, issues)
  {
    TracksMore(cursor, rows, i, expected, highest);
    if InSequenceOrder(rows) {
      Passed(cursor, rows, i, expected, highest, before, issues);
    }
    OrderPassed(cursor, rows, i, expected, highest, before, issues);
  }

  lemma ScanExtends(cursor: u64, rows: seq<SeqRange>, i: nat, expected: u64, highest: u64, before: seq<Issue>, issues: seq<Issue>)
    requires i < |rows| && Scanned(cursor, rows, i, expected, highest, before) && rows[i].end >= expected
    requires rows[i].start > expected ==> issues == before + [Gap(expected, rows[i].start - 1)]
    requires rows[i].start <= expected ==>
               var from := if rows[i].start < SatAdd(cursor, 1) then SatAdd(cursor, 1) else rows[i].start;
               issues == if from < expected then before + [Overlap(from, expected - 1)] else before
    ensures var end := SatAdd(rows[i].end, 1);
            Scanned(cursor, rows, i + 1, if end > expected then end else expected, if end > expected then rows[i].start else highest, issues)
  {
    TracksMore(cursor, rows, i, expected, highest);
    if InSequenceOrder(rows) {
      Extended(cursor, rows, i, expected, highest, before, issues);
    }
    OrderExtended(cursor, rows, i, expected, highest, before, issues);
  }

  lemma JustifiedLasts(rows: seq<SeqRange>, i: nat, issue: Issue)
    requires i < |rows| && issue.OutOfOrder? && IsJustified(rows[..i], issue)
    ensures IsJustified(rows[..i + 1], issue)
  {
    var before, upTo := rows[..i], rows[..i + 1];
    var m :| 0 <= m < |before| && before[m].start == issue.sequenceStart && before[m].end == issue.sequenceEnd && IsLate(before, m);
    var j :| 0 <= j < m && before[m].start < before[j].start && before[m].end <= before[j].end;
    assert upTo[m] == before[m] && upTo[j] == before[j];
    assert IsLate(upTo, m);
  }

  lemma JustifiedMore(rows: seq<SeqRange>, i: nat, before: seq<Issue>, issue: Issue)
    requires i < |rows| && AllJustified(rows[..i], before)
    requires issue.OutOfOrder? ==> IsJustified(rows[..i + 1], issue)
    ensures AllJustified(rows[..i + 1], before) && AllJustified(rows[..i + 1], before + [issue])
  {
    forall k | 0 <= k < |before| && before[k].OutOfOrder?
      ensures IsJustified(rows[..i + 1], before[k])
    {
      JustifiedLasts(rows, i, before[k]);
    }
  }

  lemma ReportedMore(cursor: u64, rows: seq<SeqRange>, i: nat, before: seq<Issue>, issues: seq<Issue>)
    requires i < |rows| && AllReported(cursor, rows[..i], before) && before <= issues
    requires IsBehind(cursor, rows[..i + 1], i) ==> Reports(issues, rows[i])
    ensures AllReported(cursor, rows[..i + 1], issues)
  {
    forall m | 0 <= m < i && IsBehind(cursor, rows[..i + 1], m)
      ensures Reports(issues, rows[m])
    {
      SameBehind(cursor, rows, i, m);
      assert Reports(before, rows[..i][m]);
      var k :| 0 <= k < |before| && before[k].OutOfOrder? && before[k].sequenceStart == rows[m].start && before[k].sequenceEnd == rows[m].end;
      assert issues[k] == before[k];
    }
  }

  lemma SameBehind(cursor: u64, rows: seq<SeqRange>, i: nat, m: nat)
    requires m < i < |rows|
    ensures IsBehind(cursor, rows[..i + 1], m) ==> IsBehind(cursor, rows[..i], m)
  {
    if IsBehind(cursor, rows[..i + 1], m) {
      var j :| 0 <= j < m && rows[..i + 1][m].end < rows[..i + 1][j].end;
      assert rows[..i][m].end < rows[..i][j].end;
      forall j | 0 <= j < m
        ensures rows[..i][m].start < rows[..i][j].start
      {
        assert rows[..i + 1][m].start < rows[..i + 1][j].start;
      }
    }
  }

  lemma OrderPassed(cursor: u64, rows: seq<SeqRange>, i: nat, expected: u64, highest: u64, before: seq<Issue>, issues: seq<Issue>)
    requires i < |rows| && Tracks(cursor, rows[..i], expected, highest) && OrderReported(cursor, rows[..i], before)
    requires rows[i].end < expected
    requires rows[i].end <= cursor ==> issues == before
    requires rows[i].end > cursor && rows[i].start >= highest ==> issues == before + [Overlap(rows[i].start, rows[i].end)]
    requires rows[i].end > cursor && rows[i].start < highest ==> issues == before + [OutOfOrder(rows[i].start, rows[i].end, expected)]
    ensures OrderReported(cursor, rows[..i + 1], issues)
  {
    if rows[i].end > cursor && rows[i].start < highest {
      var late := OutOfOrder(rows[i].start, rows[i].end, expected);
      NewIsJustified(cursor, rows, i, expected, highest);
      JustifiedMore(rows, i, before, late);
      assert issues[|before|] == late;
    } else {
      NotBehindAll(cursor, rows, i, expected, highest);
      JustifiedMore(rows, i, before, Overlap(rows[i].start, rows[i].end));
    }
    ReportedMore(cursor, rows, i, before, issues);
  }

  /** A row that starts before the range that set the expected number, and ends before it, is late. */
  lemma NewIsJustified(cursor: u64, rows: seq<SeqRange>, i: nat, expected: u64, highest: u64)
    requires i < |rows| && Tracks(cursor, rows[..i], expected, highest)
    requires cursor < rows[i].end < expected && rows[i].start < highest
    ensures IsJustified(rows[..i + 1], OutOfOrder(rows[i].start, rows[i].end, expected))
  {
    var upTo := rows[..i + 1];
    var j :| 0 <= j < i && expected == SatAdd(rows[..i][j].end, 1) && highest == rows[..i][j].start;
    assert upTo[j] == rows[..i][j] && upTo[i] == rows[i];
    assert IsLate(upTo, i);
  }

  /** Any other row is not behind all before it. */
  lemma NotBehindAll(cursor: u64, rows: seq<SeqRange>, i: nat, expected: u64, highest: u64)
    requires i < |rows| && Tracks(cursor, rows[..i], expected, highest) && (rows[i].end <= cursor || rows[i].start >= highest)
    ensures !IsBehind(cursor, rows[..i + 1], i)
  {
    var upTo := rows[..i + 1];
    if (exists m | 0 <= m < i :: upTo[i].end < upTo[m].end) && cursor < rows[i].end {
      var m :| 0 <= m < i && upTo[i].end < upTo[m].end;
      assert SatAdd(rows[..i][m].end, 1) <= expected;
      var j :| 0 <= j < i && expected == SatAdd(rows[..i][j].end, 1) && highest == rows[..i][j].start;
      assert upTo[j] == rows[..i][j];
    }
  }

  lemma OrderExtended(cursor: u64, rows: seq<SeqRange>, i: nat, expected: u64, highest: u64, before: seq<Issue>, issues: seq<Issue>)
    requires i < |rows| && Tracks(cursor, rows[..i], expected, highest) && OrderReported(cursor, rows[..i], before)
    requires rows[i].end >= expected && (issues == before || (|issues| == |before| + 1 && before <= issues))
    requires |issues| > |before| ==> !issues[|before|].OutOfOrder?
    ensures OrderReported(cursor, rows[..i + 1], issues)
  {
    JustifiedMore(rows, i, before, if |issues| > |before| then issues[|before|] else Gap(0, 0));
    assert |issues| > |before| ==> issues == before + [issues[|before|]];
    HighestIsNotBehind(cursor, rows, i, expected, highest);
    ReportedMore(cursor, rows, i, before, issues);
  }

  /** A row that reaches the expected number ends before no earlier row. */
  lemma HighestIsNotBehind(cursor: u64, rows: seq<SeqRange>, i: nat, expected: u64, highest: u64)
    requires i < |rows| && Tracks(cursor, rows[..i], expected, highest) && rows[i].end >= expected
    ensures !IsBehind(cursor, rows[..i + 1], i)
  {
    var upTo := rows[..i + 1];
    forall j | 0 <= j < i
      ensures upTo[i].end >= upTo[j].end
    {
      assert SatAdd(rows[..i][j].end, 1) <= expected;
    }
  }

  /** Issues that are not gaps do not change the gaps. */
  lemma SameGaps(issues: seq<Issue>, more: seq<Issue>)
    requires forall i | 0 <= i < |more| :: !more[i].Gap?
    ensures forall n: nat :: InGap(issues + more, n) <==> InGap(issues, n)
  {
    forall n: nat
      ensures InGap(issues + more, n) <==> InGap(issues, n)
    {
      if i :| 0 <= i < |issues| && issues[i].Gap? && issues[i].start <= n <= issues[i].end {
        assert (issues + more)[i] == issues[i];
      }
    }
  }

  lemma OneMoreGap(issues: seq<Issue>, gap: Issue)
    requires gap.Gap?
    ensures forall n: nat :: InGap(issues + [gap], n) <==> InGap(issues, n) || gap.start <= n <= gap.end
  {
    forall n: nat
      ensures InGap(issues + [gap], n) <==> InGap(issues, n) || gap.start <= n <= gap.end
    {
      if i :| 0 <= i < |issues| && issues[i].Gap? && issues[i].start <= n <= issues[i].end {
        assert (issues + [gap])[i] == issues[i];
      }
      if gap.start <= n <= gap.end {
        assert (issues + [gap])[|issues|] == gap;
      }
    }
  }

  /** Overlaps after one more issue. */
  lemma OneMoreIssue(issues: seq<Issue>, issue: Issue)
    ensures forall n: nat :: InOverlap(issues + [issue], n) <==>
              InOverlap(issues, n) || (issue.Overlap? && issue.start <= n <= issue.end)
  {
    var more := issues + [issue];
    forall n: nat
      ensures InOverlap(more, n) <==> InOverlap(issues, n) || (issue.Overlap? && issue.start <= n <= issue.end)
    {
      if i :| 0 <= i < |issues| && issues[i].Overlap? && issues[i].start <= n <= issues[i].end {
        assert more[i] == issues[i];
      }
      if issue.Overlap? && issue.start <= n <= issue.end {
        assert more[|issues|] == issue;
      }
    }
  }

  /** A row repeats what it covers below the expected number, if another row set that. */
  lemma CoveredAgain(cursor: u64, rows: seq<SeqRange>, i: nat, expected: u64, highest: u64, n: nat)
    requires i < |rows| && InSequenceOrder(rows) && Tracks(cursor, rows[..i], expected, highest) && n < U64_MAX
    requires n < expected && Covers(rows[i], n) && (cursor < n || SatAdd(cursor, 1) < expected)
    ensures IsRepeated(rows[..i + 1], n)
  {
    var upTo := rows[..i + 1];
    var k :| 0 <= k < i && expected == SatAdd(rows[..i][k].end, 1) && highest == rows[..i][k].start;
    assert upTo[i] == rows[i] && upTo[k] == rows[k] && rows[k].start <= rows[i].start;
    assert Covers(upTo[k], n) && Covers(upTo[i], n);
  }

  lemma RepeatedLasts(rows: seq<SeqRange>, i: nat, n: nat)
    requires i < |rows| && IsRepeated(rows[..i], n)
    ensures IsRepeated(rows[..i + 1], n)
  {
    var a, b :| 0 <= a < b < i && Covers(rows[..i][a], n) && Covers(rows[..i][b], n);
    assert Covers(rows[..i + 1][a], n) && Covers(rows[..i + 1][b], n);
  }

  lemma NewlyRepeated(cursor: u64, rows: seq<SeqRange>, i: nat, expected: u64, highest: u64, n: nat)
    requires i < |rows| && Tracks(cursor, rows[..i], expected, highest) && n < U64_MAX
    requires IsRepeated(rows[..i + 1], n) && !IsRepeated(rows[..i], n)
    ensures n < expected && Covers(rows[i], n)
  {
    var upTo := rows[..i + 1];
    var a, b :| 0 <= a < b < i + 1 && Covers(upTo[a], n) && Covers(upTo[b], n);
    if b == i {
      assert SatAdd(rows[..i][a].end, 1) <= expected;
    }
  }

  /** Which numbers one more row repeats. */
  lemma OneMoreRepeated(cursor: u64, rows: seq<SeqRange>, i: nat, expected: u64, highest: u64, n: nat)
    requires i < |rows| && InSequenceOrder(rows) && Tracks(cursor, rows[..i], expected, highest) && n < U64_MAX
    ensures IsRepeated(rows[..i], n) ==> IsRepeated(rows[..i + 1], n)
    ensures n < expected && Covers(rows[i], n) && (cursor < n || SatAdd(cursor, 1) < expected) ==> IsRepeated(rows[..i + 1], n)
    ensures IsRepeated(rows[..i + 1], n) ==> IsRepeated(rows[..i], n) || (n < expected && Covers(rows[i], n))
  {
    if IsRepeated(rows[..i], n) {
      RepeatedLasts(rows, i, n);
    } else if IsRepeated(rows[..i + 1], n) {
      NewlyRepeated(cursor, rows, i, expected, highest, n);
    } else if n < expected && Covers(rows[i], n) && (cursor < n || SatAdd(cursor, 1) < expected) {
      CoveredAgain(cursor, rows, i, expected, highest, n);
    }
  }

  /** Which numbers one more row makes missing: exactly those it jumps over. */
  lemma OneMoreRow(cursor: u64, rows: seq<SeqRange>, i: nat, expected: u64, highest: u64, n: nat)
    requires i < |rows| && InSequenceOrder(rows) && Tracks(cursor, rows[..i], expected, highest)
    ensures IsMissing(cursor, rows[..i + 1], n) <==> IsMissing(cursor, rows[..i], n) || (expected <= n < rows[i].start && cursor < n)
  {
  }

  lemma TracksMore(cursor: u64, rows: seq<SeqRange>, i: nat, expected: u64, highest: u64)
    requires i < |rows| && Tracks(cursor, rows[..i], expected, highest)
    ensures var end := SatAdd(rows[i].end, 1);
            Tracks(cursor, rows[..i + 1], if end > expected then end else expected, if end > expected then rows[i].start else highest)
  {
  }

  /** A row that ends before the expected number is never behind the range that set it. */
  lemma NotBehind(cursor: u64, rows: seq<SeqRange>, i: nat, expected: u64, highest: u64)
    requires i < |rows| && InSequenceOrder(rows) && Tracks(cursor, rows[..i], expected, highest)
    requires cursor < rows[i].end < expected
    ensures rows[i].start >= highest
  {
  }

  lemma Passed(cursor: u64, rows: seq<SeqRange>, i: nat, expected: u64, highest: u64, before: seq<Issue>, issues: seq<Issue>)
    requires i < |rows| && InSequenceOrder(rows) && Tracks(cursor, rows[..i], expected, highest)
    requires Exact(cursor, rows[..i], before) && rows[i].end < expected
    requires rows[i].end <= cursor ==> issues == before
    requires rows[i].end > cursor && rows[i].start >= highest ==> issues == before + [Overlap(rows[i].start, rows[i].end)]
    ensures Tracks(cursor, rows[..i + 1], expected, highest) && Exact(cursor, rows[..i + 1], issues)
  {
    TracksMore(cursor, rows, i, expected, highest);
    if rows[i].end > cursor {
      NotBehind(cursor, rows, i, expected, highest);
      SameGaps(before, [Overlap(rows[i].start, rows[i].end)]);
      OneMoreIssue(before, Overlap(rows[i].start, rows[i].end));
    }
    forall n: nat | n < U64_MAX
      ensures InOverlap(issues, n) ==> IsRepeated(rows[..i + 1], n)
      ensures cursor < n && IsRepeated(rows[..i + 1], n) ==> InOverlap(issues, n)
    {
      OneMoreRepeated(cursor, rows, i, expected, highest, n);
    }
    forall n: nat
      ensures InGap(issues, n) <==> IsMissing(cursor, rows[..i + 1], n)
    {
      OneMoreRow(cursor, rows, i, expected, highest, n);
    }
  }

  lemma Extended(cursor: u64, rows: seq<SeqRange>, i: nat, expected: u64, highest: u64, before: seq<Issue>, issues: seq<Issue>)
    requires i < |rows| && InSequenceOrder(rows) && Tracks(cursor, rows[..i], expected, highest)
    requires Exact(cursor, rows[..i], before) && rows[i].end >= expected
    requires rows[i].start > expected ==> issues == before + [Gap(expected, rows[i].start - 1)]
    requires rows[i].start <= expected ==>
               var from := if rows[i].start < SatAdd(cursor, 1) then SatAdd(cursor, 1) else rows[i].start;
               issues == if from < expected then before + [Overlap(from, expected - 1)] else before
    ensures var end := SatAdd(rows[i].end, 1);
            && Tracks(cursor, rows[..i + 1], if end > expected then end else expected, if end > expected then rows[i].start else highest)
            && Exact(cursor, rows[..i + 1], issues)
  {
    TracksMore(cursor, rows, i, expected, highest);
    if rows[i].start > expected {
      OneMoreGap(before, Gap(expected, rows[i].start - 1));
      OneMoreIssue(before, Gap(expected, rows[i].start - 1));
    } else {
      if |issues| > |before| {
        OneMoreIssue(before, issues[|before|]);
      }
      assert issues == before + issues[|before|..];
      SameGaps(before, issues[|before|..]);
    }
    forall n: nat | n < U64_MAX
      ensures InOverlap(issues, n) ==> IsRepeated(rows[..i + 1], n)
      ensures cursor < n && IsRepeated(rows[..i + 1], n) ==> InOverlap(issues, n)
    {
      OneMoreRepeated(cursor, rows, i, expected, highest, n);
    }
    forall n: nat
      ensures InGap(issues, n) <==> IsMissing(cursor, rows[..i + 1], n)
    {
      OneMoreRow(cursor, rows, i, expected, highest, n);
    }
  }
}
