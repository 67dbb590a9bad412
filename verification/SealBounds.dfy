/**
 What each seal, answer and retained prefix of the strong cache is, told on the fields: the greatest bound
 that its proofs allow, and exactly the rows below it.
 */
module SealBounds {
  import opened Numeric
  import opened SealedCache

  /** The greatest number not above either. */
  predicate IsLower(b: nat, x: nat, y: nat) {
    b <= x && b <= y && (b == x || b == y)
  }

  /** The greatest number not above any of the three. */
  predicate IsLowest(b: nat, x: nat, y: nat, z: nat) {
    b <= x && b <= y && b <= z && (b == x || b == y || b == z)
  }

  /** The larger of the reader's horizon and publication lag plus skew. */
  predicate IsHorizon(c: Config, spec: Spec, h: int) {
    h >= c.lag && h >= spec.requestedHorizon && (h == c.lag || h == spec.requestedHorizon)
  }

  /** `have` is no higher than `want`, and both or neither is a full scan. */
  predicate ReachesDown(have: Option<nat>, want: Option<nat>) {
    have.Some? == want.Some? && (have.Some? ==> have.value <= want.value)
  }

  predicate LiesAbove(bound: nat, floor: Option<nat>) {
    floor.None? || floor.value < bound
  }

  /** A load seals, if asked to, as far as was asked for and its start reading proves. */
  lemma LoadSealIs(c: Config, spec: Spec, rows: seq<Segment>, startedAt: int, observedAt: int, generation: nat, h: int)
    requires IsHorizon(c, spec, h)
    ensures var e := LoadedEntry(c, spec, rows, startedAt, observedAt, generation);
            && e.segments == rows && e.observedAt == observedAt && e.sealedAt == Some(startedAt) && e.generation == generation
            && (e.sealedBefore.Some? <==> spec.seal.Some?)
            && (spec.seal.Some? ==> IsLower(e.sealedBefore.value, spec.seal.value, c.minId(startedAt - h)))
  {
  }

  /**
   A waiter is answered from a load exactly when the load reached down to its floor. Its seal is the
   greatest bound that the load's seal, its own seal and its own horizon allow, if that lies above its floor.
   */
  lemma LoadAnswerIs(c: Config, spec: Spec, e: Entry, h: int)
    requires IsHorizon(c, spec, h)
    ensures AnswerOfLoad(c, spec, e).Some? <==> e.sealedAt.Some? && ReachesDown(e.floor, Floor(spec))
    ensures AnswerOfLoad(c, spec, e).Some? ==>
              var a := AnswerOfLoad(c, spec, e).value;
              && a.segments == e.segments && a.floor == e.floor && a.observedAt == e.observedAt && a.generation == e.generation
              && (spec.seal.None? ==> a == e)
              && (spec.seal.Some? ==>
                    var stored := if e.sealedBefore.Some? then e.sealedBefore.value else spec.seal.value;
                    forall bound: nat | IsLowest(bound, stored, spec.seal.value, c.minId(e.sealedAt.value - h)) ::
                      && (a.sealedBefore == if LiesAbove(bound, Floor(spec)) then Some(bound) else None)
                      && (a.sealedAt == if LiesAbove(bound, Floor(spec)) then e.sealedAt else None))
  {
  }

  /** A retained entry serves a sealing request as far as its seal, the request's seal and its horizon allow. */
  lemma ReuseBoundIs(c: Config, spec: Spec, e: Entry, h: int)
    requires IsHorizon(c, spec, h)
    ensures ReuseBound(c, spec, e).Some? ==>
              && spec.seal.Some? && e.sealedBefore.Some? && e.sealedAt.Some?
              && IsLowest(ReuseBound(c, spec, e).value, e.sealedBefore.value, spec.seal.value, c.minId(e.sealedAt.value - h))
    ensures ReuseBound(c, spec, e).Some? <==>
              && spec.seal.Some? && e.sealedBefore.Some? && e.sealedAt.Some? && ReachesDown(e.floor, Floor(spec))
              && (e.sealedHorizon.Some? ==> h <= e.sealedHorizon.value)
              && LiesAbove(spec.seal.value, Floor(spec)) && LiesAbove(e.sealedBefore.value, Floor(spec))
              && LiesAbove(c.minId(e.sealedAt.value - h), Floor(spec))
  {
  }

  /**
   A suffix scan promotes exactly when it starts no later than the prefix's seal, its readings follow the
   prefix's proof in order, and what it proves lies beyond that seal.
   */
  lemma PromotionIs(c: Config, spec: Spec, prefix: Entry, bound: nat, startedAt: int, observedAt: int, h: int)
    requires prefix.sealedBefore.Some? && prefix.sealedAt.Some? && IsHorizon(c, spec, h)
    ensures var promoted := PromotedBound(c, spec, prefix, bound, startedAt, observedAt);
            && (promoted.Some? <==>
                  && spec.seal.Some? && bound <= prefix.sealedBefore.value
                  && (Floor(spec).Some? ==> Floor(spec).value <= prefix.sealedBefore.value)
                  && prefix.sealedAt.value <= startedAt <= observedAt
                  && prefix.sealedBefore.value < spec.seal.value && prefix.sealedBefore.value < c.windowEnd
                  && prefix.sealedBefore.value < c.minId(startedAt - h))
            && (promoted.Some? ==>
                  IsLowest(promoted.value, spec.seal.value, c.windowEnd, c.minId(startedAt - h)))
  {
  }

  /** What a suffix scan answers: the prefix's rows below the bound, then the scanned rows, under the better seal. */
  lemma SuffixedIs(c: Config, spec: Spec, prefix: Entry, bound: nat, rows: seq<Segment>, startedAt: int, observedAt: int,
                   generation: nat)
    requires prefix.sealedBefore.Some? && prefix.sealedAt.Some? && Ascending(prefix.segments)
    ensures var e := SuffixedEntry(c, spec, prefix, bound, rows, startedAt, observedAt, generation);
            var promoted := PromotedBound(c, spec, prefix, bound, startedAt, observedAt);
            && e.floor == prefix.floor && e.observedAt == observedAt && e.generation == generation
            && (exists k | 0 <= k <= |prefix.segments| ::
                  && e.segments == prefix.segments[..k] + rows
                  && forall i | 0 <= i < |prefix.segments| :: prefix.segments[i].id < bound <==> i < k)
            && e.sealedBefore == Some(if promoted.Some? then promoted.value else bound)
            && e.sealedAt == (if promoted.Some? then Some(startedAt) else prefix.sealedAt)
  {
    var k := PrefixLen(prefix.segments, bound);
    assert forall i | 0 <= i < |prefix.segments| :: prefix.segments[i].id < bound <==> i < k;
  }

  /** The retained entry proves no less than a load with this seal would. */
  predicate ProvesAsMuch(current: Entry, floor: Option<nat>, bound: nat, h: int) {
    && ReachesDown(current.floor, floor) && current.sealedBefore.Some? && current.sealedBefore.value >= bound
    && (current.sealedHorizon.Some? ==> h <= current.sealedHorizon.value)
  }

  /** A load's sealed rows, exactly those below its seal, replace the retained entry unless that proves as much. */
  lemma RetainedAfterLoadIs(c: Config, current: Option<Entry>, spec: Spec, e: Entry, h: int)
    requires IsHorizon(c, spec, h) && Ascending(e.segments)
    ensures var kept := InstallLoaded(c, current, spec, e);
            if e.sealedBefore.None? || !LiesAbove(e.sealedBefore.value, Floor(spec))
               || (current.Some? && ProvesAsMuch(current.value, Floor(spec), e.sealedBefore.value, h)) then
              kept == current
            else
              && kept.Some? && kept.value == e.(sealedHorizon := None, segments := kept.value.segments)
              && kept.value.segments <= e.segments
              && (forall i | 0 <= i < |e.segments| :: e.segments[i].id < e.sealedBefore.value <==> i < |kept.value.segments|)
  {
  }

  /** A promotion replaces only the prefix it extended, by that prefix and the rows up to the new seal. */
  lemma RetainedAfterSuffixIs(c: Config, current: Option<Entry>, spec: Spec, prefix: Entry, bound: nat, rows: seq<Segment>,
                              startedAt: int, observedAt: int, generation: nat, h: int)
    requires prefix.sealedBefore.Some? && prefix.sealedAt.Some? && IsHorizon(c, spec, h)
    ensures var kept := InstallPromoted(c, current, spec, prefix, bound, rows, startedAt, observedAt, generation);
            var promoted := PromotedBound(c, spec, prefix, bound, startedAt, observedAt);
            if promoted.None? || current != Some(prefix) then
              kept == current
            else
              && kept.Some? && kept.value.floor == prefix.floor && kept.value.sealedBefore == promoted
              && kept.value.sealedAt == Some(startedAt) && kept.value.sealedHorizon == Some(h)
              && kept.value.observedAt == observedAt && kept.value.generation == generation
              && prefix.segments <= kept.value.segments
              && (forall x :: x in kept.value.segments[|prefix.segments|..] <==>
                    x in rows && prefix.sealedBefore.value <= x.id < promoted.value)
  {
    if PromotedBound(c, spec, prefix, bound, startedAt, observedAt).Some? && current == Some(prefix) {
      var promoted := PromotedBound(c, spec, prefix, bound, startedAt, observedAt).value;
      var more := Between(rows, prefix.sealedBefore.value, promoted);
      assert (prefix.segments + more)[|prefix.segments|..] == more;
    }
  }

  /** A waiter of a suffix scan is sealed as far as the scan proved, its own seal and its own horizon allow. */
  lemma SuffixAnswerIs(c: Config, spec: Spec, prefix: Entry, bound: nat, scanned: Entry, h: int)
    requires spec.seal.Some? && prefix.sealedAt.Some? && scanned.sealedAt.Some? && scanned.sealedBefore.Some? && IsHorizon(c, spec, h)
    ensures var a := AnswerOfSuffix(c, spec, prefix, bound, scanned);
            && a.segments == scanned.segments && a.floor == scanned.floor && a.observedAt == scanned.observedAt
            && a.sealedAt == scanned.sealedAt && a.sealedBefore.Some?
            && IsLowest(a.sealedBefore.value, scanned.sealedBefore.value, spec.seal.value, c.minId(scanned.sealedAt.value - h))
            && a.sealedHorizon == if scanned.sealedAt.value > prefix.sealedAt.value then Some(h) else scanned.sealedHorizon
  {
  }
}
