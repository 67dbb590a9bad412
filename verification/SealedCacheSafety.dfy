/**
 Every strong answer of the sealed cache is a legal result of one plain strong scan, and the rows
 below an attested seal are complete for ever.
 */
module SealedCacheSafety {
  import opened Numeric
  import opened SealedCache

  // ---------------------------------------------------------------------------------------------
  // The invariant
  // ---------------------------------------------------------------------------------------------

  /** Every visible row of `[floor, bound)` is among `rows`. */
  ghost predicate Complete(rows: seq<Segment>, floor: Option<nat>, bound: nat, visible: map<nat, Segment>) {
    forall id | id in visible && AtLeast(floor, id) && id < bound :: visible[id] in rows
  }

  /** A proof taken at `at` cannot be overtaken by a later publication. */
  ghost predicate Proved(c: Config, bound: nat, at: int, clock: int) {
    at <= clock && bound <= c.minId(at - c.lag)
  }

  ghost predicate SealedOk(c: Config, w: World, e: Entry) {
    && e.sealedBefore.Some? && e.sealedAt.Some?
    && Proved(c, e.sealedBefore.value, e.sealedAt.value, w.clock)
    && e.sealedBefore.value <= c.windowEnd
    && IsScan(e.segments, e.floor, map[], w.visible)
    && (forall r | r in e.segments :: r.id < e.sealedBefore.value)
    && Complete(e.segments, e.floor, e.sealedBefore.value, w.visible)
  }

  /** A scan in progress: nothing that was due before it started can still appear. */
  ghost predicate ScanOk(c: Config, w: World, startedAt: int, since: int, before: map<nat, Segment>) {
    && startedAt <= since <= w.clock
    && (forall id | id in before :: id in w.visible && w.visible[id] == before[id])
    && (forall id | id in w.visible && id !in before :: c.minId(startedAt - c.lag) <= id)
  }

  ghost predicate LoadedOk(c: Config, w: World, l: Load, e: Entry) {
    && e.floor == Floor(l.spec)
    && IsScan(e.segments, e.floor, l.before, w.visible)
    && e.sealedAt == Some(l.startedAt)
    && (e.sealedBefore.Some? ==> e.sealedBefore.value <= c.minId(l.startedAt - c.lag))
  }

  ghost predicate LoadOk(c: Config, w: World, l: Load) {
    && ValidSpec(c, l.spec)
    && ScanOk(c, w, l.startedAt, l.since, l.before)
    && (l.done.Some? ==> LoadedOk(c, w, l, l.done.value))
  }

  /** An entry whose rows come from one scan and whose seal, if any, is proved. */
  ghost predicate EntryOk(c: Config, w: World, e: Entry, before: map<nat, Segment>, since: int) {
    && IsScan(e.segments, e.floor, before, w.visible)
    && (e.sealedBefore.Some? ==>
          && e.sealedAt.Some?
          && Proved(c, e.sealedBefore.value, e.sealedAt.value, since)
          && Complete(e.segments, e.floor, e.sealedBefore.value, w.visible))
  }

  ghost predicate SuffixOk(c: Config, w: World, x: Suffix) {
    && ScanOk(c, w, x.startedAt, x.since, x.before)
    && ReuseBound(c, x.spec, x.prefix) == Some(x.bound) && x.prefix.sealedAt.value <= x.since
    && (x.done.Some? ==>
          && x.done.value.floor == x.prefix.floor && x.done.value.sealedBefore.Some?
          && EntryOk(c, w, x.done.value, x.before, x.since))
  }

  /**
   The answer covers the request, its rows are those of a scan that started with `before` visible, no
   earlier than the proof time, and nothing below its seal is missing.
   */
  ghost predicate AnswerOk(c: Config, w: World, a: Answer) {
    && Covers(a.entry.floor, Floor(a.spec))
    && EntryOk(c, w, a.entry, a.before, a.since)
    && a.since <= w.clock
    && (forall id | id in a.before :: id in w.visible && w.visible[id] == a.before[id])
  }

  /** Rows are stored under their own identifiers, inside the window. */
  ghost predicate Keyed(c: Config, visible: map<nat, Segment>) {
    forall id | id in visible :: visible[id].id == id && id < c.windowEnd
  }

  /** What was ever retained is sealed, and its generation names it. */
  ghost predicate RetainedOk(c: Config, w: World, sealed: Option<Entry>, installed: set<Entry>, generation: nat) {
    && (forall e | e in installed :: SealedOk(c, w, e) && e.generation <= generation)
    && (forall e, e' | e in installed && e' in installed && e.generation == e'.generation :: e == e')
    && (sealed.Some? ==> sealed.value in installed)
  }

  ghost predicate Inv(c: Config, s: System) {
    && Keyed(c, s.world.visible)
    && RetainedOk(c, s.world, s.sealed, s.installed, s.generation)
    && (forall k | k in s.loads :: LoadOk(c, s.world, s.loads[k]))
    && (forall k | k in s.suffixes :: SuffixOk(c, s.world, s.suffixes[k]) && s.suffixes[k].prefix in s.installed)
    && (forall i | 0 <= i < |s.answers| :: AnswerOk(c, s.world, s.answers[i]))
  }

  // ---------------------------------------------------------------------------------------------
  // Time passes and rows appear
  // ---------------------------------------------------------------------------------------------

  /** Rows that appear were created recently enough to lie above every proved seal. */
  ghost predicate Grows(c: Config, w: World, w': World) {
    && w.clock <= w'.clock
    && (forall id | id in w.visible :: id in w'.visible && w'.visible[id] == w.visible[id])
    && (forall id | id in w'.visible && id !in w.visible :: c.minId(w.clock - c.lag) <= id)
  }

  lemma CompletenessLasts(c: Config, w: World, w': World, rows: seq<Segment>, floor: Option<nat>, bound: nat, at: int)
    requires ValidConfig(c) && Grows(c, w, w') && Proved(c, bound, at, w.clock)
    requires Complete(rows, floor, bound, w.visible)
    ensures Complete(rows, floor, bound, w'.visible)
  {
  }

  lemma SealedLasts(c: Config, w: World, w': World, e: Entry)
    requires ValidConfig(c) && Grows(c, w, w') && SealedOk(c, w, e)
    ensures SealedOk(c, w', e)
  {
  }

  lemma LoadLasts(c: Config, w: World, w': World, l: Load)
    requires ValidConfig(c) && Grows(c, w, w') && LoadOk(c, w, l)
    ensures LoadOk(c, w', l)
  {
  }

  lemma SuffixLasts(c: Config, w: World, w': World, x: Suffix)
    requires ValidConfig(c) && Grows(c, w, w') && SuffixOk(c, w, x)
    ensures SuffixOk(c, w', x)
  {
  }

  lemma AnswerLasts(c: Config, w: World, w': World, a: Answer)
    requires ValidConfig(c) && Grows(c, w, w') && AnswerOk(c, w, a)
    ensures AnswerOk(c, w', a)
  {
  }

  /** Everything recorded so far stays right while the world grows. */
  lemma {:induction false} WorldGrows(c: Config, s: System, w: World)
    requires ValidConfig(c) && Grows(c, s.world, w) && Inv(c, s) && Keyed(c, w.visible)
    ensures Inv(c, s.(world := w))
  {
    forall e | e in s.installed
      ensures SealedOk(c, w, e)
    {
      SealedLasts(c, s.world, w, e);
    }
    forall k | k in s.loads
      ensures LoadOk(c, w, s.loads[k])
    {
      LoadLasts(c, s.world, w, s.loads[k]);
    }
    forall k | k in s.suffixes
      ensures SuffixOk(c, w, s.suffixes[k])
    {
      SuffixLasts(c, s.world, w, s.suffixes[k]);
    }
    forall i | 0 <= i < |s.answers|
      ensures AnswerOk(c, w, s.answers[i])
    {
      AnswerLasts(c, s.world, w, s.answers[i]);
    }
  }

  // ---------------------------------------------------------------------------------------------
  // Loads
  // ---------------------------------------------------------------------------------------------

  lemma SafeIsProved(c: Config, at: int, horizon: int)
    requires ValidConfig(c) && horizon >= c.lag
    ensures Safe(c, at, horizon) <= c.minId(at - c.lag)
  {
  }

  lemma LoadedIsOk(c: Config, w: World, l: Load, rows: seq<Segment>, observedAt: int, generation: nat)
    requires ValidConfig(c) && IsScan(rows, Floor(l.spec), l.before, w.visible)
    ensures LoadedOk(c, w, l, LoadedEntry(c, l.spec, rows, l.startedAt, observedAt, generation))
  {
  }

  /** What a load installs is sealed. */
  lemma InstalledLoadIsSealed(c: Config, w: World, l: Load, e: Entry, current: Option<Entry>)
    requires ValidConfig(c) && LoadOk(c, w, l) && LoadedOk(c, w, l, e)
    requires Keyed(c, w.visible) && (e.sealedBefore.Some? ==> e.sealedBefore.value <= c.windowEnd)
    ensures var sealed := InstallLoaded(c, current, l.spec, e);
            sealed == current || (sealed.Some? && SealedOk(c, w, sealed.value) && sealed.value.generation == e.generation)
  {
  }

  lemma LoadAnswerIsOk(c: Config, w: World, l: Load, spec: Spec)
    requires ValidConfig(c) && LoadOk(c, w, l) && l.done.Some? && ValidSpec(c, spec)
    requires AnswerOfLoad(c, spec, l.done.value).Some?
    ensures AnswerOk(c, w, Answer(spec, AnswerOfLoad(c, spec, l.done.value).value, false, l.before, l.since))
  {
  }

  // ---------------------------------------------------------------------------------------------
  // Suffix scans
  // ---------------------------------------------------------------------------------------------

  /** Retained rows below the bound, then scanned rows from it, are one scan from the prefix's floor. */
  lemma PrefixThenSuffixIsScan(c: Config, w: World, prefix: Entry, bound: nat, rows: seq<Segment>, before: map<nat, Segment>)
    requires SealedOk(c, w, prefix) && Keyed(c, w.visible) && bound <= prefix.sealedBefore.value
    requires forall id | id in before :: id in w.visible && w.visible[id] == before[id]
    requires IsScan(rows, Some(bound), before, w.visible) && Below(prefix.floor, bound)
    ensures IsScan(prefix.segments[..PrefixLen(prefix.segments, bound)] + rows, prefix.floor, before, w.visible)
    ensures Complete(prefix.segments[..PrefixLen(prefix.segments, bound)], prefix.floor, bound, w.visible)
  {
  }

  lemma SuffixedIsOk(c: Config, w: World, x: Suffix, rows: seq<Segment>, observedAt: int, generation: nat)
    requires ValidConfig(c) && SuffixOk(c, w, x) && SealedOk(c, w, x.prefix) && Keyed(c, w.visible)
    requires Below(x.prefix.floor, x.bound) && x.bound <= x.prefix.sealedBefore.value
    requires IsScan(rows, Some(x.bound), x.before, w.visible)
    ensures var e := SuffixedEntry(c, x.spec, x.prefix, x.bound, rows, x.startedAt, observedAt, generation);
            EntryOk(c, w, e, x.before, x.since)
  {
    var e := SuffixedEntry(c, x.spec, x.prefix, x.bound, rows, x.startedAt, observedAt, generation);
    PrefixThenSuffixIsScan(c, w, x.prefix, x.bound, rows, x.before);
    SafeIsProved(c, x.startedAt, Horizon(c, x.spec));
    var kept := x.prefix.segments[..PrefixLen(x.prefix.segments, x.bound)];
    forall id | id in w.visible && AtLeast(e.floor, id) && id < e.sealedBefore.value
      ensures w.visible[id] in e.segments
    {
      if id < x.bound {
        assert w.visible[id] in kept;
      } else {
        assert w.visible[id] in rows;
      }
    }
  }

  lemma PromotedIsSealed(c: Config, w: World, x: Suffix, rows: seq<Segment>, observedAt: int, generation: nat, current: Option<Entry>)
    requires ValidConfig(c) && SuffixOk(c, w, x) && SealedOk(c, w, x.prefix) && Keyed(c, w.visible)
    requires IsScan(rows, Some(x.bound), x.before, w.visible)
    requires Below(x.prefix.floor, x.bound) && x.bound <= x.prefix.sealedBefore.value
    ensures var sealed := InstallPromoted(c, current, x.spec, x.prefix, x.bound, rows, x.startedAt, observedAt, generation);
            sealed == current || (sealed.Some? && SealedOk(c, w, sealed.value) && sealed.value.generation == generation)
  {
    SafeIsProved(c, x.startedAt, Horizon(c, x.spec));
    var promoted := PromotedBound(c, x.spec, x.prefix, x.bound, x.startedAt, observedAt);
    if promoted.Some? {
      PromotedRows(c, w, x, rows, promoted.value);
      PromotedComplete(c, w, x, rows, promoted.value);
    }
  }

  lemma PromotedComplete(c: Config, w: World, x: Suffix, rows: seq<Segment>, promoted: nat)
    requires ScanOk(c, w, x.startedAt, x.since, x.before) && SealedOk(c, w, x.prefix) && Keyed(c, w.visible)
    requires IsScan(rows, Some(x.bound), x.before, w.visible)
    requires x.bound <= x.prefix.sealedBefore.value < promoted <= c.minId(x.startedAt - c.lag)
    ensures Complete(x.prefix.segments + Between(rows, x.prefix.sealedBefore.value, promoted), x.prefix.floor, promoted, w.visible)
  {
  }

  lemma PromotedRows(c: Config, w: World, x: Suffix, rows: seq<Segment>, promoted: nat)
    requires SealedOk(c, w, x.prefix) && IsScan(rows, Some(x.bound), x.before, w.visible)
    requires x.prefix.sealedBefore.value < promoted && Below(x.prefix.floor, x.bound) && x.bound <= x.prefix.sealedBefore.value
    ensures var all := x.prefix.segments + Between(rows, x.prefix.sealedBefore.value, promoted);
            && IsScan(all, x.prefix.floor, map[], w.visible)
            && forall r | r in all :: r.id < promoted
  {
  }

  lemma SuffixAnswerIsOk(c: Config, w: World, x: Suffix, spec: Spec, prefix: Entry)
    requires ValidConfig(c) && SuffixOk(c, w, x) && x.done.Some? && x.prefix == prefix && spec.seal.Some?
    requires prefix.sealedAt.Some? && Covers(prefix.floor, Floor(spec))
    ensures AnswerOk(c, w, Answer(spec, AnswerOfSuffix(c, spec, prefix, x.bound, x.done.value), true, x.before, x.since))
  {
  }

  // ---------------------------------------------------------------------------------------------
  // Each step
  // ---------------------------------------------------------------------------------------------

  lemma {:induction false} StoreStep(c: Config, s: System, a: Action)
    requires ValidConfig(c) && Inv(c, s) && Enabled(c, s, a) && (a.Tick? || a.Publish?)
    ensures Inv(c, Next(c, s, a))
  {
    WorldGrows(c, s, Next(c, s, a).world);
  }

  lemma DropStep(c: Config, s: System, a: Action)
    requires Inv(c, s) && Enabled(c, s, a) && (a.Fail? || a.Evict? || a.OtherKey?)
    ensures Inv(c, Next(c, s, a))
  {
  }

  lemma StartLoadStep(c: Config, s: System, a: Action)
    requires Inv(c, s) && Enabled(c, s, a) && a.StartLoad?
    ensures Inv(c, Next(c, s, a))
  {
  }

  lemma StartSuffixStep(c: Config, s: System, a: Action)
    requires Inv(c, s) && Enabled(c, s, a) && a.StartSuffix?
    ensures Inv(c, Next(c, s, a))
  {
  }

  /** Installing keeps generations unique because the counter moved. */
  lemma InstallKeepsRetained(c: Config, s: System, sealed: Option<Entry>)
    requires RetainedOk(c, s.world, s.sealed, s.installed, s.generation)
    requires sealed == s.sealed ||
             (sealed.Some? && SealedOk(c, s.world, sealed.value) && sealed.value.generation == s.generation + 1)
    ensures RetainedOk(c, s.world, sealed, Installing(s, sealed).installed, s.generation + 1)
    ensures s.installed <= Installing(s, sealed).installed
  {
  }

  lemma LoadDone(c: Config, s: System, k: nat, l: Load, sealed: Option<Entry>)
    requires Inv(c, s) && LoadOk(c, s.world, l)
    requires RetainedOk(c, s.world, sealed, Installing(s, sealed).installed, s.generation + 1)
    ensures Inv(c, Installing(s, sealed).(generation := s.generation + 1, loads := s.loads[k := l]))
  {
  }

  lemma SuffixDone(c: Config, s: System, k: nat, x: Suffix, sealed: Option<Entry>)
    requires Inv(c, s) && SuffixOk(c, s.world, x) && x.prefix in s.installed
    requires RetainedOk(c, s.world, sealed, Installing(s, sealed).installed, s.generation + 1)
    ensures Inv(c, Installing(s, sealed).(generation := s.generation + 1, suffixes := s.suffixes[k := x]))
  {
  }

  lemma FinishedLoad(c: Config, s: System, l: Load, rows: seq<Segment>, reading: int)
    requires ValidConfig(c) && Keyed(c, s.world.visible) && RetainedOk(c, s.world, s.sealed, s.installed, s.generation)
    requires LoadOk(c, s.world, l) && IsScan(rows, Floor(l.spec), l.before, s.world.visible)
    ensures var e := LoadedEntry(c, l.spec, rows, l.startedAt, reading, s.generation + 1);
            var sealed := InstallLoaded(c, s.sealed, l.spec, e);
            && LoadOk(c, s.world, l.(done := Some(e)))
            && RetainedOk(c, s.world, sealed, Installing(s, sealed).installed, s.generation + 1)
  {
    var e := LoadedEntry(c, l.spec, rows, l.startedAt, reading, s.generation + 1);
    LoadedIsOk(c, s.world, l, rows, reading, s.generation + 1);
    InstalledLoadIsSealed(c, s.world, l, e, s.sealed);
    InstallKeepsRetained(c, s, InstallLoaded(c, s.sealed, l.spec, e));
  }

  lemma {:induction false} FinishLoadStep(c: Config, s: System, k: nat, rows: seq<Segment>, reading: int)
    requires ValidConfig(c) && Inv(c, s) && Enabled(c, s, FinishLoad(k, rows, reading))
    ensures Inv(c, Next(c, s, FinishLoad(k, rows, reading)))
  {
    var l := s.loads[k];
    FinishedLoad(c, s, l, rows, reading);
    var e := LoadedEntry(c, l.spec, rows, l.startedAt, reading, s.generation + 1);
    LoadDone(c, s, k, l.(done := Some(e)), InstallLoaded(c, s.sealed, l.spec, e));
  }

  lemma {:induction false} FinishedSuffix(c: Config, s: System, x: Suffix, rows: seq<Segment>, reading: int)
    requires ValidConfig(c) && Keyed(c, s.world.visible) && RetainedOk(c, s.world, s.sealed, s.installed, s.generation)
    requires SuffixOk(c, s.world, x) && SealedOk(c, s.world, x.prefix)
    requires IsScan(rows, Some(MaxId(Floor(x.spec), x.bound)), x.before, s.world.visible)
    ensures var e := SuffixedEntry(c, x.spec, x.prefix, x.bound, rows, x.startedAt, reading, s.generation + 1);
            var sealed := InstallPromoted(c, s.sealed, x.spec, x.prefix, x.bound, rows, x.startedAt, reading, s.generation + 1);
            && SuffixOk(c, s.world, x.(done := Some(e)))
            && RetainedOk(c, s.world, sealed, Installing(s, sealed).installed, s.generation + 1)
  {
    ReuseIsWithin(c, x.spec, x.prefix);
    SuffixedIsOk(c, s.world, x, rows, reading, s.generation + 1);
    PromotedIsSealed(c, s.world, x, rows, reading, s.generation + 1, s.sealed);
    InstallKeepsRetained(c, s, InstallPromoted(c, s.sealed, x.spec, x.prefix, x.bound, rows, x.startedAt, reading, s.generation + 1));
  }

  lemma FinishSuffixIs(c: Config, s: System, k: nat, x: Suffix, rows: seq<Segment>, reading: int, e: Entry, sealed: Option<Entry>)
    requires Enabled(c, s, FinishSuffix(k, rows, reading)) && x == s.suffixes[k]
    requires e == SuffixedEntry(c, x.spec, x.prefix, x.bound, rows, x.startedAt, reading, s.generation + 1)
    requires sealed == InstallPromoted(c, s.sealed, x.spec, x.prefix, x.bound, rows, x.startedAt, reading, s.generation + 1)
    ensures Next(c, s, FinishSuffix(k, rows, reading))
         == Installing(s, sealed).(generation := s.generation + 1, suffixes := s.suffixes[k := x.(done := Some(e))])
  {
  }

  lemma {:induction false} FinishSuffixStep(c: Config, s: System, k: nat, rows: seq<Segment>, reading: int)
    requires ValidConfig(c) && Inv(c, s) && Enabled(c, s, FinishSuffix(k, rows, reading))
    ensures Inv(c, Next(c, s, FinishSuffix(k, rows, reading)))
  {
    var x := s.suffixes[k];
    SuffixOfInv(c, s, k);
    FinishedSuffix(c, s, x, rows, reading);
    var e := SuffixedEntry(c, x.spec, x.prefix, x.bound, rows, x.startedAt, reading, s.generation + 1);
    var sealed := InstallPromoted(c, s.sealed, x.spec, x.prefix, x.bound, rows, x.startedAt, reading, s.generation + 1);
    SuffixDone(c, s, k, x.(done := Some(e)), sealed);
    FinishSuffixIs(c, s, k, x, rows, reading, e, sealed);
  }

  lemma SuffixOfInv(c: Config, s: System, k: nat)
    requires Inv(c, s) && k in s.suffixes
    ensures SuffixOk(c, s.world, s.suffixes[k]) && SealedOk(c, s.world, s.suffixes[k].prefix)
  {
  }

  /** A reused bound lies inside the sealed interval and above the request's floor. */
  lemma ReuseIsWithin(c: Config, spec: Spec, prefix: Entry)
    requires ReuseBound(c, spec, prefix).Some?
    ensures var bound := ReuseBound(c, spec, prefix).value;
            && prefix.sealedBefore.Some? && bound <= prefix.sealedBefore.value
            && Below(prefix.floor, bound) && MaxId(Floor(spec), bound) == bound
  {
  }

  /** A prefix sealed to the window's end holds every row that will ever be visible. */
  lemma SealedAnswerIsOk(c: Config, s: System, spec: Spec)
    requires ValidConfig(c) && Inv(c, s) && Enabled(c, s, AnswerSealed(spec))
    ensures AnswerOk(c, s.world, Answer(spec, s.sealed.value, true, s.world.visible, s.world.clock))
  {
  }

  lemma AppendAnswer(c: Config, s: System, a: Answer)
    requires Inv(c, s) && AnswerOk(c, s.world, a)
    ensures Inv(c, s.(answers := s.answers + [a]))
  {
  }

  lemma AnswerLoadStep(c: Config, s: System, k: nat, spec: Spec)
    requires ValidConfig(c) && Inv(c, s) && Enabled(c, s, AnswerLoad(k, spec))
    ensures Inv(c, Next(c, s, AnswerLoad(k, spec)))
  {
    var l := s.loads[k];
    LoadAnswerIsOk(c, s.world, l, spec);
    AppendAnswer(c, s, Answer(spec, AnswerOfLoad(c, spec, l.done.value).value, false, l.before, l.since));
  }

  lemma AnswerSealedStep(c: Config, s: System, spec: Spec)
    requires ValidConfig(c) && Inv(c, s) && Enabled(c, s, AnswerSealed(spec))
    ensures Inv(c, Next(c, s, AnswerSealed(spec)))
  {
    SealedAnswerIsOk(c, s, spec);
    AppendAnswer(c, s, Answer(spec, s.sealed.value, true, s.world.visible, s.world.clock));
  }

  lemma {:induction false} AnswerSuffixStep(c: Config, s: System, k: nat, spec: Spec, prefix: Entry)
    requires ValidConfig(c) && Inv(c, s) && Enabled(c, s, AnswerSuffix(k, spec, prefix))
    ensures Inv(c, Next(c, s, AnswerSuffix(k, spec, prefix)))
  {
    var x := s.suffixes[k];
    assert SuffixOk(c, s.world, x);
    assert x.prefix == prefix;
    SuffixAnswerIsOk(c, s.world, x, spec, prefix);
    AppendAnswer(c, s, Answer(spec, AnswerOfSuffix(c, spec, prefix, x.bound, x.done.value), true, x.before, x.since));
  }

  lemma {:induction false} NextInv(c: Config, s: System, a: Action)
    requires ValidConfig(c) && Inv(c, s) && Enabled(c, s, a)
    ensures Inv(c, Next(c, s, a))
  {
    match a
    case FinishLoad(k, rows, reading) => FinishLoadStep(c, s, k, rows, reading);
    case FinishSuffix(k, rows, reading) => FinishSuffixStep(c, s, k, rows, reading);
    case StartLoad(_, _, _) => StartLoadStep(c, s, a);
    case StartSuffix(_, _, _, _) => StartSuffixStep(c, s, a);
    case AnswerLoad(k, spec) => AnswerLoadStep(c, s, k, spec);
    case AnswerSealed(spec) => AnswerSealedStep(c, s, spec);
    case AnswerSuffix(k, spec, prefix) => AnswerSuffixStep(c, s, k, spec, prefix);
    case Tick(_) => StoreStep(c, s, a);
    case Publish(_, _) => StoreStep(c, s, a);
    case _ => DropStep(c, s, a);
  }

  lemma {:induction false} RunInv(c: Config, clock: int, run: seq<Action>)
    requires ValidConfig(c) && IsRun(c, clock, run)
    ensures Inv(c, After(c, clock, run))
    decreases |run|
  {
    if run != [] {
      RunInv(c, clock, run[..|run| - 1]);
      NextInv(c, After(c, clock, run[..|run| - 1]), run[|run| - 1]);
    }
  }

  /** Cutting an entry to a floor it covers leaves a scan from that floor. */
  lemma CutToFloor(rows: seq<Segment>, have: Option<nat>, want: Option<nat>, before: map<nat, Segment>, visible: map<nat, Segment>)
    requires IsScan(rows, have, before, visible) && Covers(have, want)
    requires forall id | id in before :: before[id].id == id
    ensures IsScan(From(rows, want), want, before, visible)
  {
  }

  lemma CutKeepsComplete(rows: seq<Segment>, have: Option<nat>, want: Option<nat>, bound: nat, c: Config, visible: map<nat, Segment>)
    requires Complete(rows, have, bound, visible) && Covers(have, want) && Keyed(c, visible)
    ensures Complete(From(rows, want), want, bound, visible)
  {
  }

  /**
   In every run of publications, loads, suffix scans, promotions, late installs and evictions, with a
   broker clock that may be arbitrarily slow but not fast: the rows of every strong answer, cut to the
   request's floor, are a legal result of one plain scan from that floor which started with `before`
   visible, no earlier than the proof time; and every row of the request below the attested seal that
   is visible now, however late, is in the answer.
   */
  lemma {:induction false} StrongAnswersAreScans(c: Config, clock: int, run: seq<Action>, i: nat)
    requires ValidConfig(c) && IsRun(c, clock, run) && i < |After(c, clock, run).answers|
    ensures var s := After(c, clock, run);
            var a := s.answers[i];
            && IsScan(From(a.entry.segments, Floor(a.spec)), Floor(a.spec), a.before, s.world.visible)
            && (a.entry.sealedBefore.Some? ==>
                  && a.entry.sealedAt.Some? && a.entry.sealedAt.value <= a.since
                  && Complete(From(a.entry.segments, Floor(a.spec)), Floor(a.spec), a.entry.sealedBefore.value, s.world.visible))
  {
    RunInv(c, clock, run);
    var s := After(c, clock, run);
    var a := s.answers[i];
    assert AnswerOk(c, s.world, a);
    CutToFloor(a.entry.segments, a.entry.floor, Floor(a.spec), a.before, s.world.visible);
    if a.entry.sealedBefore.Some? {
      CutKeepsComplete(a.entry.segments, a.entry.floor, Floor(a.spec), a.entry.sealedBefore.value, c, s.world.visible);
    }
  }
}
