/**
 The broker's strong metadata reads for one cache key: loads, sealed prefixes, suffix scans and
 promotion, as pure steps. Identifiers encode creation time through a monotone function, and a row
 becomes visible no later than its creation plus publication lag plus clock skew.
 */
module SealedCache {
  import opened Numeric

  datatype Placement = Placement(offset: nat, length: nat)

  /** A metadata row: one blob's identifier and where each partition's batch lies in it. */
  datatype Segment = Segment(id: nat, partitions: map<nat, Placement>)

  /** `lag` is publication lag plus skew; `minId` gives the least identifier made at or after a time. */
  datatype Config = Config(minId: int -> nat, lag: int, windowEnd: nat)

  ghost predicate ValidConfig(c: Config) {
    forall s, t | s <= t :: c.minId(s) <= c.minId(t)
  }

  /** A validated strong request; `bounds` is `None` for full recovery. */
  datatype Spec = Spec(partitions: set<nat>, bounds: Option<map<nat, nat>>, seal: Option<nat>, requestedHorizon: int)

  datatype Entry = Entry(
    floor: Option<nat>,
    observedAt: int,
    sealedBefore: Option<nat>,
    sealedAt: Option<int>,
    sealedHorizon: Option<int>,
    generation: nat,
    segments: seq<Segment>)

  // ---------------------------------------------------------------------------------------------
  // Requests
  // ---------------------------------------------------------------------------------------------

  predicate IsLeast(bounds: map<nat, nat>, m: nat) {
    (exists p | p in bounds :: bounds[p] == m) && forall p | p in bounds :: m <= bounds[p]
  }

  lemma {:induction false} LeastExists(bounds: map<nat, nat>)
    requires bounds != map[]
    ensures exists m :: IsLeast(bounds, m)
    decreases |bounds|
  {
    var p :| p in bounds;
    var rest := bounds - {p};
    assert forall q | q in bounds :: q == p || q in rest;
    if rest == map[] {
      assert IsLeast(bounds, bounds[p]);
    } else {
      LeastExists(rest);
      var m: nat :| IsLeast(rest, m);
      var q :| q in rest && rest[q] == m;
      assert q in bounds && bounds[q] == m;
      assert IsLeast(bounds, MinId(m, bounds[p]));
    }
  }

  /** The lowest requested bound; the shared scan starts there. */
  ghost function LeastBound(bounds: map<nat, nat>): (m: nat)
    requires bounds != map[]
    ensures IsLeast(bounds, m)
  {
    LeastExists(bounds);
    var m :| IsLeast(bounds, m);
    m
  }

  ghost function Floor(spec: Spec): Option<nat> {
    if spec.bounds.Some? && spec.bounds.value != map[] then Some(LeastBound(spec.bounds.value)) else None
  }

  /** A reader may ask for a larger horizon than the configured one, never for a smaller. */
  function Horizon(c: Config, spec: Spec): (h: int)
    ensures h >= c.lag && h >= spec.requestedHorizon
  {
    Max(spec.requestedHorizon, c.lag)
  }

  function Safe(c: Config, at: int, horizon: int): nat {
    c.minId(at - horizon)
  }

  predicate Covers(have: Option<nat>, want: Option<nat>) {
    match (have, want)
    case (Some(h), Some(w)) => h <= w
    case (None, None) => true
    case _ => false
  }

  predicate AtLeast(floor: Option<nat>, id: nat) {
    floor.Some? ==> floor.value <= id
  }

  predicate Below(floor: Option<nat>, bound: nat) {
    floor.Some? ==> floor.value < bound
  }

  function MinId(a: nat, b: nat): nat {
    if a <= b then a else b
  }

  // ---------------------------------------------------------------------------------------------
  // Rows
  // ---------------------------------------------------------------------------------------------

  predicate Ascending(rows: seq<Segment>) {
    forall i, j | 0 <= i < j < |rows| :: rows[i].id < rows[j].id
  }

  /** How many leading rows lie before the bound. */
  function PrefixLen(rows: seq<Segment>, bound: nat): (k: nat)
    ensures k <= |rows|
    ensures forall i | 0 <= i < k :: rows[i].id < bound
    ensures Ascending(rows) ==> forall i | k <= i < |rows| :: rows[i].id >= bound
  {
    if rows == [] || rows[0].id >= bound then 0 else 1 + PrefixLen(rows[1..], bound)
  }

  /** The rows with `lo <= id < hi`, in order. */
  function Between(rows: seq<Segment>, lo: nat, hi: nat): (r: seq<Segment>)
    ensures forall x :: x in r <==> x in rows && lo <= x.id < hi
    ensures Ascending(rows) ==> Ascending(r)
  {
    if rows == [] then
      []
    else
      var rest := Between(rows[1..], lo, hi);
      if lo <= rows[0].id < hi then [rows[0]] + rest else rest
  }

  /** The rows at or above a floor, in order. */
  function From(rows: seq<Segment>, floor: Option<nat>): (r: seq<Segment>)
    ensures forall x :: x in r <==> x in rows && AtLeast(floor, x.id)
    ensures Ascending(rows) ==> Ascending(r)
  {
    if rows == [] then
      []
    else
      var rest := From(rows[1..], floor);
      if AtLeast(floor, rows[0].id) then [rows[0]] + rest else rest
  }

  // ---------------------------------------------------------------------------------------------
  // Steps
  // ---------------------------------------------------------------------------------------------

  /** What a completed scan of a load becomes. */
  ghost function LoadedEntry(c: Config, spec: Spec, rows: seq<Segment>, startedAt: int, observedAt: int, generation: nat): Entry {
    var sealedBefore :=
      if spec.seal.Some? then Some(MinId(spec.seal.value, Safe(c, startedAt, Horizon(c, spec)))) else None;
    Entry(Floor(spec), observedAt, sealedBefore, Some(startedAt), None, generation, rows)
  }

  /** The sealed part of a loaded entry, if any, replaces a retained one that proves less. */
  ghost function InstallLoaded(c: Config, current: Option<Entry>, spec: Spec, entry: Entry): Option<Entry> {
    if entry.sealedBefore.None? || !Below(Floor(spec), entry.sealedBefore.value) then
      current
    else if && current.Some? && Covers(current.value.floor, Floor(spec))
            && current.value.sealedBefore.Some? && current.value.sealedBefore.value >= entry.sealedBefore.value
            && (current.value.sealedHorizon.Some? ==> Horizon(c, spec) <= current.value.sealedHorizon.value)
    then
      current
    else
      Some(entry.(sealedHorizon := None, segments := entry.segments[..PrefixLen(entry.segments, entry.sealedBefore.value)]))
  }

  /** The answer a waiter of a load makes of its entry; an entry that does not cover it is refused. */
  ghost function AnswerOfLoad(c: Config, spec: Spec, entry: Entry): Option<Entry> {
    if !Covers(entry.floor, Floor(spec)) || entry.sealedAt.None? then
      None
    else if spec.seal.None? then
      Some(entry)
    else
      var sealedAt := entry.sealedAt.value;
      var stored := if entry.sealedBefore.Some? then entry.sealedBefore.value else spec.seal.value;
      var bound := MinId(MinId(stored, spec.seal.value), Safe(c, sealedAt, Horizon(c, spec)));
      var seals := Below(Floor(spec), bound);
      Some(entry.(sealedBefore := if seals then Some(bound) else None, sealedAt := if seals then Some(sealedAt) else None))
  }

  /** How far a retained sealed entry may serve this request. */
  ghost function ReuseBound(c: Config, spec: Spec, e: Entry): Option<nat> {
    if && spec.seal.Some? && Covers(e.floor, Floor(spec))
       && (e.sealedHorizon.Some? ==> Horizon(c, spec) <= e.sealedHorizon.value)
       && e.sealedBefore.Some? && e.sealedAt.Some?
    then
      var bound := MinId(MinId(e.sealedBefore.value, spec.seal.value), Safe(c, e.sealedAt.value, Horizon(c, spec)));
      if Below(Floor(spec), bound) then Some(bound) else None
    else
      None
  }

  function MaxId(floor: Option<nat>, bound: nat): nat {
    if floor.Some? && floor.value > bound then floor.value else bound
  }

  /** The seal a suffix scan proves, when it proves more than the prefix did. */
  ghost function PromotedBound(c: Config, spec: Spec, prefix: Entry, bound: nat, startedAt: int, observedAt: int): Option<nat>
    requires prefix.sealedBefore.Some? && prefix.sealedAt.Some?
  {
    if && MaxId(Floor(spec), bound) <= prefix.sealedBefore.value
       && startedAt >= prefix.sealedAt.value && observedAt >= startedAt && spec.seal.Some?
    then
      var promoted := MinId(MinId(spec.seal.value, c.windowEnd), Safe(c, startedAt, Horizon(c, spec)));
      if promoted > prefix.sealedBefore.value then Some(promoted) else None
    else
      None
  }

  /** Retained rows before the bound followed by the scanned rows. */
  ghost function SuffixedEntry(c: Config, spec: Spec, prefix: Entry, bound: nat, rows: seq<Segment>, startedAt: int,
                               observedAt: int, generation: nat): Entry
    requires prefix.sealedBefore.Some? && prefix.sealedAt.Some?
  {
    var segments := prefix.segments[..PrefixLen(prefix.segments, bound)] + rows;
    match PromotedBound(c, spec, prefix, bound, startedAt, observedAt)
    case Some(promoted) =>
      Entry(prefix.floor, observedAt, Some(promoted), Some(startedAt), Some(Horizon(c, spec)), generation, segments)
    case None =>
      Entry(prefix.floor, observedAt, Some(bound), prefix.sealedAt, prefix.sealedHorizon, generation, segments)
  }

  /** Promotion replaces the retained prefix only while it is still the one that was extended. */
  ghost function InstallPromoted(c: Config, current: Option<Entry>, spec: Spec, prefix: Entry, bound: nat, rows: seq<Segment>,
                                 startedAt: int, observedAt: int, generation: nat): Option<Entry>
    requires prefix.sealedBefore.Some? && prefix.sealedAt.Some?
  {
    match PromotedBound(c, spec, prefix, bound, startedAt, observedAt)
    case None => current
    case Some(promoted) =>
      if current != Some(prefix) then current
      else Some(Entry(prefix.floor, observedAt, Some(promoted), Some(startedAt), Some(Horizon(c, spec)), generation,
                      prefix.segments + Between(rows, prefix.sealedBefore.value, promoted)))
  }

  /** The answer a waiter of a suffix scan makes of the scanned entry. */
  ghost function AnswerOfSuffix(c: Config, spec: Spec, prefix: Entry, bound: nat, scanned: Entry): Entry
    requires spec.seal.Some? && prefix.sealedAt.Some?
  {
    var proofAt := if scanned.sealedAt.Some? then scanned.sealedAt.value else prefix.sealedAt.value;
    var stored := if scanned.sealedBefore.Some? then scanned.sealedBefore.value else bound;
    var sealBound := MinId(MinId(stored, spec.seal.value), Safe(c, proofAt, Horizon(c, spec)));
    scanned.(sealedBefore := Some(sealBound),
             sealedAt := Some(proofAt),
             sealedHorizon := if proofAt > prefix.sealedAt.value then Some(Horizon(c, spec)) else scanned.sealedHorizon)
  }

  // ---------------------------------------------------------------------------------------------
  // The whole system
  // ---------------------------------------------------------------------------------------------

  /** `before` is what was visible when the scan started, at time `since`; the broker's clock read `startedAt`. */
  datatype Load = Load(spec: Spec, startedAt: int, since: int, before: map<nat, Segment>, done: Option<Entry>)

  datatype Suffix = Suffix(spec: Spec, prefix: Entry, bound: nat, startedAt: int, since: int,
                           before: map<nat, Segment>, done: Option<Entry>)

  /** A strong answer; `before` is what was visible when the scan behind it started, at time `since`. */
  datatype Answer = Answer(spec: Spec, entry: Entry, retained: bool, before: map<nat, Segment>, since: int)

  /** The store's side: the time, and the rows that are visible. */
  datatype World = World(clock: int, visible: map<nat, Segment>)

  datatype System = System(
    world: World,
    sealed: Option<Entry>,
    installed: set<Entry>,
    generation: nat,
    loads: map<nat, Load>,
    suffixes: map<nat, Suffix>,
    answers: seq<Answer>)

  datatype Action =
    | Tick(now: int)
    | Publish(row: Segment, created: int)
    | StartLoad(k: nat, spec: Spec, reading: int)
    | FinishLoad(k: nat, rows: seq<Segment>, reading: int)
    | AnswerLoad(k: nat, spec: Spec)
    | AnswerSealed(spec: Spec)
    | StartSuffix(k: nat, spec: Spec, prefix: Entry, reading: int)
    | FinishSuffix(k: nat, rows: seq<Segment>, reading: int)
    | AnswerSuffix(k: nat, spec: Spec, prefix: Entry)
    | Fail(k: nat)
    | Evict
    | OtherKey

  function Initial(clock: int): System {
    System(World(clock, map[]), None, {}, 0, map[], map[], [])
  }

  /**
   A sorted scan from a floor: every row at least as high as the floor that was visible at its start,
   and possibly rows that became visible while it ran.
   */
  ghost predicate IsScan(rows: seq<Segment>, floor: Option<nat>, before: map<nat, Segment>, visible: map<nat, Segment>) {
    && Ascending(rows)
    && (forall r | r in rows :: r.id in visible && visible[r.id] == r && AtLeast(floor, r.id))
    && (forall id | id in before && AtLeast(floor, id) :: before[id] in rows)
  }

  predicate ValidSpec(c: Config, spec: Spec) {
    && (spec.bounds.Some? ==> spec.bounds.value != map[])
    && (spec.seal.Some? ==> spec.seal.value <= c.windowEnd)
  }

  ghost predicate Enabled(c: Config, s: System, a: Action) {
    match a
    case Tick(now) => s.world.clock <= now
    case Publish(row, created) =>
      row.id !in s.world.visible && c.minId(created) <= row.id < c.windowEnd && s.world.clock <= created + c.lag
    case StartLoad(k, spec, reading) => k !in s.loads && ValidSpec(c, spec) && reading <= s.world.clock
    case FinishLoad(k, rows, reading) =>
      && k in s.loads && s.loads[k].done.None? && reading <= s.world.clock
      && IsScan(rows, Floor(s.loads[k].spec), s.loads[k].before, s.world.visible)
    case AnswerLoad(k, spec) =>
      && k in s.loads && s.loads[k].done.Some? && ValidSpec(c, spec)
      && AnswerOfLoad(c, spec, s.loads[k].done.value).Some?
    case AnswerSealed(spec) =>
      && s.sealed.Some? && ValidSpec(c, spec)
      && ReuseBound(c, spec, s.sealed.value).Some? && ReuseBound(c, spec, s.sealed.value).value >= c.windowEnd
    case StartSuffix(k, spec, prefix, reading) =>
      && k !in s.suffixes && ValidSpec(c, spec) && reading <= s.world.clock && prefix in s.installed
      && ReuseBound(c, spec, prefix).Some? && ReuseBound(c, spec, prefix).value < c.windowEnd
    case FinishSuffix(k, rows, reading) =>
      && k in s.suffixes && s.suffixes[k].done.None? && reading <= s.world.clock
      && s.suffixes[k].prefix.sealedBefore.Some? && s.suffixes[k].prefix.sealedAt.Some?
      && IsScan(rows, Some(MaxId(Floor(s.suffixes[k].spec), s.suffixes[k].bound)), s.suffixes[k].before, s.world.visible)
    case AnswerSuffix(k, spec, prefix) =>
      && k in s.suffixes && s.suffixes[k].done.Some? && ValidSpec(c, spec) && prefix in s.installed
      && ReuseBound(c, spec, prefix) == Some(s.suffixes[k].bound)
      && prefix.generation == s.suffixes[k].prefix.generation
      && MaxId(Floor(spec), s.suffixes[k].bound) == MaxId(Floor(s.suffixes[k].spec), s.suffixes[k].bound)
    case Fail(k) => k in s.loads || k in s.suffixes
    case Evict => true
    case OtherKey => true
  }

  function Installing(s: System, sealed: Option<Entry>): System {
    s.(sealed := sealed, installed := if sealed.Some? then s.installed + {sealed.value} else s.installed)
  }

  ghost function Next(c: Config, s: System, a: Action): System
    requires Enabled(c, s, a)
  {
    match a
    case Tick(now) => s.(world := s.world.(clock := now))
    case Publish(row, created) => s.(world := s.world.(visible := s.world.visible[row.id := row]))
    case StartLoad(k, spec, reading) => s.(loads := s.loads[k := Load(spec, reading, s.world.clock, s.world.visible, None)])
    case FinishLoad(k, rows, reading) =>
      var load := s.loads[k];
      var entry := LoadedEntry(c, load.spec, rows, load.startedAt, reading, s.generation + 1);
      Installing(s, InstallLoaded(c, s.sealed, load.spec, entry))
      .(generation := s.generation + 1, loads := s.loads[k := load.(done := Some(entry))])
    case AnswerLoad(k, spec) =>
      var load := s.loads[k];
      s.(answers := s.answers + [Answer(spec, AnswerOfLoad(c, spec, load.done.value).value, false, load.before, load.since)])
    case AnswerSealed(spec) =>
      s.(answers := s.answers + [Answer(spec, s.sealed.value, true, s.world.visible, s.world.clock)])
    case StartSuffix(k, spec, prefix, reading) =>
      s.(suffixes := s.suffixes[k := Suffix(spec, prefix, ReuseBound(c, spec, prefix).value, reading, s.world.clock, s.world.visible, None)])
    case FinishSuffix(k, rows, reading) =>
      var x := s.suffixes[k];
      var entry := SuffixedEntry(c, x.spec, x.prefix, x.bound, rows, x.startedAt, reading, s.generation + 1);
      Installing(s, InstallPromoted(c, s.sealed, x.spec, x.prefix, x.bound, rows, x.startedAt, reading, s.generation + 1))
      .(generation := s.generation + 1, suffixes := s.suffixes[k := x.(done := Some(entry))])
    case AnswerSuffix(k, spec, prefix) =>
      var x := s.suffixes[k];
      s.(answers := s.answers + [Answer(spec, AnswerOfSuffix(c, spec, prefix, x.bound, x.done.value), true, x.before, x.since)])
    case Fail(k) => s.(loads := s.loads - {k}, suffixes := s.suffixes - {k})
    case Evict => s.(sealed := None)
    case OtherKey => s.(generation := s.generation + 1)
  }

  /** Every action of the run is enabled when its turn comes. */
  ghost predicate IsRun(c: Config, clock: int, run: seq<Action>)
    decreases |run|, 0
  {
    run == [] || (IsRun(c, clock, run[..|run| - 1]) && Enabled(c, After(c, clock, run[..|run| - 1]), run[|run| - 1]))
  }

  ghost function After(c: Config, clock: int, run: seq<Action>): System
    requires IsRun(c, clock, run)
    decreases |run|, 1
  {
    if run == [] then Initial(clock) else Next(c, After(c, clock, run[..|run| - 1]), run[|run| - 1])
  }

  lemma Extend(c: Config, clock: int, run: seq<Action>, a: Action)
    requires IsRun(c, clock, run) && Enabled(c, After(c, clock, run), a)
    ensures IsRun(c, clock, run + [a]) && After(c, clock, run + [a]) == Next(c, After(c, clock, run), a)
  {
  }
}
