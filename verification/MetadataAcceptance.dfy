/**
 Which strong answers the consumer's validator accepts. An answer to a request that asks for a seal is
 accepted exactly when the reading that proves its seal is not later than the reading that dates it, so
 every such answer is accepted if the broker's readings do not go backwards, however slow its clock is.
 */
module MetadataAcceptance {
  import opened Numeric
  import opened SealedCache
  import opened SealedCacheSafety
  import opened MetadataRead
  import opened MetadataDecode

  // ---------------------------------------------------------------------------------------------
  // Every answer of every run is certified
  // ---------------------------------------------------------------------------------------------

  predicate Stamped(e: Entry) {
    e.generation > 0 && e.sealedAt.Some?
  }

  predicate LoadStamped(l: Load) {
    l.done.Some? ==>
      && Stamped(l.done.value) && l.done.value.sealedAt == Some(l.startedAt)
      && (l.done.value.sealedBefore.Some? <==> l.spec.seal.Some?)
  }

  /** The suffix scan proved more than its prefix did. */
  ghost predicate IsPromoted(c: Config, x: Suffix, observedAt: int)
    requires x.prefix.sealedBefore.Some? && x.prefix.sealedAt.Some?
  {
    PromotedBound(c, x.spec, x.prefix, x.bound, x.startedAt, observedAt).Some?
  }

  ghost predicate SuffixStamped(c: Config, x: Suffix) {
    && Stamped(x.prefix) && x.prefix.sealedBefore.Some?
    && (x.done.Some? ==>
          && Stamped(x.done.value) && x.done.value.sealedBefore.Some?
          && x.done.value.sealedAt
             == if IsPromoted(c, x, x.done.value.observedAt) then Some(x.startedAt) else x.prefix.sealedAt)
  }

  ghost predicate StampsInv(c: Config, s: System) {
    && (forall e | e in s.installed :: Stamped(e) && e.sealedBefore.Some?)
    && (s.sealed.Some? ==> s.sealed.value in s.installed)
    && (forall k | k in s.loads :: LoadStamped(s.loads[k]))
    && (forall k | k in s.suffixes :: SuffixStamped(c, s.suffixes[k]))
    && (forall i | 0 <= i < |s.answers| :: Certified(c, s.answers[i]))
  }

  lemma LoadAnswerIsCertified(c: Config, l: Load, spec: Spec)
    requires ValidConfig(c) && LoadStamped(l) && l.done.Some? && AnswerOfLoad(c, spec, l.done.value).Some?
    ensures Certified(c, Answer(spec, AnswerOfLoad(c, spec, l.done.value).value, false, l.before, l.since))
  {
  }

  lemma SuffixAnswerIsCertified(c: Config, x: Suffix, spec: Spec, prefix: Entry)
    requires ValidConfig(c) && SuffixStamped(c, x) && x.done.Some? && spec.seal.Some? && prefix.sealedAt.Some?
    ensures Certified(c, Answer(spec, AnswerOfSuffix(c, spec, prefix, x.bound, x.done.value), true, x.before, x.since))
  {
  }

  /** A prefix sealed to the window's end is returned whole; the window's end bounds every request. */
  lemma SealedAnswerIsCertified(c: Config, e: Entry, spec: Spec, clock: int, visible: map<nat, Segment>)
    requires ValidConfig(c) && ValidSpec(c, spec) && Stamped(e)
    requires ReuseBound(c, spec, e).Some? && ReuseBound(c, spec, e).value >= c.windowEnd
    ensures Certified(c, Answer(spec, e, true, visible, clock))
  {
  }

  predicate IsAnswer(a: Action) {
    a.AnswerLoad? || a.AnswerSuffix? || a.AnswerSealed?
  }

  lemma AnswerStamps(c: Config, s: System, a: Action)
    requires ValidConfig(c) && StampsInv(c, s) && Enabled(c, s, a) && IsAnswer(a)
    ensures StampsInv(c, Next(c, s, a))
  {
    match a
    case AnswerLoad(k, spec) => LoadAnswerIsCertified(c, s.loads[k], spec);
    case AnswerSuffix(k, spec, prefix) => SuffixAnswerIsCertified(c, s.suffixes[k], spec, prefix);
    case AnswerSealed(spec) => SealedAnswerIsCertified(c, s.sealed.value, spec, s.world.clock, s.world.visible);
  }

  lemma FinishLoadStamps(c: Config, s: System, a: Action)
    requires StampsInv(c, s) && Enabled(c, s, a) && a.FinishLoad?
    ensures StampsInv(c, Next(c, s, a))
  {
  }

  lemma FinishSuffixStamps(c: Config, s: System, a: Action)
    requires StampsInv(c, s) && Enabled(c, s, a) && a.FinishSuffix?
    ensures StampsInv(c, Next(c, s, a))
  {
  }

  lemma OtherStamps(c: Config, s: System, a: Action)
    requires StampsInv(c, s) && Enabled(c, s, a) && !IsAnswer(a) && !a.FinishLoad? && !a.FinishSuffix?
    ensures StampsInv(c, Next(c, s, a))
  {
  }

  lemma {:induction false} RunStamps(c: Config, clock: int, run: seq<Action>)
    requires ValidConfig(c) && IsRun(c, clock, run)
    ensures StampsInv(c, After(c, clock, run))
    decreases |run|
  {
    if run != [] {
      var before, last := run[..|run| - 1], run[|run| - 1];
      RunStamps(c, clock, before);
      var s := After(c, clock, before);
      if IsAnswer(last) {
        AnswerStamps(c, s, last);
      } else if last.FinishLoad? {
        FinishLoadStamps(c, s, last);
      } else if last.FinishSuffix? {
        FinishSuffixStamps(c, s, last);
      } else {
        OtherStamps(c, s, last);
      }
    }
  }

  // ---------------------------------------------------------------------------------------------
  // Exactly when a sealing request is answered acceptably
  // ---------------------------------------------------------------------------------------------

  /**
   In every run, with any readings: the answer to a strong request that asked for a seal is accepted
   exactly when its two readings are in order, at any time of receipt.
   */
  lemma {:induction false} SealingAnswerIsAcceptedIff(c: Config, clock: int, run: seq<Action>, i: nat, request: Request,
                                                      receivedAt: int, maxAge: int)
    requires ValidConfig(c) && IsRun(c, clock, run) && i < |After(c, clock, run).answers|
    requires request.strong && request.seal.Some? && ToSpec(c, request) == Ok(After(c, clock, run).answers[i].spec)
    ensures var a := After(c, clock, run).answers[i];
            Decode(c, request, Respond(a.spec, a.entry, a.retained), receivedAt, maxAge, request.horizon).Ok?
            <==> InOrder(a.entry)
  {
    RunInv(c, clock, run);
    RunStamps(c, clock, run);
    var s := After(c, clock, run);
    assert AnswerOk(c, s.world, s.answers[i]) && Certified(c, s.answers[i]);
    CertifiedIsAcceptedIff(c, request, s.answers[i], receivedAt, maxAge);
  }

  /**
   A waiter of a load is answered acceptably exactly when its answer carries no seal or the load's
   finish reading is not below its start reading.
   */
  lemma {:induction false} LoadIsAcceptedIff(c: Config, clock: int, run: seq<Action>, k: nat, request: Request,
                                             receivedAt: int, maxAge: int)
    requires ValidConfig(c) && IsRun(c, clock, run) && request.strong && request.seal.Some? && ToSpec(c, request).Ok?
    requires Enabled(c, After(c, clock, run), AnswerLoad(k, ToSpec(c, request).value))
    ensures var load := After(c, clock, run).loads[k];
            var spec := ToSpec(c, request).value;
            var entry := AnswerOfLoad(c, spec, load.done.value).value;
            Decode(c, request, Respond(spec, entry, false), receivedAt, maxAge, request.horizon).Ok?
            <==> entry.sealedBefore.None? || load.startedAt <= load.done.value.observedAt
  {
    RunInv(c, clock, run);
    RunStamps(c, clock, run);
    var s := After(c, clock, run);
    var spec, load := ToSpec(c, request).value, s.loads[k];
    assert LoadOk(c, s.world, load) && LoadStamped(load);
    LoadAnswerIsOk(c, s.world, load, spec);
    LoadAnswerIsCertified(c, load, spec);
    CertifiedIsAcceptedIff(c, request, Answer(spec, AnswerOfLoad(c, spec, load.done.value).value, false, load.before, load.since),
                           receivedAt, maxAge);
  }

  /**
   A waiter of a suffix scan is answered acceptably exactly when the scan promoted the seal or its
   finish reading is not below the reading that proves the prefix.
   */
  lemma {:induction false} SuffixIsAcceptedIff(c: Config, clock: int, run: seq<Action>, k: nat, prefix: Entry,
                                               request: Request, receivedAt: int, maxAge: int)
    requires ValidConfig(c) && IsRun(c, clock, run) && request.strong && request.seal.Some? && ToSpec(c, request).Ok?
    requires Enabled(c, After(c, clock, run), AnswerSuffix(k, ToSpec(c, request).value, prefix))
    ensures var x := After(c, clock, run).suffixes[k];
            var spec := ToSpec(c, request).value;
            var entry := AnswerOfSuffix(c, spec, prefix, x.bound, x.done.value);
            && x.prefix.sealedBefore.Some? && x.prefix.sealedAt.Some?
            && (Decode(c, request, Respond(spec, entry, true), receivedAt, maxAge, request.horizon).Ok?
                <==> IsPromoted(c, x, x.done.value.observedAt) || x.prefix.sealedAt.value <= x.done.value.observedAt)
  {
    var answer := AnswerSuffix(k, ToSpec(c, request).value, prefix);
    Extend(c, clock, run, answer);
    RunStamps(c, clock, run);
    var s := After(c, clock, run);
    assert SuffixStamped(c, s.suffixes[k]);
    assert After(c, clock, run + [answer]).answers[|s.answers|].spec == answer.spec;
    SealingAnswerIsAcceptedIff(c, clock, run + [answer], |s.answers|, request, receivedAt, maxAge);
  }

  // ---------------------------------------------------------------------------------------------
  // Readings that do not go back
  // ---------------------------------------------------------------------------------------------

  /** The clock reading the broker takes in a step. */
  function Reading(a: Action): Option<int> {
    match a
    case StartLoad(_, _, reading) => Some(reading)
    case FinishLoad(_, _, reading) => Some(reading)
    case StartSuffix(_, _, _, reading) => Some(reading)
    case FinishSuffix(_, _, reading) => Some(reading)
    case _ => None
  }

  predicate NotAfter(run: seq<Action>, latest: int) {
    forall i | 0 <= i < |run| && Reading(run[i]).Some? :: Reading(run[i]).value <= latest
  }

  /** Along the run the broker's readings do not go back; they may lag behind the store's time by any amount. */
  predicate ReadingsInOrder(run: seq<Action>) {
    forall i, j | 0 <= i < j < |run| && Reading(run[i]).Some? && Reading(run[j]).Some? ::
      Reading(run[i]).value <= Reading(run[j]).value
  }

  /** All readings in an entry are in order and at most `latest`. */
  predicate Dated(e: Entry, latest: int) {
    e.sealedAt.Some? && e.sealedAt.value <= e.observedAt <= latest
  }

  ghost predicate DatesInv(s: System, latest: int) {
    && (forall e | e in s.installed :: Dated(e, latest))
    && (s.sealed.Some? ==> s.sealed.value in s.installed)
    && (forall k | k in s.loads :: s.loads[k].startedAt <= latest && (s.loads[k].done.Some? ==> Dated(s.loads[k].done.value, latest)))
    && (forall k | k in s.suffixes ::
          && s.suffixes[k].startedAt <= latest && Dated(s.suffixes[k].prefix, latest)
          && (s.suffixes[k].done.Some? ==> Dated(s.suffixes[k].done.value, latest)))
    && (forall i | 0 <= i < |s.answers| :: InOrder(s.answers[i].entry))
  }

  lemma FinishLoadDates(c: Config, s: System, a: Action)
    requires a.FinishLoad? && DatesInv(s, a.reading) && Enabled(c, s, a)
    ensures DatesInv(Next(c, s, a), a.reading)
  {
  }

  lemma FinishSuffixDates(c: Config, s: System, a: Action)
    requires a.FinishSuffix? && DatesInv(s, a.reading) && Enabled(c, s, a)
    ensures DatesInv(Next(c, s, a), a.reading)
  {
  }

  lemma OtherDates(c: Config, s: System, a: Action, latest: int)
    requires DatesInv(s, latest) && Enabled(c, s, a) && !a.FinishLoad? && !a.FinishSuffix?
    requires Reading(a).Some? ==> Reading(a).value <= latest
    ensures DatesInv(Next(c, s, a), latest)
  {
  }

  lemma {:induction false} RunDates(c: Config, clock: int, run: seq<Action>, latest: int)
    requires IsRun(c, clock, run) && ReadingsInOrder(run) && NotAfter(run, latest)
    ensures DatesInv(After(c, clock, run), latest)
    decreases |run|
  {
    if run != [] {
      var before, last := run[..|run| - 1], run[|run| - 1];
      var at := if Reading(last).Some? then Reading(last).value else latest;
      RunDates(c, clock, before, at);
      var s := After(c, clock, before);
      if last.FinishLoad? {
        FinishLoadDates(c, s, last);
      } else if last.FinishSuffix? {
        FinishSuffixDates(c, s, last);
      } else {
        OtherDates(c, s, last, at);
      }
    }
  }

  lemma {:induction false} LatestExists(run: seq<Action>) returns (latest: int)
    ensures NotAfter(run, latest)
    decreases |run|
  {
    latest := 0;
    if run != [] {
      latest := LatestExists(run[..|run| - 1]);
      var last := Reading(run[|run| - 1]);
      latest := if last.Some? then Max(latest, last.value) else latest;
    }
  }

  /**
   Whatever the cache did, and however slow the broker's clock is, if its readings do not go back a
   strong request that asked for a seal gets a response its validator accepts, at any time of receipt.
   */
  lemma {:induction false} SealedRequestsAreAccepted(c: Config, clock: int, run: seq<Action>, i: nat, request: Request,
                                                     receivedAt: int, maxAge: int)
    requires ValidConfig(c) && IsRun(c, clock, run) && ReadingsInOrder(run) && i < |After(c, clock, run).answers|
    requires request.strong && request.seal.Some? && ToSpec(c, request) == Ok(After(c, clock, run).answers[i].spec)
    ensures var a := After(c, clock, run).answers[i];
            Decode(c, request, Respond(a.spec, a.entry, a.retained), receivedAt, maxAge, request.horizon).Ok?
  {
    var latest := LatestExists(run);
    RunDates(c, clock, run, latest);
    SealingAnswerIsAcceptedIff(c, clock, run, i, request, receivedAt, maxAge);
  }

  /** In every run, whatever a consumer accepts is its projection of one plain scan from its own floor. */
  lemma ConsumerReadsAPlainScan(c: Config, clock: int, run: seq<Action>, i: nat, request: Request, receivedAt: int, maxAge: int)
    returns (scan: seq<Segment>, kept: seq<nat>)
    requires ValidConfig(c) && IsRun(c, clock, run) && i < |After(c, clock, run).answers|
    requires ToSpec(c, request) == Ok(After(c, clock, run).answers[i].spec)
    ensures var a := After(c, clock, run).answers[i];
            && IsScan(scan, Floor(a.spec), a.before, After(c, clock, run).world.visible)
            && var decoded := Decode(c, request, Respond(a.spec, a.entry, a.retained), receivedAt, maxAge, request.horizon);
               decoded.Ok? ==> Shows(a.spec, scan, decoded.value.rows, kept)
  {
    var a := After(c, clock, run).answers[i];
    StrongAnswersAreScans(c, clock, run, i);
    scan := From(a.entry.segments, Floor(a.spec));
    CoversItself(Floor(a.spec));
    ProjectionIgnoresExtraRows(a.spec, a.entry.segments, Floor(a.spec));
    kept := ProjectionShows(a.spec, scan);
  }

  lemma CoversItself(floor: Option<nat>)
    ensures Covers(floor, floor)
  {
  }

  // ---------------------------------------------------------------------------------------------
  // Refused answers
  // ---------------------------------------------------------------------------------------------

  /** A load of an empty window that was asked for a seal, with its two readings. */
  lemma SealingLoad(c: Config, clock: int, sealing: Spec, startedAt: int, finishedAt: int) returns (run: seq<Action>)
    requires ValidConfig(c) && ValidSpec(c, sealing) && startedAt <= clock && finishedAt <= clock
    ensures IsRun(c, clock, run)
    ensures var loads := After(c, clock, run).loads;
            0 in loads && loads[0].spec == sealing && loads[0].startedAt == startedAt
            && loads[0].done == Some(LoadedEntry(c, sealing, [], startedAt, finishedAt, 1))
    ensures var s := After(c, clock, run);
            && s.world == World(clock, map[]) && s.suffixes == map[]
            && s.sealed == InstallLoaded(c, None, sealing, LoadedEntry(c, sealing, [], startedAt, finishedAt, 1))
            && (s.sealed.Some? ==> s.sealed.value in s.installed)
  {
    var start, finish := StartLoad(0, sealing, startedAt), FinishLoad(0, [], finishedAt);
    Extend(c, clock, [], start);
    assert [] + [start] == [start] && [start][..0] == [];
    Extend(c, clock, [start], finish);
    run := [start] + [finish];
    assert run[..1] == [start];
  }

  /**
   The order of the readings is needed: for every pair of readings that go back there is a run, with
   no other fault, in which a strong request that asked for a seal is refused.
   */
  lemma {:induction false} ClockThatGoesBackIsRefused(c: Config, clock: int, startedAt: int, finishedAt: int,
                                                      receivedAt: int, maxAge: int)
    returns (run: seq<Action>, request: Request)
    requires ValidConfig(c) && finishedAt < startedAt <= clock
    ensures IsRun(c, clock, run) && request.strong && request.seal.Some? && ToSpec(c, request).Ok?
    ensures Enabled(c, After(c, clock, run), AnswerLoad(0, ToSpec(c, request).value))
    ensures After(c, clock, run).loads[0].startedAt == startedAt && After(c, clock, run).loads[0].done.value.observedAt == finishedAt
    ensures var spec := ToSpec(c, request).value;
            var entry := AnswerOfLoad(c, spec, After(c, clock, run).loads[0].done.value).value;
            Decode(c, request, Respond(spec, entry, false), receivedAt, maxAge, request.horizon).Err?
  {
    run := SealingLoad(c, clock, Spec({0}, None, Some(c.windowEnd), 0), startedAt, finishedAt);
    request := Request(true, FullRecovery([0]), Some(c.windowEnd), 0);
    assert SetOf([0]) == {0};
    LoadIsAcceptedIff(c, clock, run, 0, request, receivedAt, maxAge);
  }

  /** A suffix scan of an empty window behind a prefix that was loaded and proved at `provedAt`. */
  lemma SealingSuffix(c: Config, clock: int, sealing: Spec, provedAt: int, startedAt: int, finishedAt: int)
    returns (run: seq<Action>, prefix: Entry)
    requires ValidConfig(c) && ValidSpec(c, sealing) && provedAt <= clock && startedAt <= clock && finishedAt <= clock
    requires sealing.bounds.None? && sealing.seal == Some(c.windowEnd) && Safe(c, provedAt, Horizon(c, sealing)) < c.windowEnd
    ensures IsRun(c, clock, run) && Enabled(c, After(c, clock, run), AnswerSuffix(0, sealing, prefix))
    ensures var x := After(c, clock, run).suffixes[0];
            x.prefix == prefix && prefix.sealedAt == Some(provedAt) && x.done.value.observedAt == finishedAt
  {
    var load := SealingLoad(c, clock, sealing, provedAt, provedAt);
    var s := After(c, clock, load);
    prefix := s.sealed.value;
    var start, finish := StartSuffix(0, sealing, prefix, startedAt), FinishSuffix(0, [], finishedAt);
    Extend(c, clock, load, start);
    Extend(c, clock, load + [start], finish);
    run := load + [start] + [finish];
  }

  /** The same for a suffix scan whose finish reading is below the reading that proves its prefix. */
  lemma {:induction false} SuffixThatGoesBackIsRefused(c: Config, clock: int, provedAt: int, startedAt: int, finishedAt: int,
                                                       receivedAt: int, maxAge: int)
    returns (run: seq<Action>, prefix: Entry, request: Request)
    requires ValidConfig(c) && finishedAt < provedAt <= clock && startedAt <= clock
    requires Safe(c, provedAt, Max(0, c.lag)) < c.windowEnd
    ensures IsRun(c, clock, run) && request.strong && request.seal.Some? && ToSpec(c, request).Ok?
    ensures Enabled(c, After(c, clock, run), AnswerSuffix(0, ToSpec(c, request).value, prefix))
    ensures var x := After(c, clock, run).suffixes[0];
            prefix.sealedAt == Some(provedAt) && x.done.value.observedAt == finishedAt
    ensures var spec := ToSpec(c, request).value;
            var x := After(c, clock, run).suffixes[0];
            Decode(c, request, Respond(spec, AnswerOfSuffix(c, spec, prefix, x.bound, x.done.value), true),
                   receivedAt, maxAge, request.horizon).Err?
  {
    run, prefix := SealingSuffix(c, clock, Spec({0}, None, Some(c.windowEnd), 0), provedAt, startedAt, finishedAt);
    request := Request(true, FullRecovery([0]), Some(c.windowEnd), 0);
    assert SetOf([0]) == {0};
    SuffixIsAcceptedIff(c, clock, run, 0, prefix, request, receivedAt, maxAge);
  }

  /**
   A strong request without a seal is accepted exactly when the refill it joined was started by a
   request without one, whatever the readings; joining a sealing refill brings a seal that the
   validator refuses.
   */
  lemma UnsealedJoinerIsAcceptedIff(c: Config, clock: int, run: seq<Action>, k: nat, request: Request, receivedAt: int, maxAge: int)
    requires ValidConfig(c) && IsRun(c, clock, run)
    requires request.strong && request.seal.None? && ToSpec(c, request).Ok?
    requires Enabled(c, After(c, clock, run), AnswerLoad(k, ToSpec(c, request).value))
    ensures var load := After(c, clock, run).loads[k];
            var spec := ToSpec(c, request).value;
            var entry := AnswerOfLoad(c, spec, load.done.value).value;
            Decode(c, request, Respond(spec, entry, false), receivedAt, maxAge, request.horizon).Ok? <==> load.spec.seal.None?
  {
    RunInv(c, clock, run);
    RunStamps(c, clock, run);
    var s := After(c, clock, run);
    var spec, load := ToSpec(c, request).value, s.loads[k];
    assert LoadOk(c, s.world, load) && LoadStamped(load);
    LoadAnswerIsOk(c, s.world, load, spec);
    LoadAnswerIsCertified(c, load, spec);
    UnsealedIsAcceptedIff(c, request, Answer(spec, AnswerOfLoad(c, spec, load.done.value).value, false, load.before, load.since),
                          receivedAt, maxAge);
  }

  /** A request without a seal that joins a sealing refill of an empty window is refused. */
  lemma {:induction false} UnsealedJoinerCanBeRefused(c: Config, clock: int, receivedAt: int, maxAge: int)
    returns (run: seq<Action>, request: Request)
    requires ValidConfig(c)
    ensures IsRun(c, clock, run) && request.strong && request.seal.None?
    ensures ToSpec(c, request).Ok? && Enabled(c, After(c, clock, run), AnswerLoad(0, ToSpec(c, request).value))
    ensures var spec := ToSpec(c, request).value;
            var entry := AnswerOfLoad(c, spec, After(c, clock, run).loads[0].done.value).value;
            Decode(c, request, Respond(spec, entry, false), receivedAt, maxAge, request.horizon).Err?
  {
    run := SealingLoad(c, clock, Spec({0}, None, Some(c.windowEnd), 0), clock, clock);
    request := Request(true, FullRecovery([0]), None, 0);
    assert SetOf([0]) == {0};
    UnsealedJoinerIsAcceptedIff(c, clock, run, 0, request, receivedAt, maxAge);
  }
}
