/**
 The scheduler's locked passes over the write state: selecting one flush plan and recording its
 completion. Each pass is proved to be one step of the flush pipeline.
 */
module FlushScheduler {
  import opened Numeric
  import opened LeaseStore
  import opened FlushPipeline
  import opened FlushInvariants


  datatype Trigger = MaxBytes | MaxDelay | LeaseDrain

  datatype Buffered = Buffered(id: nat, fence: Option<Fence>)

  datatype PartState = PartState(
    batches: seq<Buffered>,
    bytes: u64,
    firstAt: Option<int>,
    tail: Option<nat>,
    outstanding: nat,
    draining: bool)

  datatype FlushConfig = FlushConfig(maxBytes: u64, maxDelay: int)

  /** One topic's share of a plan: the epochs taken for its partitions. */
  datatype Section = Section(trigger: Trigger, members: seq<nat>)

  function Ids(batches: seq<Buffered>): seq<nat> {
    seq(|batches|, i requires 0 <= i < |batches| => batches[i].id)
  }

  function PartView(p: PartState): Part {
    Part(Ids(p.batches), p.tail, p.outstanding)
  }

  function PartViews(parts: map<Key, PartState>): map<Key, Part> {
    map key | key in parts :: PartView(parts[key])
  }

  lemma UpdateView(parts: map<Key, PartState>, key: Key, p: PartState)
    ensures PartViews(parts[key := p]) == PartViews(parts)[key := PartView(p)]
  {
  }

  predicate IsTimeDue(p: PartState, now: int, config: FlushConfig) {
    p.firstAt.Some? && now >= p.firstAt.value + config.maxDelay
  }

  function TriggerOf(p: PartState, now: int, config: FlushConfig): Option<Trigger> {
    if p.draining then Some(LeaseDrain)
    else if IsTimeDue(p, now, config) then Some(MaxDelay)
    else if p.batches == [] then None
    else if p.bytes >= config.maxBytes then Some(MaxBytes)
    else None
  }

  /** Every batch carries the same lease fence. */
  predicate OneFence(batches: seq<Buffered>) {
    batches != [] && batches[0].fence.Some? && forall b | b in batches :: b.fence == batches[0].fence
  }

  /** A flush that needs one fence takes only batches that share one. */
  predicate Takes(part: PartState, requireFence: bool) {
    part.batches != [] && (requireFence ==> OneFence(part.batches))
  }

  function Emptied(part: PartState): PartState {
    part.(batches := [], bytes := 0, firstAt := None)
  }

  /** A partition that was offered to a plan whose next epoch has number `e`. */
  function Offered(part: PartState, requireFence: bool, e: nat): PartState {
    if Takes(part, requireFence) then Emptied(part).(tail := Some(e), outstanding := part.outstanding + 1) else Emptied(part)
  }

  /** Every tail names an epoch. */
  predicate TailsExist(parts: map<Key, PartState>, epochs: seq<Epoch>) {
    forall key | key in parts && parts[key].tail.Some? :: parts[key].tail.value < |epochs|
  }

  /** The partition has work that this trigger may take now. */
  predicate Wanted(parts: map<Key, PartState>, epochs: seq<Epoch>, key: Key, trigger: Trigger) {
    && key in parts && parts[key].batches != []
    && !(trigger == MaxDelay && parts[key].draining)
    && (parts[key].tail.Some? && parts[key].tail.value < |epochs| ==> epochs[parts[key].tail.value].phase != Pending)
  }

  /** An epoch of the plan under construction holds exactly what the partition had buffered. */
  predicate IsTaken(before: map<Key, PartState>, first: nat, epochs: seq<Epoch>, key: Key)
    requires key in before
  {
    exists e | first <= e < |epochs| :: epochs[e].key == key && epochs[e].batches == Ids(before[key].batches)
  }

  /** The partition's work was taken into the plan, or dropped for want of a single fence. */
  predicate Resolved(before: map<Key, PartState>, parts: map<Key, PartState>, first: nat, epochs: seq<Epoch>, key: Key,
                     fenced: bool)
    requires key in before && key in parts
  {
    parts[key].batches == [] && (Takes(before[key], fenced) ==> IsTaken(before, first, epochs, key))
  }

  /** A partition is as it was, or has been emptied. */
  predicate Kept(before: map<Key, PartState>, parts: map<Key, PartState>) {
    && parts.Keys == before.Keys
    && forall key | key in before ::
         && parts[key].draining == before[key].draining
         && (parts[key] == before[key] || (parts[key].batches == [] && parts[key].firstAt.None?))
  }

  /** The wanted partitions among `keys` are resolved, and no other partition has changed. */
  ghost predicate Swept(before: map<Key, PartState>, epochs0: seq<Epoch>, parts: map<Key, PartState>, epochs: seq<Epoch>,
                        keys: seq<Key>, trigger: Trigger, fenced: bool)
  {
    && parts.Keys == before.Keys && epochs0 <= epochs
    && (forall key | key in keys && Wanted(before, epochs0, key, trigger) ::
          Resolved(before, parts, |epochs0|, epochs, key, fenced))
    && (forall key | key in before && key !in keys :: parts[key] == before[key])
    && (forall key | key in before && !Wanted(before, epochs0, key, trigger) ::
          parts[key] == before[key] || (before[key].batches == [] && parts[key] == Emptied(before[key])))
    && Kept(before, parts)
    && (forall e | |epochs0| <= e < |epochs| ::
          && epochs[e].key in keys && Wanted(before, epochs0, epochs[e].key, trigger) && Takes(before[epochs[e].key], fenced)
          && epochs[e].batches == Ids(before[epochs[e].key].batches))
  }

  lemma SweepSkips(before: map<Key, PartState>, epochs0: seq<Epoch>, parts: map<Key, PartState>, epochs: seq<Epoch>,
                   keys: seq<Key>, key: Key, trigger: Trigger, fenced: bool)
    requires Swept(before, epochs0, parts, epochs, keys, trigger, fenced) && TailsExist(before, epochs0)
    requires key !in parts || (trigger == MaxDelay && parts[key].draining) || TailIsPending(parts, epochs, key)
    ensures Swept(before, epochs0, parts, epochs, keys + [key], trigger, fenced)
  {
  }

  lemma SweepOffers(before: map<Key, PartState>, epochs0: seq<Epoch>, parts: map<Key, PartState>, epochs: seq<Epoch>,
                    keys: seq<Key>, key: Key, trigger: Trigger, fenced: bool, epochs': seq<Epoch>)
    requires Swept(before, epochs0, parts, epochs, keys, trigger, fenced) && TailsExist(before, epochs0)
    requires key in parts && !(trigger == MaxDelay && parts[key].draining) && !TailIsPending(parts, epochs, key)
    requires epochs <= epochs'
    requires Takes(parts[key], fenced) ==>
               |epochs'| == |epochs| + 1 && epochs'[|epochs|].key == key && epochs'[|epochs|].batches == Ids(parts[key].batches)
    requires !Takes(parts[key], fenced) ==> epochs' == epochs
    ensures Swept(before, epochs0, parts[key := Offered(parts[key], fenced, |epochs|)], epochs', keys + [key], trigger, fenced)
  {
    OfferResolves(before, epochs0, parts, epochs, keys, key, trigger, fenced, epochs');
    OfferLeavesUnwanted(before, epochs0, parts, epochs, keys, key, trigger, fenced);
    OfferTakesWanted(before, epochs0, parts, epochs, keys, key, trigger, fenced);
    OfferAddsWanted(before, epochs0, parts, epochs, keys, key, trigger, fenced, epochs');
  }

  lemma OfferResolves(before: map<Key, PartState>, epochs0: seq<Epoch>, parts: map<Key, PartState>, epochs: seq<Epoch>,
                      keys: seq<Key>, key: Key, trigger: Trigger, fenced: bool, epochs': seq<Epoch>)
    requires Swept(before, epochs0, parts, epochs, keys, trigger, fenced) && key in parts && epochs <= epochs'
    requires Takes(parts[key], fenced) ==>
               |epochs'| == |epochs| + 1 && epochs'[|epochs|].key == key && epochs'[|epochs|].batches == Ids(parts[key].batches)
    ensures forall k | k in keys + [key] && Wanted(before, epochs0, k, trigger) ::
              Resolved(before, parts[key := Offered(parts[key], fenced, |epochs|)], |epochs0|, epochs', k, fenced)
  {
    var parts' := parts[key := Offered(parts[key], fenced, |epochs|)];
    forall k | k in keys + [key] && Wanted(before, epochs0, k, trigger)
      ensures Resolved(before, parts', |epochs0|, epochs', k, fenced)
    {
      if k in keys {
        TakenLasts(before, |epochs0|, epochs, epochs', k);
      } else if Takes(before[k], fenced) {
        assert epochs'[|epochs|].key == k && epochs'[|epochs|].batches == Ids(before[k].batches);
      }
    }
  }

  lemma OfferAddsWanted(before: map<Key, PartState>, epochs0: seq<Epoch>, parts: map<Key, PartState>, epochs: seq<Epoch>,
                        keys: seq<Key>, key: Key, trigger: Trigger, fenced: bool, epochs': seq<Epoch>)
    requires Swept(before, epochs0, parts, epochs, keys, trigger, fenced) && key in parts && epochs <= epochs'
    requires Takes(parts[key], fenced) ==>
               && |epochs'| == |epochs| + 1 && epochs'[|epochs|].key == key && epochs'[|epochs|].batches == Ids(parts[key].batches)
               && parts[key] == before[key] && Wanted(before, epochs0, key, trigger)
    requires !Takes(parts[key], fenced) ==> epochs' == epochs
    ensures forall e | |epochs0| <= e < |epochs'| ::
              && epochs'[e].key in keys + [key] && Wanted(before, epochs0, epochs'[e].key, trigger)
              && Takes(before[epochs'[e].key], fenced) && epochs'[e].batches == Ids(before[epochs'[e].key].batches)
  {
    forall e | |epochs0| <= e < |epochs'|
      ensures && epochs'[e].key in keys + [key] && Wanted(before, epochs0, epochs'[e].key, trigger)
              && Takes(before[epochs'[e].key], fenced) && epochs'[e].batches == Ids(before[epochs'[e].key].batches)
    {
      if e < |epochs| {
        assert epochs'[e] == epochs[e];
      }
    }
  }

  /** What an offer takes was wanted at the start, and had not been touched since. */
  lemma OfferTakesWanted(before: map<Key, PartState>, epochs0: seq<Epoch>, parts: map<Key, PartState>, epochs: seq<Epoch>,
                         keys: seq<Key>, key: Key, trigger: Trigger, fenced: bool)
    requires Swept(before, epochs0, parts, epochs, keys, trigger, fenced) && TailsExist(before, epochs0)
    requires key in parts && !(trigger == MaxDelay && parts[key].draining) && !TailIsPending(parts, epochs, key)
    ensures Takes(parts[key], fenced) ==> parts[key] == before[key] && Wanted(before, epochs0, key, trigger)
    ensures Kept(before, parts[key := Offered(parts[key], fenced, |epochs|)])
  {
  }

  lemma OfferLeavesUnwanted(before: map<Key, PartState>, epochs0: seq<Epoch>, parts: map<Key, PartState>, epochs: seq<Epoch>,
                            keys: seq<Key>, key: Key, trigger: Trigger, fenced: bool)
    requires Swept(before, epochs0, parts, epochs, keys, trigger, fenced) && TailsExist(before, epochs0)
    requires key in parts && !(trigger == MaxDelay && parts[key].draining) && !TailIsPending(parts, epochs, key)
    ensures var parts' := parts[key := Offered(parts[key], fenced, |epochs|)];
            forall k | k in before && !Wanted(before, epochs0, k, trigger) ::
              parts'[k] == before[k] || (before[k].batches == [] && parts'[k] == Emptied(before[k]))
  {
  }

  lemma TakenLasts(before: map<Key, PartState>, first: nat, epochs: seq<Epoch>, epochs': seq<Epoch>, key: Key)
    requires key in before && epochs <= epochs'
    ensures IsTaken(before, first, epochs, key) ==> IsTaken(before, first, epochs', key)
  {
    if IsTaken(before, first, epochs, key) {
      var e :| first <= e < |epochs| && epochs[e].key == key && epochs[e].batches == Ids(before[key].batches);
      assert epochs'[e].key == key;
    }
  }

  predicate TailIsPending(parts: map<Key, PartState>, epochs: seq<Epoch>, key: Key)
    requires key in parts
  {
    parts[key].tail.Some? && parts[key].tail.value < |epochs| && epochs[parts[key].tail.value].phase == Pending
  }

  /** One partition of a pass: what its trigger is, once a shared time flush pulls buffered peers in. */
  function PassTrigger(part: PartState, sharedTime: bool, now: int, config: FlushConfig): Option<Trigger> {
    if sharedTime && !part.draining && part.batches != [] then Some(MaxDelay) else TriggerOf(part, now, config)
  }

  // ---------------------------------------------------------------------------------------------
  // What a flush looks for, on the fields
  // ---------------------------------------------------------------------------------------------

  /** The partition has work that may join a plan: its tail has its identity, and fenced work has one fence. */
  predicate MayTake(part: PartState, epochs: seq<Epoch>, fenced: bool) {
    && part.batches != []
    && (part.tail.Some? && part.tail.value < |epochs| ==> epochs[part.tail.value].phase != Pending)
    && (fenced ==> part.batches[0].fence.Some? && forall b | b in part.batches :: b.fence == part.batches[0].fence)
  }

  predicate HasReachedDelay(part: PartState, now: int, config: FlushConfig) {
    !part.draining && part.firstAt.Some? && now >= part.firstAt.value + config.maxDelay
  }

  ghost predicate SomeReachedDelay(parts: map<Key, PartState>, sorted: seq<Key>, now: int, config: FlushConfig) {
    exists key | key in sorted && key in parts :: HasReachedDelay(parts[key], now, config)
  }

  /** The partition is draining, is full, or some partition has reached its latency limit. */
  ghost predicate CallsForFlush(parts: map<Key, PartState>, sorted: seq<Key>, key: Key, now: int, config: FlushConfig)
    requires key in parts
  {
    parts[key].draining || parts[key].bytes >= config.maxBytes || SomeReachedDelay(parts, sorted, now, config)
  }

  lemma TriggerMeans(part: PartState, now: int, config: FlushConfig)
    ensures TriggerOf(part, now, config) == Some(MaxDelay) <==> HasReachedDelay(part, now, config)
    ensures TriggerOf(part, now, config).Some? <==>
              part.draining || HasReachedDelay(part, now, config) || (part.batches != [] && part.bytes >= config.maxBytes)
  {
  }

  /** The topic's partitions, in the global order. */
  function Peers(keys: seq<Key>, topic: string): (r: seq<Key>)
    ensures |r| <= |keys|
    ensures forall key :: key in r <==> key in keys && key.topic == topic
  {
    if keys == [] then []
    else if keys[0].topic == topic then [keys[0]] + Peers(keys[1..], topic)
    else Peers(keys[1..], topic)
  }

  predicate SectionOk(section: Section, topic: string, epochs: seq<Epoch>, first: nat, fenced: bool) {
    && section.members != []
    && (fenced ==> |section.members| <= MAX_FENCED_METADATA_PARTITIONS)
    && (forall i | 0 <= i < |section.members| ::
          first <= section.members[i] < |epochs| && epochs[section.members[i]].key.topic == topic)
    && (forall i, j | 0 <= i < j < |section.members| :: section.members[i] < section.members[j])
  }

  /** Each epoch from `first` on is in its own topic's section, once; each section fits one transaction. */
  predicate SectionsOk(sections: map<string, Section>, epochs: seq<Epoch>, first: nat, fenced: bool) {
    && (forall topic | topic in sections :: SectionOk(sections[topic], topic, epochs, first, fenced))
    && (forall e | first <= e < |epochs| ::
          epochs[e].key.topic in sections && e in sections[epochs[e].key.topic].members)
  }

  lemma SectionsUnchanged(sections: map<string, Section>, before: seq<Epoch>, epochs: seq<Epoch>, first: nat, fenced: bool)
    requires SectionsOk(sections, before, first, fenced) && before <= epochs && |epochs| == |before|
    ensures SectionsOk(sections, epochs, first, fenced)
  {
  }

  /** Taken epochs that all belong to one topic. */
  predicate TakenFor(before: seq<Epoch>, epochs: seq<Epoch>, topic: string, members: seq<nat>) {
    && before <= epochs && |epochs| == |before| + |members| && members != []
    && forall i | 0 <= i < |members| :: members[i] == |before| + i && epochs[members[i]].key.topic == topic
  }

  /** A section is filed only where there is none, so nothing is overwritten. */
  lemma NewSectionOk(sections: map<string, Section>, before: seq<Epoch>, epochs: seq<Epoch>, first: nat, fenced: bool,
                     topic: string, trigger: Trigger, members: seq<nat>)
    requires SectionsOk(sections, before, first, fenced) && first <= |before| && TakenFor(before, epochs, topic, members)
    requires topic !in sections && (fenced ==> |members| <= MAX_FENCED_METADATA_PARTITIONS)
    ensures SectionsOk(sections[topic := Section(trigger, members)], epochs, first, fenced)
  {
    SectionsAfter(sections, before, epochs, first, fenced, topic, Section(trigger, members), members);
  }

  lemma LongerSection(section: Section, before: seq<Epoch>, epochs: seq<Epoch>, first: nat, fenced: bool, topic: string,
                      members: seq<nat>)
    requires SectionOk(section, topic, before, first, fenced) && first <= |before| && TakenFor(before, epochs, topic, members)
    requires fenced ==> |section.members| + |members| <= MAX_FENCED_METADATA_PARTITIONS
    ensures SectionOk(section.(members := section.members + members), topic, epochs, first, fenced)
  {
  }

  lemma LongerSectionOk(sections: map<string, Section>, before: seq<Epoch>, epochs: seq<Epoch>, first: nat, fenced: bool,
                        topic: string, members: seq<nat>)
    requires SectionsOk(sections, before, first, fenced) && first <= |before| && TakenFor(before, epochs, topic, members)
    requires topic in sections
    requires fenced ==> |sections[topic].members| + |members| <= MAX_FENCED_METADATA_PARTITIONS
    ensures SectionsOk(sections[topic := sections[topic].(members := sections[topic].members + members)], epochs, first, fenced)
  {
    var longer := sections[topic].(members := sections[topic].members + members);
    LongerSection(sections[topic], before, epochs, first, fenced, topic, members);
    SectionsAfter(sections, before, epochs, first, fenced, topic, longer, members);
  }

  /** Replacing a topic's section by one that also holds the taken epochs. */
  lemma SectionsAfter(sections: map<string, Section>, before: seq<Epoch>, epochs: seq<Epoch>, first: nat, fenced: bool,
                      topic: string, section: Section, members: seq<nat>)
    requires SectionsOk(sections, before, first, fenced) && first <= |before| && TakenFor(before, epochs, topic, members)
    requires SectionOk(section, topic, epochs, first, fenced) && forall m | m in members :: m in section.members
    requires topic in sections ==> forall m | m in sections[topic].members :: m in section.members
    ensures SectionsOk(sections[topic := section], epochs, first, fenced)
  {
    var sections' := sections[topic := section];
    forall e | first <= e < |epochs|
      ensures epochs[e].key.topic in sections' && e in sections'[epochs[e].key.topic].members
    {
      if e >= |before| {
        assert members[e - |before|] == e;
        assert e in members;
      } else {
        assert before[e].key.topic in sections;
      }
    }
  }

  // ---------------------------------------------------------------------------------------------
  // What a pass does
  // ---------------------------------------------------------------------------------------------

  /** Offering a partition to the newest plan is one pick of the pipeline, or none when it has no work. */
  lemma OfferIsPick(s: Pipeline, parts: map<Key, PartState>, key: Key, requireFence: bool)
    requires s.parts == PartViews(parts) && s.plans != [] && key in parts && !TailIsPending(parts, s.epochs, key)
    ensures var part := parts[key];
            var offered := PartViews(parts[key := Offered(part, requireFence, |s.epochs|)]);
            if part.batches == [] then
              offered == s.parts
            else if Takes(part, requireFence) then
              CanPick(s, TakeUp(key)) && ApplyPick(s, TakeUp(key))
              == s.(parts := offered,
                    epochs := s.epochs + [Epoch(key, |s.plans| - 1, Ids(part.batches), part.tail, Pending, None, None)])
            else
              CanPick(s, DropOut(key)) && ApplyPick(s, DropOut(key))
              == s.(parts := offered, discarded := s.discarded + set b | b in Ids(part.batches))
  {
    var part := parts[key];
    UpdateView(parts, key, Offered(part, requireFence, |s.epochs|));
    assert Ids([]) == [];
  }

  /** The loop's state before `keys[i]` is offered. */
  /** The members are the epochs taken so far, in order, each for one of the keys. */
  predicate Numbered(first: nat, epochs: seq<Epoch>, keys: seq<Key>, i: nat, limit: nat, members: seq<nat>) {
    && |members| <= limit && |members| <= i && |epochs| == first + |members|
    && forall j | 0 <= j < |members| :: members[j] == first + j && epochs[members[j]].key in keys
  }

  lemma NumberedMore(first: nat, epochs: seq<Epoch>, epochs': seq<Epoch>, keys: seq<Key>, i: nat, limit: nat,
                     members: seq<nat>, taken: bool)
    requires Numbered(first, epochs, keys, i, limit, members) && i < |keys| && |members| < limit && epochs <= epochs'
    requires |epochs'| == if taken then |epochs| + 1 else |epochs|
    requires taken ==> epochs'[|epochs|].key == keys[i]
    ensures Numbered(first, epochs', keys, i + 1, limit, if taken then members + [|epochs|] else members)
  {
  }

  ghost predicate Taking(before: map<Key, PartState>, epochs0: seq<Epoch>, parts: map<Key, PartState>, epochs: seq<Epoch>,
                         keys: seq<Key>, i: nat, trigger: Trigger, limit: nat, fenced: bool, members: seq<nat>)
  {
    && i <= |keys| && Swept(before, epochs0, parts, epochs, keys[..i], trigger, fenced)
    && Numbered(|epochs0|, epochs, keys, i, limit, members)
  }

  /** What the first section of a plan makes of the plan: a shared time flush, or one topic's flush. */
  datatype Selection = Unselected | SharedTime | SingleTopic

  function SelectedBy(trigger: Trigger): Selection {
    if trigger == MaxDelay then SharedTime else SingleTopic
  }

  /** Different triggers cannot share a section, and a fenced section is full at its limit. */
  predicate RequiresNew(sections: map<string, Section>, topic: string, trigger: Trigger, fenced: bool) {
    || topic !in sections || sections[topic].trigger != trigger
    || (fenced && |sections[topic].members| == MAX_FENCED_METADATA_PARTITIONS)
  }

  predicate Joins(sections: map<string, Section>, selected: Selection, topic: string, trigger: Trigger, fenced: bool) {
    var requiresNew := RequiresNew(sections, topic, trigger, fenced);
    match selected
    case Unselected => true
    case SharedTime => trigger == MaxDelay && requiresNew && (!requiresNew || topic !in sections)
    case SingleTopic => !requiresNew
  }

  /** Without fencing there is no limit: a visit cannot take more partitions than there are. */
  function VisitLimit(sections: map<string, Section>, topic: string, trigger: Trigger, fenced: bool, count: nat): nat
    requires topic in sections && fenced ==> |sections[topic].members| <= MAX_FENCED_METADATA_PARTITIONS
  {
    if !fenced then count + 2
    else if RequiresNew(sections, topic, trigger, fenced) then MAX_FENCED_METADATA_PARTITIONS
    else MAX_FENCED_METADATA_PARTITIONS - |sections[topic].members|
  }

  /** The sections after a visit's members are filed under their topic. */
  function Filed(sections: map<string, Section>, topic: string, trigger: Trigger, fenced: bool, members: seq<nat>)
    : map<string, Section>
  {
    if RequiresNew(sections, topic, trigger, fenced) then sections[topic := Section(trigger, members)]
    else sections[topic := sections[topic].(members := sections[topic].members + members)]
  }

  lemma TakingMore(before: map<Key, PartState>, epochs0: seq<Epoch>, parts: map<Key, PartState>, epochs: seq<Epoch>,
                   parts': map<Key, PartState>, epochs': seq<Epoch>, keys: seq<Key>, i: nat, trigger: Trigger, limit: nat,
                   fenced: bool, members: seq<nat>, taken: bool)
    requires Taking(before, epochs0, parts, epochs, keys, i, trigger, limit, fenced, members) && i < |keys| && |members| < limit
    requires Swept(before, epochs0, parts', epochs', keys[..i] + [keys[i]], trigger, fenced) && epochs <= epochs'
    requires |epochs'| == if taken then |epochs| + 1 else |epochs|
    requires taken ==> epochs'[|epochs|].key == keys[i]
    ensures Taking(before, epochs0, parts', epochs', keys, i + 1, trigger, limit, fenced,
                   if taken then members + [|epochs|] else members)
  {
    NumberedMore(|epochs0|, epochs, epochs', keys, i, limit, members, taken);
    assert keys[..i + 1] == keys[..i] + [keys[i]];
  }

  /** The partitions a visit offers: all of the topic's for a time flush, otherwise the visited one. */
  function VisitKeys(key: Key, trigger: Trigger, sorted: seq<Key>): seq<Key> {
    if trigger == MaxDelay then Peers(sorted, key.topic) else [key]
  }

  /** What a visit does to the plan under construction. */
  predicate Visited(key: Key, trigger: Trigger, sorted: seq<Key>, fenced: bool, sections: map<string, Section>,
                    selected: Selection, sections': map<string, Section>, selected': Selection, swept: seq<Key>)
  {
    && (sections' == sections || (key.topic in sections' && sections' == sections[key.topic := sections'[key.topic]]))
    && (!selected.Unselected? ==> selected' == selected)
    && (forall t | t in sections :: sections'[t].trigger == sections[t].trigger)
    && (sections' != sections ==> key.topic in sections' && sections'[key.topic].trigger == trigger)
    && (key.topic in sections' && key.topic !in sections ==> (selected.Unselected? ==> selected' == SelectedBy(trigger)))
    && swept <= VisitKeys(key, trigger, sorted)
    && (selected.Unselected? || (selected == SharedTime && trigger == MaxDelay && key.topic !in sections) ==>
          || swept == VisitKeys(key, trigger, sorted)
          || (fenced && key.topic in sections' && |sections'[key.topic].members| == MAX_FENCED_METADATA_PARTITIONS))
    && (selected == SharedTime && (trigger != MaxDelay || key.topic in sections) ==> swept == [] && sections' == sections)
    && (selected == SingleTopic && key.topic !in sections ==> sections' == sections)
  }

  /** The partition has a trigger in this pass, and work that the trigger may take. */
  ghost predicate Due(parts: map<Key, PartState>, epochs: seq<Epoch>, key: Key, sharedTime: bool, now: int, config: FlushConfig) {
    && key in parts && PassTrigger(parts[key], sharedTime, now, config).Some?
    && Wanted(parts, epochs, key, PassTrigger(parts[key], sharedTime, now, config).value)
  }

  /** The partition's work was dropped for want of a single fence. */
  predicate Dropped(before: map<Key, PartState>, parts: map<Key, PartState>, key: Key, fenced: bool) {
    key in before && key in parts && parts[key].batches == [] && !Takes(before[key], fenced)
  }

  /** The partition's work is in the plan or was dropped, unless its topic's section is full. */
  predicate Served(before: map<Key, PartState>, parts: map<Key, PartState>, first: nat, epochs: seq<Epoch>,
                   sections: map<string, Section>, key: Key, fenced: bool)
  {
    && key in before
    && ( || Dropped(before, parts, key, fenced)
         || IsTaken(before, first, epochs, key)
         || (fenced && key.topic in sections && |sections[key.topic].members| == MAX_FENCED_METADATA_PARTITIONS))
  }

  /** What a pass starts from. */
  datatype Origin = Origin(parts: map<Key, PartState>, epochs: seq<Epoch>, sorted: seq<Key>, sharedTime: bool, now: int,
                           config: FlushConfig, fenced: bool)

  /** Until its topic has a section, a partition with work is as it was, or dropped. */
  ghost predicate Untouched(o: Origin, parts: map<Key, PartState>, key: Key) {
    key in o.parts && key in parts && (parts[key] == o.parts[key] || Dropped(o.parts, parts, key, o.fenced))
  }

  /** While only time plans are selected, each visited or filed topic's buffered partitions have been served. */
  ghost predicate TimeOk(o: Origin, parts: map<Key, PartState>, epochs: seq<Epoch>, sections: map<string, Section>,
                         visited: seq<Key>)
  {
    && (forall key | key in o.parts && o.parts[key].batches != [] && key.topic !in sections :: Untouched(o, parts, key))
    && (forall key | key in o.sorted && key.topic in sections && Wanted(o.parts, o.epochs, key, MaxDelay) ::
          Served(o.parts, parts, |o.epochs|, epochs, sections, key, o.fenced))
    && (forall key | key in visited && o.sharedTime && Wanted(o.parts, o.epochs, key, MaxDelay) && key.topic !in sections ::
          Dropped(o.parts, parts, key, o.fenced))
  }

  /** While nothing is selected, nothing that was due could be taken. */
  ghost predicate IdleOk(o: Origin, parts: map<Key, PartState>, epochs: seq<Epoch>, visited: seq<Key>) {
    && epochs == o.epochs
    && (forall key | key in visited && Due(o.parts, o.epochs, key, o.sharedTime, o.now, o.config) ::
          Dropped(o.parts, parts, key, o.fenced))
  }

  /** Why a trigger takes a partition, told on the fields of the pass's start. */
  ghost predicate TriggerHolds(o: Origin, key: Key, trigger: Trigger)
    requires key in o.parts
  {
    match trigger
    case LeaseDrain => o.parts[key].draining
    case MaxBytes => !o.parts[key].draining && o.parts[key].bytes >= o.config.maxBytes
    case MaxDelay => !o.parts[key].draining && SomeReachedDelay(o.parts, o.sorted, o.now, o.config)
  }

  /** Every epoch of the plan holds a partition that could be taken, for its section's trigger. */
  ghost predicate SelectedRightly(o: Origin, epochs: seq<Epoch>, sections: map<string, Section>) {
    forall e | |o.epochs| <= e < |epochs| ::
      && epochs[e].key in o.sorted && epochs[e].key in o.parts && epochs[e].key.topic in sections
      && MayTake(o.parts[epochs[e].key], o.epochs, o.fenced)
      && TriggerHolds(o, epochs[e].key, sections[epochs[e].key.topic].trigger)
      && epochs[e].batches == Ids(o.parts[epochs[e].key].batches)
  }

  ghost predicate PassOk(o: Origin, parts: map<Key, PartState>, epochs: seq<Epoch>, sections: map<string, Section>,
                         selected: Selection, visited: seq<Key>)
  {
    && Kept(o.parts, parts) && o.epochs <= epochs && SelectedRightly(o, epochs, sections)
    && (forall t | t in sections :: sections[t].trigger == MaxDelay <==> selected == SharedTime)
    && (selected != SingleTopic ==> TimeOk(o, parts, epochs, sections, visited))
    && (selected.Unselected? ==> sections == map[] && IdleOk(o, parts, epochs, visited))
  }

  /** Whatever was due has been dropped for want of a single fence. */
  ghost predicate NothingMissed(o: Origin, parts: map<Key, PartState>) {
    forall key | key in o.sorted && Due(o.parts, o.epochs, key, o.sharedTime, o.now, o.config) ::
      Dropped(o.parts, parts, key, o.fenced)
  }

  /** If some partition had reached its latency limit and this is a time plan, every buffered partition is served. */
  ghost predicate TimePlanServesAll(o: Origin, parts: map<Key, PartState>, epochs: seq<Epoch>, sections: map<string, Section>) {
    o.sharedTime && (exists t | t in sections :: sections[t].trigger == MaxDelay) ==>
      forall key | key in o.sorted && Wanted(o.parts, o.epochs, key, MaxDelay) ::
        Served(o.parts, parts, |o.epochs|, epochs, sections, key, o.fenced)
  }

  /** A series of picks leads from one pipeline state to another; `took` tells whether any took work up. */
  ghost predicate Picked(s: Pipeline, s': Pipeline, picks: seq<Pick>, took: bool) {
    && s.plans != [] && Pickable(s, picks) && s' == TakeAll(s, picks) && s'.plans != []
    && ((exists p | p in picks :: p.TakeUp?) <==> took)
  }

  class Scheduler {
    var parts: map<Key, PartState>
    var epochs: seq<Epoch>
    var plans: seq<Stage>
    var discarded: set<nat>

    constructor ()
      ensures Valid() && parts == map[] && epochs == [] && plans == [] && discarded == {}
    {
      parts, epochs, plans, discarded := map[], [], [], {};
    }

    /** The pipeline state; `base` supplies what the scheduler does not hold. */
    function View(base: Pipeline): Pipeline
      reads this
    {
      base.(parts := PartViews(parts), epochs := epochs, plans := plans, discarded := discarded)
    }

    /** The same with the plan under construction opened. */
    function Planning(base: Pipeline): Pipeline
      reads this
    {
      OpenPlan(View(base))
    }

    predicate Valid()
      reads this
    {
      TailsExist(parts, epochs)
    }

    /** Moves a whole buffer into a new epoch, or drops it when fenced writes need one fence and it has none. */
    method TakeFlushPartition(key: Key, requireFence: bool, ghost base: Pipeline)
      returns (member: Option<nat>, ghost pick: Option<Pick>)
      requires Valid() && key in parts && !TailIsPending(parts, epochs, key)
      modifies this`parts, this`epochs, this`discarded
      ensures Valid() && parts == old(parts)[key := Offered(old(parts[key]), requireFence, old(|epochs|))]
      ensures pick.None? ==> Planning(base) == old(Planning(base))
      ensures pick.Some? ==> CanPick(old(Planning(base)), pick.value) && Planning(base) == ApplyPick(old(Planning(base)), pick.value)
      ensures member == if Takes(old(parts[key]), requireFence) then Some(old(|epochs|)) else None
      ensures member.Some? <==> pick == Some(TakeUp(key))
      ensures member.Some? <==>
              var batches := old(parts[key].batches);
              && batches != []
              && (requireFence ==> batches[0].fence.Some? && forall i | 0 <= i < |batches| :: batches[i].fence == batches[0].fence)
      ensures parts[key] == old(parts[key]).(batches := [], bytes := 0, firstAt := None, tail := parts[key].tail,
                                             outstanding := parts[key].outstanding)
      ensures member.Some? ==> parts[key].tail == member && parts[key].outstanding == old(parts[key].outstanding) + 1
      ensures member.None? ==> parts[key].tail == old(parts[key].tail) && parts[key].outstanding == old(parts[key].outstanding)
      ensures member.None? ==> epochs == old(epochs) && (pick.Some? ==> pick.value.DropOut?)
      ensures member.Some? ==>
                epochs == old(epochs) + [Epoch(key, |plans|, Ids(old(parts[key].batches)), old(parts[key].tail), Pending, None, None)]
    {
      var part := parts[key];
      OfferIsPick(Planning(base), parts, key, requireFence);
      parts := parts[key := Emptied(part)];
      if part.batches == [] {
        return None, None;
      }
      if requireFence && !OneFence(part.batches) {
        discarded := discarded + set b | b in Ids(part.batches);
        return None, Some(DropOut(key));
      }
      member, pick := Some(|epochs|), Some(TakeUp(key));
      epochs := epochs + [Epoch(key, |plans|, Ids(part.batches), part.tail, Pending, None, None)];
      parts := parts[key := Emptied(part).(tail := Some(|epochs| - 1), outstanding := part.outstanding + 1)];
    }

    /** Offers one partition to the plan, unless its trigger or its tail holds it back. */
    method Offer(key: Key, trigger: Trigger, requireFence: bool, ghost base: Pipeline, ghost before: map<Key, PartState>,
                 ghost epochs0: seq<Epoch>, ghost swept: seq<Key>)
      returns (member: Option<nat>, ghost pick: Option<Pick>)
      requires Valid() && TailsExist(before, epochs0) && Swept(before, epochs0, parts, epochs, swept, trigger, requireFence)
      modifies this`parts, this`epochs, this`discarded
      ensures Valid() && old(epochs) <= epochs && Swept(before, epochs0, parts, epochs, swept + [key], trigger, requireFence)
      ensures pick.None? ==> Planning(base) == old(Planning(base))
      ensures pick.Some? ==> CanPick(old(Planning(base)), pick.value) && Planning(base) == ApplyPick(old(Planning(base)), pick.value)
      ensures member.Some? ==> pick == Some(TakeUp(key)) && member.value == old(|epochs|) && epochs[member.value].key == key
      ensures member.Some? ==> |epochs| == old(|epochs|) + 1
      ensures member.None? ==> epochs == old(epochs) && (pick.Some? ==> pick.value.DropOut?)
    {
      if key !in parts || (trigger == MaxDelay && parts[key].draining) || TailIsPending(parts, epochs, key) {
        SweepSkips(before, epochs0, parts, epochs, swept, key, trigger, requireFence);
        return None, None;
      }
      member, pick := TakeFlushPartition(key, requireFence, base);
      SweepOffers(before, epochs0, old(parts), old(epochs), swept, key, trigger, requireFence, epochs);
    }

    /** Offers the next partition and records what came of it. */
    method OfferNext(keys: seq<Key>, i: nat, trigger: Trigger, ghost limit: nat, requireFence: bool, members: seq<nat>,
                     ghost picks: seq<Pick>, ghost base: Pipeline, ghost before: map<Key, PartState>,
                     ghost epochs0: seq<Epoch>, ghost s0: Pipeline)
      returns (members': seq<nat>, ghost picks': seq<Pick>)
      requires Valid() && TailsExist(before, epochs0) && i < |keys| && |members| < limit
      requires Taking(before, epochs0, parts, epochs, keys, i, trigger, limit, requireFence, members)
      requires Picked(s0, Planning(base), picks, members != [])
      modifies this`parts, this`epochs, this`discarded
      ensures Valid() && Taking(before, epochs0, parts, epochs, keys, i + 1, trigger, limit, requireFence, members')
      ensures Picked(s0, Planning(base), picks', members' != [])
    {
      members', picks' := members, picks;
      var member, pick := Offer(keys[i], trigger, requireFence, base, before, epochs0, keys[..i]);
      TakingMore(before, epochs0, old(parts), old(epochs), parts, epochs, keys, i, trigger, limit, requireFence, members, member.Some?);
      if pick.Some? {
        PickedOne(s0, picks, members != [], pick.value);
        picks' := picks + [pick.value];
      }
      if member.Some? {
        members' := members + [member.value];
      }
    }

    /**
     Offers the partitions to the plan in order until the limit. Every wanted one before that point is
     taken with its whole buffer, or dropped for want of a single fence; later ones are not touched.
     */
    method TakeFlushPartitions(keys: seq<Key>, trigger: Trigger, limit: nat, requireFence: bool, ghost base: Pipeline)
      returns (members: seq<nat>, ghost picks: seq<Pick>, ghost swept: seq<Key>)
      requires Valid()
      modifies this`parts, this`epochs, this`discarded
      ensures Valid() && old(epochs) <= epochs
      ensures Picked(old(Planning(base)), Planning(base), picks, members != [])
      ensures |members| <= limit && |members| <= |keys| && |epochs| == old(|epochs|) + |members|
      ensures forall i | 0 <= i < |members| :: members[i] == old(|epochs|) + i && epochs[members[i]].key in keys
      ensures swept <= keys && (swept == keys || |members| == limit)
      ensures Swept(old(parts), old(epochs), parts, epochs, swept, trigger, requireFence)
    {
      members, picks, swept := [], [], keys[..0];
      assert Pickable(old(Planning(base)), []);
      for i := 0 to |keys|
        invariant Valid() && swept == keys[..i]
        invariant Taking(old(parts), old(epochs), parts, epochs, keys, i, trigger, limit, requireFence, members)
        invariant Picked(old(Planning(base)), Planning(base), picks, members != [])
      {
        if |members| == limit {
          return;
        }
        members, picks := OfferNext(keys, i, trigger, limit, requireFence, members, picks, base, old(parts), old(epochs),
                                    old(Planning(base)));
        swept := keys[..i + 1];
      }
    }

    /** Whether anything is due, and whether any partition has reached its latency limit. */
    method ScanTriggers(keys: seq<Key>, now: int, config: FlushConfig) returns (flushable: bool, sharedTime: bool)
      requires forall key | key in keys :: key in parts
      ensures flushable <==>
                exists key | key in keys ::
                  || parts[key].draining || HasReachedDelay(parts[key], now, config)
                  || (parts[key].batches != [] && parts[key].bytes >= config.maxBytes)
      ensures sharedTime <==> exists key | key in keys :: HasReachedDelay(parts[key], now, config)
    {
      flushable, sharedTime := false, false;
      for i := 0 to |keys|
        invariant flushable <==>
                    exists key | key in keys[..i] ::
                      || parts[key].draining || HasReachedDelay(parts[key], now, config)
                      || (parts[key].batches != [] && parts[key].bytes >= config.maxBytes)
        invariant sharedTime <==> exists key | key in keys[..i] :: HasReachedDelay(parts[key], now, config)
      {
        TriggerMeans(parts[keys[i]], now, config);
        var trigger := TriggerOf(parts[keys[i]], now, config);
        assert keys[..i + 1] == keys[..i] + [keys[i]];
        flushable := flushable || trigger.Some?;
        sharedTime := sharedTime || trigger == Some(MaxDelay);
      }
      assert keys[..|keys|] == keys;
    }

    /** Takes what the visited partition's trigger calls for and files it under its topic. */
    method Visit(key: Key, trigger: Trigger, sorted: seq<Key>, fenced: bool, sections: map<string, Section>,
                 selected: Selection, ghost first: nat, ghost base: Pipeline)
      returns (sections': map<string, Section>, selected': Selection, ghost picks: seq<Pick>, ghost swept: seq<Key>)
      requires Valid() && SectionsOk(sections, epochs, first, fenced) && first <= |epochs|
      requires selected.Unselected? <==> sections == map[]
      modifies this`parts, this`epochs, this`discarded
      ensures Valid() && old(epochs) <= epochs && Picked(old(Planning(base)), Planning(base), picks, sections' != sections)
      ensures SectionsOk(sections', epochs, first, fenced) && (selected'.Unselected? <==> sections' == map[])
      ensures Swept(old(parts), old(epochs), parts, epochs, swept, trigger, fenced)
      ensures Visited(key, trigger, sorted, fenced, sections, selected, sections', selected', swept)
      ensures sections' == sections ==> epochs == old(epochs)
    {
      sections', selected', picks, swept := sections, selected, [], [];
      assert Pickable(old(Planning(base)), []);
      if !Joins(sections, selected, key.topic, trigger, fenced) {
        return;
      }
      var limit := VisitLimit(sections, key.topic, trigger, fenced, |sorted|);
      var members;
      members, picks, swept := TakeFlushPartitions(VisitKeys(key, trigger, sorted), trigger, limit, fenced, base);
      if members == [] {
        SectionsUnchanged(sections, old(epochs), epochs, first, fenced);
        return;
      }
      FilesOk(key, trigger, sorted, fenced, sections, selected, old(epochs), epochs, first, members, swept);
      sections' := Filed(sections, key.topic, trigger, fenced, members);
      selected' := if selected.Unselected? then SelectedBy(trigger) else selected;
    }

    /** The pass before it visits `order[i]`. */
    ghost predicate Passing(o: Origin, base: Pipeline, s0: Pipeline, visited: seq<Key>, sections: map<string, Section>,
                            selected: Selection, picks: seq<Pick>)
      reads this
    {
      && Valid() && TailsExist(o.parts, o.epochs) && (o.sharedTime <==> SomeReachedDelay(o.parts, o.sorted, o.now, o.config))
      && Picked(s0, Planning(base), picks, sections != map[])
      && SectionsOk(sections, epochs, |o.epochs|, o.fenced) && (selected.Unselected? <==> sections == map[])
      && PassOk(o, parts, epochs, sections, selected, visited)
    }

    method VisitNext(key: Key, sorted: seq<Key>, sharedTime: bool, now: int, config: FlushConfig, fenced: bool,
                     sections: map<string, Section>, selected: Selection, ghost picks: seq<Pick>, ghost o: Origin,
                     ghost base: Pipeline, ghost s0: Pipeline, ghost visited: seq<Key>)
      returns (sections': map<string, Section>, selected': Selection, ghost picks': seq<Pick>)
      requires Passing(o, base, s0, visited, sections, selected, picks) && key in parts && key in sorted
      requires o == Origin(o.parts, o.epochs, sorted, sharedTime, now, config, fenced)
      modifies this`parts, this`epochs, this`discarded
      ensures Passing(o, base, s0, visited + [key], sections', selected', picks')
    {
      sections', selected', picks' := sections, selected, picks;
      var trigger := PassTrigger(parts[key], sharedTime, now, config);
      if trigger.None? {
        PassSkips(o, parts, epochs, sections, selected, visited, key);
        return;
      }
      ghost var more, swept;
      sections', selected', more, swept := Visit(key, trigger.value, sorted, fenced, sections, selected, |o.epochs|, base);
      PassVisits(o, old(parts), old(epochs), sections, selected, parts, epochs, sections', selected', visited, key,
                 trigger.value, swept);
      PickedMore(s0, picks, sections != map[], more, sections' != sections);
      picks' := picks + more;
    }

    /** Visits every partition once, starting anywhere in their order. */
    method VisitAll(sorted: seq<Key>, start: nat, sharedTime: bool, now: int, config: FlushConfig, fenced: bool,
                    ghost o: Origin, ghost base: Pipeline)
      returns (sections: map<string, Section>, ghost picks: seq<Pick>)
      requires Valid() && start <= |sorted| && (forall key | key in sorted :: key in parts)
      requires o == Origin(parts, epochs, sorted, sharedTime, now, config, fenced)
      requires sharedTime <==> SomeReachedDelay(parts, sorted, now, config)
      modifies this`parts, this`epochs, this`discarded
      ensures Valid() && parts.Keys == old(parts.Keys) && SectionsOk(sections, epochs, old(|epochs|), fenced)
      ensures Picked(old(Planning(base)), Planning(base), picks, sections != map[])
      ensures (sections == map[] ==> NothingMissed(o, parts)) && TimePlanServesAll(o, parts, epochs, sections)
      ensures SelectedRightly(o, epochs, sections)
    {
      sections, picks := map[], [];
      var selected := Unselected;
      assert Pickable(old(Planning(base)), []);
      var order := sorted[start..] + sorted[..start];
      for i := 0 to |order|
        invariant Passing(o, base, old(Planning(base)), order[..i], sections, selected, picks)
      {
        assert order[..i + 1] == order[..i] + [order[i]];
        sections, selected, picks := VisitNext(order[i], sorted, sharedTime, now, config, fenced, sections, selected, picks, o, base,
                                               old(Planning(base)), order[..i]);
      }
      assert order[..|order|] == order;
      RotationHoldsAll(sorted, start);
      PassEnds(o, parts, epochs, sections, selected, order);
    }

    /**
     One scheduler pass over the partitions, starting anywhere in their order: the whole pass is one
     selection step of the pipeline, and every epoch it takes is in exactly its own topic's section. A
     pass without a plan has found no due partition whose work it could take. A plan of a pass in which
     some partition had reached its latency limit, if it is a time plan, serves every buffered partition.
     */
    method CollectNextFlushPlan(sorted: seq<Key>, start: nat, now: int, config: FlushConfig, fenced: bool, ghost base: Pipeline)
      returns (plan: Option<map<string, Section>>, ghost picks: seq<Pick>)
      requires Valid() && start <= |sorted| && forall key | key in sorted :: key in parts
      modifies this
      ensures Valid() && parts.Keys == old(parts.Keys)
      ensures plan.Some? ==> Enabled(old(View(base)), Select(picks)) && View(base) == Next(old(View(base)), Select(picks))
      ensures plan.Some? ==> plan.value != map[] && SectionsOk(plan.value, epochs, old(|epochs|), fenced)
      ensures plan.None? ==> Picked(old(Planning(base)), Planning(base), picks, false)
      ensures plan.Some? <==>
                exists key | key in sorted ::
                  MayTake(old(parts)[key], old(epochs), fenced) && CallsForFlush(old(parts), sorted, key, now, config)
      ensures var o := Origin(old(parts), old(epochs), sorted, SomeReachedDelay(old(parts), sorted, now, config), now, config, fenced);
              && (plan.None? ==> NothingMissed(o, parts))
              && (plan.Some? ==> TimePlanServesAll(o, parts, epochs, plan.value) && SelectedRightly(o, epochs, plan.value))
    {
      picks := [];
      assert Pickable(old(Planning(base)), []);
      var flushable, sharedTime := ScanTriggers(sorted, now, config);
      ghost var o := Origin(parts, epochs, sorted, sharedTime, now, config, fenced);
      NothingDue(o, flushable);
      if !flushable {
        PlanIff(o, parts, epochs, map[]);
        return None, [];
      }
      var sections;
      sections, picks := VisitAll(sorted, start, sharedTime, now, config, fenced, o, base);
      PlanIff(o, parts, epochs, sections);
      if sections == map[] {
        return None, picks;
      }
      SelectIs(old(View(base)), Planning(base), picks);
      plans := plans + [Building];
      plan := Some(sections);
    }

    /**
     Completing a plan: each of its epochs becomes terminal, its partition's count goes down, and a tail
     that has failed is cleared. `aborted` is a plan that returned an error instead of results.
     */
    method MarkFlushComplete(plan: nat, completions: seq<nat>, aborted: bool, ghost base: Pipeline)
      requires ShapeInv(View(base)) && Enabled(View(base), Close(plan, aborted))
      requires forall e: nat :: e in completions <==> e < |epochs| && epochs[e].plan == plan
      requires forall i, j | 0 <= i < j < |completions| :: completions[i] != completions[j]
      modifies this`parts, this`epochs, this`plans
      ensures Valid() && View(base) == Next(old(View(base)), Close(plan, aborted))
      ensures OnlySettles(old(parts), parts)
    {
      ghost var s := View(base);
      RecordCompletions(plan, completions, aborted, s);
      AllRecorded(parts, epochs, s, plan, aborted, completions);
      plans := plans[plan := Closed];
      NextShape(s, Close(plan, aborted));
      ShapeHasTails(View(base), parts);
    }

    /** Records the completions one by one: the epoch's result, then its partition's count and tail. */
    method RecordCompletions(plan: nat, completions: seq<nat>, aborted: bool, ghost s: Pipeline)
      requires PlansOk(s) && TailsOk(s) && s.parts == PartViews(parts) && s.epochs == epochs
      requires forall e: nat :: e in completions <==> e < |epochs| && epochs[e].plan == plan
      requires forall i, j | 0 <= i < j < |completions| :: completions[i] != completions[j]
      modifies this`parts, this`epochs
      ensures Midway(parts, epochs, s, AdvancePlan(s.epochs, plan, Completed(aborted)), completions)
      ensures OnlySettles(old(parts), parts)
    {
      for i := 0 to |completions|
        invariant OnlySettles(old(parts), parts)
        invariant Midway(parts, epochs, s, AdvancePlan(s.epochs, plan, Completed(aborted)), completions[..i])
      {
        var e := completions[i];
        assert e in completions;
        CompleteStep(parts, epochs, s, plan, aborted, completions, i);
        RecordCompletion(e, aborted, old(parts));
      }
      assert completions[..|completions|] == completions;
    }

    method RecordCompletion(e: nat, aborted: bool, ghost before: map<Key, PartState>)
      requires e < |epochs| && OnlySettles(before, parts)
      modifies this`parts, this`epochs
      ensures epochs == old(epochs)[e := Advance(old(epochs[e]), Completed(aborted))]
      ensures parts == Settled(old(parts), old(epochs[e].key), epochs) && OnlySettles(before, parts)
    {
      epochs := epochs[e := Advance(epochs[e], Completed(aborted))];
      var key := epochs[e].key;
      if key in parts {
        parts := parts[key := CompletedPart(parts[key], epochs)];
      }
    }
  }

  /** Filing what a visit took: nothing is overwritten, and the topic got all its work unless its section is full. */
  lemma FilesOk(key: Key, trigger: Trigger, sorted: seq<Key>, fenced: bool, sections: map<string, Section>,
                selected: Selection, epochs0: seq<Epoch>, epochs: seq<Epoch>, first: nat, members: seq<nat>, swept: seq<Key>)
    requires SectionsOk(sections, epochs0, first, fenced) && first <= |epochs0| && (selected.Unselected? <==> sections == map[])
    requires Joins(sections, selected, key.topic, trigger, fenced) && TakenFor(epochs0, epochs, key.topic, members)
    requires |members| <= VisitLimit(sections, key.topic, trigger, fenced, |sorted|)
    requires |members| <= |VisitKeys(key, trigger, sorted)| && swept <= VisitKeys(key, trigger, sorted)
    requires swept == VisitKeys(key, trigger, sorted) || |members| == VisitLimit(sections, key.topic, trigger, fenced, |sorted|)
    ensures var sections' := Filed(sections, key.topic, trigger, fenced, members);
            && sections' != sections && sections' != map[] && SectionsOk(sections', epochs, first, fenced)
            && Visited(key, trigger, sorted, fenced, sections, selected, sections',
                       if selected.Unselected? then SelectedBy(trigger) else selected, swept)
  {
    if RequiresNew(sections, key.topic, trigger, fenced) {
      NewSectionOk(sections, epochs0, epochs, first, fenced, key.topic, trigger, members);
    } else {
      LongerSectionOk(sections, epochs0, epochs, first, fenced, key.topic, members);
      var longer := sections[key.topic].(members := sections[key.topic].members + members);
      assert |longer.members| > |sections[key.topic].members|;
    }
    var sections' := Filed(sections, key.topic, trigger, fenced, members);
    assert key.topic in sections' && sections' == sections[key.topic := sections'[key.topic]];
  }

  lemma NothingDue(o: Origin, flushable: bool)
    requires forall key | key in o.sorted :: key in o.parts
    requires flushable <==>
               exists key | key in o.sorted ::
                 || o.parts[key].draining || HasReachedDelay(o.parts[key], o.now, o.config)
                 || (o.parts[key].batches != [] && o.parts[key].bytes >= o.config.maxBytes)
    requires o.sharedTime <==> SomeReachedDelay(o.parts, o.sorted, o.now, o.config)
    ensures !flushable ==> NothingMissed(o, o.parts)
  {
    if !flushable {
      forall key | key in o.sorted
        ensures !Due(o.parts, o.epochs, key, o.sharedTime, o.now, o.config)
      {
        TriggerMeans(o.parts[key], o.now, o.config);
      }
    }
  }

  /** A visit that changes nothing; the visited partition was not a time flush's to take. */
  lemma PassSkips(o: Origin, parts: map<Key, PartState>, epochs: seq<Epoch>, sections: map<string, Section>,
                  selected: Selection, visited: seq<Key>, key: Key)
    requires PassOk(o, parts, epochs, sections, selected, visited) && key in parts
    requires selected.Unselected? ==> PassTrigger(parts[key], o.sharedTime, o.now, o.config).None?
    requires PassTrigger(parts[key], o.sharedTime, o.now, o.config) != Some(MaxDelay) || key.topic in sections
    ensures PassOk(o, parts, epochs, sections, selected, visited + [key])
  {
  }

  /** A partition that was untouched before a sweep reached it has been taken or dropped after it. */
  lemma SweptIsServed(o: Origin, parts: map<Key, PartState>, epochs: seq<Epoch>, parts': map<Key, PartState>,
                      epochs': seq<Epoch>, swept: seq<Key>, trigger: Trigger, key: Key)
    requires TailsExist(o.parts, o.epochs) && o.epochs <= epochs && Untouched(o, parts, key)
    requires Swept(parts, epochs, parts', epochs', swept, trigger, o.fenced)
    requires key in swept && Wanted(o.parts, o.epochs, key, trigger)
    ensures Dropped(o.parts, parts', key, o.fenced) || IsTaken(o.parts, |o.epochs|, epochs', key)
    ensures epochs' == epochs ==> Dropped(o.parts, parts', key, o.fenced)
  {
  }

  /** A sweep that takes nothing leaves the untouched untouched, and so does one that does not reach them. */
  lemma UntouchedLasts(o: Origin, parts: map<Key, PartState>, epochs: seq<Epoch>, parts': map<Key, PartState>,
                       epochs': seq<Epoch>, swept: seq<Key>, trigger: Trigger, key: Key)
    requires Swept(parts, epochs, parts', epochs', swept, trigger, o.fenced)
    requires Untouched(o, parts, key) && o.parts[key].batches != [] && (epochs' == epochs || key !in swept)
    ensures Untouched(o, parts', key)
  {
  }

  /** A visit of a topic without a section, by a time flush or as the first of the pass. */
  lemma TimeVisit(o: Origin, parts: map<Key, PartState>, epochs: seq<Epoch>, sections: map<string, Section>,
                  parts': map<Key, PartState>, epochs': seq<Epoch>, sections': map<string, Section>, visited: seq<Key>,
                  key: Key, trigger: Trigger, swept: seq<Key>)
    requires TimeOk(o, parts, epochs, sections, visited) && TailsExist(o.parts, o.epochs) && o.epochs <= epochs
    requires parts.Keys == o.parts.Keys && key in o.sorted && key in parts && key.topic !in sections
    requires PassTrigger(parts[key], o.sharedTime, o.now, o.config) == Some(trigger)
    requires Swept(parts, epochs, parts', epochs', swept, trigger, o.fenced) && swept <= VisitKeys(key, trigger, o.sorted)
    requires sections' == sections || (trigger == MaxDelay && key.topic in sections' && sections' == sections[key.topic := sections'[key.topic]])
    requires sections' == sections ==> epochs' == epochs
    requires || swept == VisitKeys(key, trigger, o.sorted)
             || (o.fenced && key.topic in sections' && |sections'[key.topic].members| == MAX_FENCED_METADATA_PARTITIONS)
    ensures TimeOk(o, parts', epochs', sections', visited + [key])
  {
    forall k | k in o.parts && o.parts[k].batches != [] && k.topic !in sections'
      ensures Untouched(o, parts', k)
    {
      UntouchedLasts(o, parts, epochs, parts', epochs', swept, trigger, k);
    }
    forall k | k in o.sorted && k.topic in sections' && Wanted(o.parts, o.epochs, k, MaxDelay)
      ensures Served(o.parts, parts', |o.epochs|, epochs', sections', k, o.fenced)
    {
      if k.topic != key.topic {
        ServedLasts(o, parts, epochs, sections, parts', epochs', sections', k);
      } else if k in swept {
        SweptIsServed(o, parts, epochs, parts', epochs', swept, trigger, k);
      }
    }
    VisitedIsDropped(o, parts, epochs, sections, parts', epochs', sections', visited, key, trigger, swept);
  }

  lemma VisitedIsDropped(o: Origin, parts: map<Key, PartState>, epochs: seq<Epoch>, sections: map<string, Section>,
                         parts': map<Key, PartState>, epochs': seq<Epoch>, sections': map<string, Section>, visited: seq<Key>,
                         key: Key, trigger: Trigger, swept: seq<Key>)
    requires TimeOk(o, parts, epochs, sections, visited) && TailsExist(o.parts, o.epochs) && o.epochs <= epochs
    requires parts.Keys == o.parts.Keys && key in o.sorted && key in parts && key.topic !in sections
    requires PassTrigger(parts[key], o.sharedTime, o.now, o.config) == Some(trigger)
    requires Swept(parts, epochs, parts', epochs', swept, trigger, o.fenced) && swept <= VisitKeys(key, trigger, o.sorted)
    requires sections' == sections || (key.topic in sections' && sections' == sections[key.topic := sections'[key.topic]])
    requires sections' == sections ==> epochs' == epochs
    requires swept == VisitKeys(key, trigger, o.sorted) || key.topic in sections'
    ensures forall k | k in visited + [key] && o.sharedTime && Wanted(o.parts, o.epochs, k, MaxDelay) && k.topic !in sections' ::
              Dropped(o.parts, parts', k, o.fenced)
  {
    forall k | k in visited + [key] && o.sharedTime && Wanted(o.parts, o.epochs, k, MaxDelay) && k.topic !in sections'
      ensures Dropped(o.parts, parts', k, o.fenced)
    {
      UntouchedLasts(o, parts, epochs, parts', epochs', swept, trigger, k);
      if k == key && parts[k] == o.parts[k] {
        SweptIsServed(o, parts, epochs, parts', epochs', swept, trigger, k);
      }
    }
  }

  lemma ServedLasts(o: Origin, parts: map<Key, PartState>, epochs: seq<Epoch>, sections: map<string, Section>,
                    parts': map<Key, PartState>, epochs': seq<Epoch>, sections': map<string, Section>, key: Key)
    requires Served(o.parts, parts, |o.epochs|, epochs, sections, key, o.fenced) && epochs <= epochs'
    requires key in parts && key in parts' && parts'[key] == parts[key]
    requires key.topic in sections ==> key.topic in sections' && sections'[key.topic] == sections[key.topic]
    ensures Served(o.parts, parts', |o.epochs|, epochs', sections', key, o.fenced)
  {
    TakenLasts(o.parts, |o.epochs|, epochs, epochs', key);
  }

  /** Nothing was selected before, and the visit selected nothing. */
  lemma IdleVisit(o: Origin, parts: map<Key, PartState>, epochs: seq<Epoch>, parts': map<Key, PartState>,
                  visited: seq<Key>, key: Key, trigger: Trigger, swept: seq<Key>)
    requires IdleOk(o, parts, epochs, visited) && TimeOk(o, parts, epochs, map[], visited) && TailsExist(o.parts, o.epochs)
    requires parts.Keys == o.parts.Keys && key in parts && key in o.sorted
    requires PassTrigger(parts[key], o.sharedTime, o.now, o.config) == Some(trigger)
    requires Swept(parts, epochs, parts', epochs, swept, trigger, o.fenced) && swept == VisitKeys(key, trigger, o.sorted)
    ensures IdleOk(o, parts', epochs, visited + [key])
  {
    forall k | k in visited + [key] && Due(o.parts, o.epochs, k, o.sharedTime, o.now, o.config)
      ensures Dropped(o.parts, parts', k, o.fenced)
    {
      UntouchedLasts(o, parts, epochs, parts', epochs, swept, trigger, k);
      if k == key && parts[k] == o.parts[k] {
        SweptIsServed(o, parts, epochs, parts', epochs, swept, trigger, k);
      }
    }
  }

  lemma PassStaysIdle(o: Origin, parts: map<Key, PartState>, epochs: seq<Epoch>, parts': map<Key, PartState>,
                      visited: seq<Key>, key: Key, trigger: Trigger, swept: seq<Key>)
    requires PassOk(o, parts, epochs, map[], Unselected, visited) && TailsExist(o.parts, o.epochs)
    requires key in parts && key in o.sorted && PassTrigger(parts[key], o.sharedTime, o.now, o.config) == Some(trigger)
    requires Swept(parts, epochs, parts', epochs, swept, trigger, o.fenced) && swept == VisitKeys(key, trigger, o.sorted)
    requires Kept(o.parts, parts')
    ensures PassOk(o, parts', epochs, map[], Unselected, visited + [key])
  {
    TimeVisit(o, parts, epochs, map[], parts', epochs, map[], visited, key, trigger, swept);
    IdleVisit(o, parts, epochs, parts', visited, key, trigger, swept);
  }

  lemma TriggersAgree(key: Key, trigger: Trigger, sorted: seq<Key>, fenced: bool, sections: map<string, Section>,
                      selected: Selection, sections': map<string, Section>, selected': Selection, swept: seq<Key>)
    requires Visited(key, trigger, sorted, fenced, sections, selected, sections', selected', swept)
    requires (selected.Unselected? <==> sections == map[]) && (selected'.Unselected? <==> sections' == map[])
    requires forall t | t in sections :: sections[t].trigger == MaxDelay <==> selected == SharedTime
    requires !(selected == SharedTime && trigger != MaxDelay) && !(selected == SingleTopic && key.topic !in sections && key.topic in sections')
    ensures forall t | t in sections' :: sections'[t].trigger == MaxDelay <==> selected' == SharedTime
  {
  }

  /** Emptied partitions stay emptied, so what a later sweep takes is as it was at the start. */
  lemma KeptLasts(before: map<Key, PartState>, parts: map<Key, PartState>, parts': map<Key, PartState>)
    requires Kept(before, parts) && Kept(parts, parts')
    ensures Kept(before, parts')
  {
  }

  /** A visit's trigger is justified by the partitions at the start of the pass. */
  lemma TriggerIsRight(o: Origin, parts: map<Key, PartState>, key: Key, trigger: Trigger, k: Key)
    requires Kept(o.parts, parts) && key in o.sorted && key in parts && k in parts && parts[k].batches != []
    requires PassTrigger(parts[key], o.sharedTime, o.now, o.config) == Some(trigger) && (trigger != MaxDelay ==> k == key)
    requires o.sharedTime <==> SomeReachedDelay(o.parts, o.sorted, o.now, o.config)
    requires !(trigger == MaxDelay && parts[k].draining)
    ensures TriggerHolds(o, k, trigger)
  {
    TriggerMeans(parts[key], o.now, o.config);
  }

  lemma SelectionStaysRight(o: Origin, parts: map<Key, PartState>, epochs: seq<Epoch>, sections: map<string, Section>,
                            selected: Selection, parts': map<Key, PartState>, epochs': seq<Epoch>,
                            sections': map<string, Section>, selected': Selection, key: Key, trigger: Trigger, swept: seq<Key>)
    requires Kept(o.parts, parts) && o.epochs <= epochs && SelectedRightly(o, epochs, sections) && TailsExist(o.parts, o.epochs)
    requires key in parts && key in o.sorted && PassTrigger(parts[key], o.sharedTime, o.now, o.config) == Some(trigger)
    requires o.sharedTime <==> SomeReachedDelay(o.parts, o.sorted, o.now, o.config)
    requires Visited(key, trigger, o.sorted, o.fenced, sections, selected, sections', selected', swept)
    requires Swept(parts, epochs, parts', epochs', swept, trigger, o.fenced) && (sections' == sections ==> epochs' == epochs)
    ensures Kept(o.parts, parts') && o.epochs <= epochs' && SelectedRightly(o, epochs', sections')
  {
    KeptLasts(o.parts, parts, parts');
    forall e | |o.epochs| <= e < |epochs'|
      ensures && epochs'[e].key in o.sorted && epochs'[e].key in o.parts && epochs'[e].key.topic in sections'
              && MayTake(o.parts[epochs'[e].key], o.epochs, o.fenced)
              && TriggerHolds(o, epochs'[e].key, sections'[epochs'[e].key.topic].trigger)
              && epochs'[e].batches == Ids(o.parts[epochs'[e].key].batches)
    {
      if e < |epochs| {
        assert epochs'[e] == epochs[e];
      } else {
        TriggerIsRight(o, parts, key, trigger, epochs'[e].key);
      }
    }
  }

  lemma PassVisits(o: Origin, parts: map<Key, PartState>, epochs: seq<Epoch>, sections: map<string, Section>,
                   selected: Selection, parts': map<Key, PartState>, epochs': seq<Epoch>, sections': map<string, Section>,
                   selected': Selection, visited: seq<Key>, key: Key, trigger: Trigger, swept: seq<Key>)
    requires PassOk(o, parts, epochs, sections, selected, visited) && TailsExist(o.parts, o.epochs)
    requires (selected.Unselected? <==> sections == map[]) && (selected'.Unselected? <==> sections' == map[])
    requires key in parts && key in o.sorted && PassTrigger(parts[key], o.sharedTime, o.now, o.config) == Some(trigger)
    requires o.sharedTime <==> SomeReachedDelay(o.parts, o.sorted, o.now, o.config)
    requires Visited(key, trigger, o.sorted, o.fenced, sections, selected, sections', selected', swept)
    requires Swept(parts, epochs, parts', epochs', swept, trigger, o.fenced) && (sections' == sections ==> epochs' == epochs)
    ensures PassOk(o, parts', epochs', sections', selected', visited + [key])
  {
    SelectionStaysRight(o, parts, epochs, sections, selected, parts', epochs', sections', selected', key, trigger, swept);
    if selected == SharedTime && (trigger != MaxDelay || key.topic in sections) {
      assert parts' == parts;
      PassSkips(o, parts, epochs, sections, selected, visited, key);
    } else if selected'.Unselected? {
      PassStaysIdle(o, parts, epochs, parts', visited, key, trigger, swept);
    } else {
      TriggersAgree(key, trigger, o.sorted, o.fenced, sections, selected, sections', selected', swept);
      if selected' == SharedTime {
        TimeVisit(o, parts, epochs, sections, parts', epochs', sections', visited, key, trigger, swept);
      }
    }
  }

  lemma PassEnds(o: Origin, parts: map<Key, PartState>, epochs: seq<Epoch>, sections: map<string, Section>,
                 selected: Selection, visited: seq<Key>)
    requires PassOk(o, parts, epochs, sections, selected, visited) && forall key | key in o.sorted :: key in visited
    ensures selected.Unselected? ==> NothingMissed(o, parts)
    ensures TimePlanServesAll(o, parts, epochs, sections) && SelectedRightly(o, epochs, sections)
  {
  }

  /** A pass makes a plan exactly when some partition may be taken and calls for a flush. */
  lemma PlanIff(o: Origin, parts: map<Key, PartState>, epochs: seq<Epoch>, sections: map<string, Section>)
    requires (o.sharedTime <==> SomeReachedDelay(o.parts, o.sorted, o.now, o.config))
    requires (sections == map[] ==> NothingMissed(o, parts)) && SelectedRightly(o, epochs, sections)
    requires SectionsOk(sections, epochs, |o.epochs|, o.fenced) && (forall key | key in o.sorted :: key in o.parts)
    ensures sections != map[] <==>
              exists key | key in o.sorted ::
                MayTake(o.parts[key], o.epochs, o.fenced) && CallsForFlush(o.parts, o.sorted, key, o.now, o.config)
  {
    if sections == map[] {
      forall key | key in o.sorted && MayTake(o.parts[key], o.epochs, o.fenced)
        ensures !CallsForFlush(o.parts, o.sorted, key, o.now, o.config)
      {
        if CallsForFlush(o.parts, o.sorted, key, o.now, o.config) {
          DueMeans(o, key);
        }
      }
    } else {
      var t :| t in sections;
      var e := sections[t].members[0];
      assert MayTake(o.parts[epochs[e].key], o.epochs, o.fenced);
    }
  }

  lemma DueMeans(o: Origin, key: Key)
    requires key in o.parts && key in o.sorted && (o.sharedTime <==> SomeReachedDelay(o.parts, o.sorted, o.now, o.config))
    requires MayTake(o.parts[key], o.epochs, o.fenced) && CallsForFlush(o.parts, o.sorted, key, o.now, o.config)
    ensures Due(o.parts, o.epochs, key, o.sharedTime, o.now, o.config) && Takes(o.parts[key], o.fenced)
  {
    TriggerMeans(o.parts[key], o.now, o.config);
  }

  /**
   A partition that has not reached any limit itself is pulled into a shared time flush even when the
   partition that has reached its latency limit cannot be taken, because its last epoch is still pending.
   */
  lemma FreshPeerIsPulledIn(now: int, config: FlushConfig)
    requires config.maxDelay > 0 && config.maxBytes > 0
    ensures var due := Key("t", 0);
            var peer := Key("t", 1);
            var epochs := [Epoch(due, 0, [7], None, Pending, None, None)];
            var parts := map[due := PartState([Buffered(8, None)], 0, Some(now - config.maxDelay), Some(0), 1, false),
                             peer := PartState([Buffered(9, None)], 0, Some(now), None, 0, false)];
            && TailsExist(parts, epochs)
            && !MayTake(parts[due], epochs, false) && MayTake(parts[peer], epochs, false)
            && !(parts[peer].draining || parts[peer].bytes >= config.maxBytes || HasReachedDelay(parts[peer], now, config))
            && CallsForFlush(parts, [due, peer], peer, now, config)
  {
    var due, peer := Key("t", 0), Key("t", 1);
    var parts := map[due := PartState([Buffered(8, None)], 0, Some(now - config.maxDelay), Some(0), 1, false),
                     peer := PartState([Buffered(9, None)], 0, Some(now), None, 0, false)];
    assert due in [due, peer] && HasReachedDelay(parts[due], now, config);
  }

  lemma ShapeHasTails(s: Pipeline, parts: map<Key, PartState>)
    requires TailsOk(s) && s.parts == PartViews(parts)
    ensures TailsExist(parts, s.epochs)
  {
    forall key | key in parts && parts[key].tail.Some?
      ensures parts[key].tail.value < |s.epochs|
    {
      assert s.parts[key] == PartView(parts[key]);
    }
  }

  lemma RotationHoldsAll(sorted: seq<Key>, start: nat)
    requires start <= |sorted|
    ensures forall key | key in sorted :: key in sorted[start..] + sorted[..start]
  {
  }

  lemma SelectIs(s: Pipeline, s': Pipeline, picks: seq<Pick>)
    requires Picked(OpenPlan(s), s', picks, true)
    ensures Enabled(s, Select(picks)) && Next(s, Select(picks)) == s'
  {
  }

  lemma PickedOne(s: Pipeline, picks: seq<Pick>, took: bool, pick: Pick)
    requires s.plans != [] && Pickable(s, picks) && Picked(s, TakeAll(s, picks), picks, took) && CanPick(TakeAll(s, picks), pick)
    ensures Picked(s, ApplyPick(TakeAll(s, picks), pick), picks + [pick], took || pick.TakeUp?)
  {
    PickOneMore(s, picks, pick);
  }

  lemma PickedMore(s: Pipeline, picks: seq<Pick>, took: bool, more: seq<Pick>, tookMore: bool)
    requires s.plans != [] && Pickable(s, picks) && Picked(s, TakeAll(s, picks), picks, took)
    requires Pickable(TakeAll(s, picks), more) && Picked(TakeAll(s, picks), TakeAll(TakeAll(s, picks), more), more, tookMore)
    ensures Picked(s, TakeAll(TakeAll(s, picks), more), picks + more, took || tookMore)
  {
    PickMore(s, picks, more);
  }

  /** The count goes down; a tail that has failed is cleared. */
  function CompletedPart(part: PartState, epochs: seq<Epoch>): PartState {
    part.(outstanding := if part.outstanding > 0 then part.outstanding - 1 else 0,
          tail := if part.tail.Some? && part.tail.value < |epochs| && epochs[part.tail.value].phase == Failed then None
                  else part.tail)
  }

  function Settled(parts: map<Key, PartState>, key: Key, epochs: seq<Epoch>): map<Key, PartState> {
    if key in parts then parts[key := CompletedPart(parts[key], epochs)] else parts
  }

  /** Nothing has changed but tails and counts. */
  predicate OnlySettles(before: map<Key, PartState>, parts: map<Key, PartState>) {
    && parts.Keys == before.Keys
    && forall key | key in parts :: parts[key] == before[key].(tail := parts[key].tail, outstanding := parts[key].outstanding)
  }

  /** The completions in `some` have been recorded, the others not yet. */
  ghost predicate Midway(parts: map<Key, PartState>, epochs: seq<Epoch>, s: Pipeline, done: seq<Epoch>, some: seq<nat>) {
    && parts.Keys == s.parts.Keys && |epochs| == |s.epochs| == |done|
    && (forall e: nat | e < |epochs| :: epochs[e] == if e in some then done[e] else s.epochs[e])
    && (forall key | key in parts ::
          PartView(parts[key]) == if Completes(s.epochs, some, key) then ClosePart(s.parts[key], done) else s.parts[key])
  }

  lemma CompleteStep(parts: map<Key, PartState>, epochs: seq<Epoch>, s: Pipeline, plan: nat, aborted: bool,
                     completions: seq<nat>, i: nat)
    requires i < |completions| && PlansOk(s) && TailsOk(s)
    requires forall e: nat :: e in completions <==> e < |s.epochs| && s.epochs[e].plan == plan
    requires forall j, k | 0 <= j < k < |completions| :: completions[j] != completions[k]
    requires Midway(parts, epochs, s, AdvancePlan(s.epochs, plan, Completed(aborted)), completions[..i])
    ensures var e := completions[i];
            && e < |epochs|
            && var epochs' := epochs[e := Advance(epochs[e], Completed(aborted))];
               Midway(Settled(parts, epochs[e].key, epochs'), epochs', s, AdvancePlan(s.epochs, plan, Completed(aborted)), completions[..i + 1])
  {
    var e := completions[i];
    assert e in completions;
    var done := AdvancePlan(s.epochs, plan, Completed(aborted));
    assert completions[..i + 1] == completions[..i] + [e];
    forall j | 0 <= j < i
      ensures completions[j] != e
    {
    }
    assert e !in completions[..i];
    assert epochs[e] == s.epochs[e];
    var epochs' := epochs[e := done[e]];
    var key := epochs[e].key;
    CompletesOnce(s, plan, completions, i, key);
    CompletesMore(s.epochs, completions, i);
    if key in parts {
      TailIsSettled(s, plan, completions, i, key, epochs', done);
    }
  }

  /** With every completion recorded the plan is closed. */
  lemma AllRecorded(parts: map<Key, PartState>, epochs: seq<Epoch>, s: Pipeline, plan: nat, aborted: bool, completions: seq<nat>)
    requires Enabled(s, Close(plan, aborted))
    requires forall e: nat :: e in completions <==> e < |s.epochs| && s.epochs[e].plan == plan
    requires Midway(parts, epochs, s, AdvancePlan(s.epochs, plan, Completed(aborted)), completions)
    ensures s.(parts := PartViews(parts), epochs := epochs, plans := s.plans[plan := Closed]) == Next(s, Close(plan, aborted))
  {
    var closed := Next(s, Close(plan, aborted));
    assert epochs == closed.epochs;
    assert PartViews(parts) == closed.parts;
  }

  /** One of the completions is an epoch of this partition. */
  predicate Completes(epochs: seq<Epoch>, completions: seq<nat>, key: Key) {
    exists e | e in completions :: e < |epochs| && epochs[e].key == key
  }

  lemma CompletesMore(epochs: seq<Epoch>, completions: seq<nat>, i: nat)
    requires i < |completions| && completions[i] < |epochs|
    ensures forall key :: Completes(epochs, completions[..i + 1], key) <==>
              Completes(epochs, completions[..i], key) || epochs[completions[i]].key == key
  {
  }

  /** A plan completes each partition once. */
  lemma CompletesOnce(s: Pipeline, plan: nat, completions: seq<nat>, i: nat, key: Key)
    requires PlansOk(s) && i < |completions|
    requires forall e: nat :: e in completions <==> e < |s.epochs| && s.epochs[e].plan == plan
    requires forall j, k | 0 <= j < k < |completions| :: completions[j] != completions[k]
    requires completions[i] < |s.epochs| && key == s.epochs[completions[i]].key
    ensures !Completes(s.epochs, completions[..i], key)
  {
  }

  /** When a partition is completed, its tail is already as it will be: it is this epoch or of another plan. */
  lemma TailIsSettled(s: Pipeline, plan: nat, completions: seq<nat>, i: nat, key: Key, epochs: seq<Epoch>, done: seq<Epoch>)
    requires PlansOk(s) && TailsOk(s) && i < |completions| && key in s.parts && |epochs| == |s.epochs| == |done|
    requires forall e: nat :: e in completions <==> e < |s.epochs| && s.epochs[e].plan == plan
    requires forall e: nat | e < |epochs| && s.epochs[e].plan != plan :: done[e] == s.epochs[e]
    requires forall e: nat | e < |epochs| :: epochs[e] == if e in completions[..i] || e == completions[i] then done[e] else s.epochs[e]
    requires completions[i] < |s.epochs| && key == s.epochs[completions[i]].key
    ensures s.parts[key].tail.Some? ==>
              s.parts[key].tail.value < |epochs| && epochs[s.parts[key].tail.value] == done[s.parts[key].tail.value]
  {
  }

}
