/**
 The mutable side of the strong metadata cache: completing a load or a suffix scan numbers the entry
 and decides, under the key's lock, whether the retained sealed entry is replaced.
 */
module MetadataCache {
  import opened Numeric
  import opened SealedCache
  import opened MetadataRead

  datatype Coverage = Tail | FullRecovery

  datatype CacheKey = CacheKey(topic: string, windowStart: int, coverage: Coverage)

  function RetainedAt(entries: map<CacheKey, Entry>, key: CacheKey): Option<Entry> {
    if key in entries then Some(entries[key]) else None
  }

  /** The global scan floor, or none for full recovery. */
  method ScanFloor(spec: Spec) returns (floor: Option<nat>)
    ensures floor == Floor(spec)
  {
    if spec.bounds.Some? && spec.bounds.value != map[] {
      var least := MinSnowflake(spec.bounds.value);
      floor := Some(least);
    } else {
      floor := None;
    }
  }

  class StrongCache {
    var retained: map<CacheKey, Entry>
    var generation: nat

    constructor ()
      ensures retained == map[] && generation == 0
    {
      retained, generation := map[], 0;
    }

    /** A finished load; a late scan never overwrites a retained proof that covers at least as much. */
    method CompleteLoad(c: Config, key: CacheKey, spec: Spec, rows: seq<Segment>, startedAt: int, observedAt: int)
      returns (entry: Entry)
      modifies this
      ensures generation == old(generation) + 1
      ensures entry == LoadedEntry(c, spec, rows, startedAt, observedAt, generation)
      ensures RetainedAt(retained, key) == InstallLoaded(c, RetainedAt(old(retained), key), spec, entry)
      ensures retained - {key} == old(retained) - {key}
    {
      var floor := ScanFloor(spec);
      generation := generation + 1;
      var sealedBefore: Option<nat> := None;
      if spec.seal.Some? {
        sealedBefore := Some(MinId(spec.seal.value, Safe(c, startedAt, Horizon(c, spec))));
      }
      entry := Entry(floor, observedAt, sealedBefore, Some(startedAt), None, generation, rows);
      if sealedBefore.Some? && Below(floor, sealedBefore.value) {
        var keep := false;
        if key in retained {
          var current := retained[key];
          keep := && Covers(current.floor, floor)
                  && current.sealedBefore.Some? && current.sealedBefore.value >= sealedBefore.value
                  && (current.sealedHorizon.Some? ==> Horizon(c, spec) <= current.sealedHorizon.value);
        }
        if !keep {
          retained := retained[key := entry.(segments := rows[..PrefixLen(rows, sealedBefore.value)])];
        }
      }
    }

    /** A finished suffix scan; only the prefix that was extended may be promoted. */
    method CompleteSuffix(c: Config, key: CacheKey, spec: Spec, prefix: Entry, bound: nat, scanned: seq<Segment>,
                          startedAt: int, observedAt: int)
      returns (entry: Result<Entry>)
      modifies this
      ensures entry.Err? <==> prefix.sealedBefore.None? || prefix.sealedAt.None?
      ensures entry.Err? ==> retained == old(retained)
      ensures entry.Ok? ==>
                var rows := From(scanned, Some(bound));
                && generation == old(generation) + 1
                && entry.value == SuffixedEntry(c, spec, prefix, bound, rows, startedAt, observedAt, generation)
                && RetainedAt(retained, key)
                   == InstallPromoted(c, RetainedAt(old(retained), key), spec, prefix, bound, rows, startedAt, observedAt, generation)
                && retained - {key} == old(retained) - {key}
    {
      var rows := From(scanned, Some(bound));
      generation := generation + 1;
      if prefix.sealedBefore.None? || prefix.sealedAt.None? {
        return Err;
      }
      var stored, original := prefix.sealedBefore.value, prefix.sealedAt.value;
      var sealedBefore, sealedAt, sealedHorizon := bound, original, prefix.sealedHorizon;
      var floor := ScanFloor(spec);
      if MaxId(floor, bound) <= stored && startedAt >= original && observedAt >= startedAt && spec.seal.Some? {
        var horizon := Horizon(c, spec);
        var promoted := MinId(MinId(spec.seal.value, c.windowEnd), Safe(c, startedAt, horizon));
        if promoted > stored {
          sealedBefore, sealedAt, sealedHorizon := promoted, startedAt, Some(horizon);
          if key in retained && retained[key] == prefix {
            retained := retained[key := Entry(prefix.floor, observedAt, Some(sealedBefore), Some(sealedAt), sealedHorizon,
                                              generation, prefix.segments + Between(rows, stored, promoted))];
          }
        }
      }
      entry := Ok(Entry(prefix.floor, observedAt, Some(sealedBefore), Some(sealedAt), sealedHorizon, generation,
                        prefix.segments[..PrefixLen(prefix.segments, bound)] + rows));
    }

    /** Eviction only forgets. */
    method Evict(key: CacheKey)
      modifies this`retained
      ensures RetainedAt(retained, key).None? && retained - {key} == old(retained) - {key}
    {
      retained := retained - {key};
    }
  }
}
