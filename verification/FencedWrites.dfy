/**
 The DynamoDB metadata store's fenced write: one transaction that checks the lease of every partition in
 the row and puts the row.
 */
module FencedWrites {
  import opened Numeric
  import opened LeaseStore
  import LeaseProtocol

  datatype PartitionFence = PartitionFence(key: Key, fence: Fence)

  datatype RowKey = RowKey(topic: string, windowStart: int, id: u64)

  /** A row's key and the partitions its index holds. */
  datatype Row = Row(key: RowKey, partitions: map<nat, SeqRange>)

  datatype WriteOutcome = Written | FenceLost | Refused

  /** The leases a row needs: one per partition. */
  ghost function NeededKeys(row: Row): set<Key> {
    set p | p in row.partitions :: Key(row.key.topic, p)
  }

  ghost function KeysOf(fences: seq<PartitionFence>): set<Key> {
    set i | 0 <= i < |fences| :: fences[i].key
  }

  predicate HasDuplicate(fences: seq<PartitionFence>) {
    exists i, j | 0 <= i < j < |fences| :: fences[i].key == fences[j].key
  }

  predicate AllNeeded(row: Row, fences: seq<PartitionFence>) {
    forall i | 0 <= i < |fences| :: fences[i].key.topic == row.key.topic && fences[i].key.virtualPartition in row.partitions
  }

  /** What the request checks before it reaches storage. */
  predicate IsAcceptable(row: Row, fences: seq<PartitionFence>) {
    && fences != [] && |fences| <= MAX_FENCED_METADATA_PARTITIONS && !HasDuplicate(fences)
    && |fences| == |row.partitions| && AllNeeded(row, fences)
  }

  lemma {:induction false} DistinctKeysCount(fences: seq<PartitionFence>)
    requires !HasDuplicate(fences)
    ensures |KeysOf(fences)| == |fences|
    decreases |fences|
  {
    if fences == [] {
      assert KeysOf(fences) == {};
    } else {
      var front, last := fences[..|fences| - 1], fences[|fences| - 1];
      assert !HasDuplicate(front);
      DistinctKeysCount(front);
      forall k
        ensures k in KeysOf(fences) <==> k in KeysOf(front) || k == last.key
      {
        if k in KeysOf(front) {
          var i :| 0 <= i < |front| && front[i].key == k;
          assert fences[i].key == k;
        }
        if k == last.key {
          assert fences[|fences| - 1].key == k;
        }
      }
      assert KeysOf(fences) == KeysOf(front) + {last.key};
      forall i | 0 <= i < |front|
        ensures front[i].key != last.key
      {
        assert fences[i].key != fences[|fences| - 1].key;
      }
    }
  }

  lemma {:induction false} NeededCount(row: Row)
    ensures |NeededKeys(row)| == |row.partitions|
    decreases |row.partitions|
  {
    if row.partitions == map[] {
      assert NeededKeys(row) == {};
    } else {
      var p :| p in row.partitions;
      var rest := row.(partitions := row.partitions - {p});
      assert row.partitions.Keys == rest.partitions.Keys + {p};
      NeededCount(rest);
      assert NeededKeys(row) == NeededKeys(rest) + {Key(row.key.topic, p)};
    }
  }

  lemma SubsetOfSameSize<T>(a: set<T>, b: set<T>)
    requires a <= b && |a| == |b|
    ensures a == b
  {
    assert b == a + (b - a);
  }

  /** An acceptable list of fences names every partition of the row, and nothing else. */
  lemma AcceptableFencesCover(row: Row, fences: seq<PartitionFence>)
    requires IsAcceptable(row, fences)
    ensures KeysOf(fences) == NeededKeys(row)
  {
    DistinctKeysCount(fences);
    NeededCount(row);
    forall k | k in KeysOf(fences)
      ensures k in NeededKeys(row)
    {
      var i :| 0 <= i < |fences| && fences[i].key == k;
      assert k == Key(row.key.topic, fences[i].key.virtualPartition);
    }
    SubsetOfSameSize(KeysOf(fences), NeededKeys(row));
  }

  predicate Holds(leases: map<Key, Lease>, f: PartitionFence, now: int) {
    LeaseProtocol.FenceHolds(RowAt(leases, f.key), f.fence, now)
  }

  /** The partition's lease row names this holder, epoch and session, and expires after `now`. */
  predicate IsLive(leases: map<Key, Lease>, f: PartitionFence, now: int) {
    && f.key in leases
    && leases[f.key].fence.holder == f.fence.holder
    && leases[f.key].fence.epoch == f.fence.epoch
    && leases[f.key].fence.session == f.fence.session
    && leases[f.key].expiresAt > now
  }

  /** The checks of the transaction are exactly that. */
  lemma HoldsMeansLive(leases: map<Key, Lease>, f: PartitionFence, now: int)
    ensures Holds(leases, f, now) <==> IsLive(leases, f, now)
  {
  }

  lemma AcceptableMeans(row: Row, fences: seq<PartitionFence>)
    ensures IsAcceptable(row, fences) <==>
              && 1 <= |fences| <= 99
              && (forall i, j | 0 <= i < j < |fences| :: fences[i].key != fences[j].key)
              && (forall i | 0 <= i < |fences| ::
                    fences[i].key.topic == row.key.topic && fences[i].key.virtualPartition in row.partitions)
              && (forall p | p in row.partitions :: exists i | 0 <= i < |fences| :: fences[i].key == Key(row.key.topic, p))
  {
    if IsAcceptable(row, fences) {
      AcceptableFencesCover(row, fences);
      forall p | p in row.partitions
        ensures exists i | 0 <= i < |fences| :: fences[i].key == Key(row.key.topic, p)
      {
        assert Key(row.key.topic, p) in NeededKeys(row);
      }
    } else if && !HasDuplicate(fences) && AllNeeded(row, fences)
              && (forall p | p in row.partitions :: exists i | 0 <= i < |fences| :: fences[i].key == Key(row.key.topic, p)) {
      DistinctKeysCount(fences);
      NeededCount(row);
      forall k
        ensures k in KeysOf(fences) <==> k in NeededKeys(row)
      {
        if k in KeysOf(fences) {
          var i :| 0 <= i < |fences| && fences[i].key == k;
          assert k == Key(row.key.topic, fences[i].key.virtualPartition);
        }
      }
      assert KeysOf(fences) == NeededKeys(row);
    }
  }

  class DynamoMetadataStore {
    var leases: map<Key, Lease>
    var rows: map<RowKey, Row>

    constructor (leases: map<Key, Lease>)
      ensures this.leases == leases && rows == map[]
    {
      this.leases, rows := leases, map[];
    }

    method FindDuplicate(fences: seq<PartitionFence>) returns (found: bool)
      ensures found <==> HasDuplicate(fences)
    {
      var seen: set<Key> := {};
      for i := 0 to |fences|
        invariant !HasDuplicate(fences[..i])
        invariant forall k :: k in seen <==> exists j | 0 <= j < i :: fences[j].key == k
      {
        if fences[i].key in seen {
          return true;
        }
        seen := seen + {fences[i].key};
      }
      assert fences[..|fences|] == fences;
      found := false;
    }

    /** All lease checks of the transaction. */
    method CheckFences(fences: seq<PartitionFence>, now: int) returns (held: bool)
      ensures held <==> forall i | 0 <= i < |fences| :: IsLive(leases, fences[i], now)
    {
      for i := 0 to |fences|
        invariant forall j | 0 <= j < i :: IsLive(leases, fences[j], now)
      {
        HoldsMeansLive(leases, fences[i], now);
        if !Holds(leases, fences[i], now) {
          return false;
        }
      }
      held := true;
    }

    /**
     A fenced row is put only if every partition in it has a live lease under its own fence at that
     moment; anything else changes nothing.
     */
    method WriteSegment(row: Row, fences: Option<seq<PartitionFence>>, now: int) returns (outcome: WriteOutcome)
      modifies this`rows
      ensures outcome == Written ==> rows == old(rows)[row.key := row]
      ensures outcome != Written ==> rows == old(rows)
      ensures fences.None? ==> outcome == Written
      ensures fences.Some? ==>
                (outcome != Refused <==>
                   && 1 <= |fences.value| <= 99
                   && (forall i, j | 0 <= i < j < |fences.value| :: fences.value[i].key != fences.value[j].key)
                   && (forall i | 0 <= i < |fences.value| ::
                         fences.value[i].key.topic == row.key.topic && fences.value[i].key.virtualPartition in row.partitions)
                   && (forall p | p in row.partitions :: exists i | 0 <= i < |fences.value| :: fences.value[i].key == Key(row.key.topic, p)))
      ensures fences.Some? && outcome != Refused ==>
                (outcome == Written <==> forall i | 0 <= i < |fences.value| :: IsLive(leases, fences.value[i], now))
      ensures fences.Some? && outcome == Written ==>
                forall p | p in row.partitions ::
                  exists f | f in fences.value :: f.key == Key(row.key.topic, p) && IsLive(leases, f, now)
    {
      if fences.Some? {
        AcceptableMeans(row, fences.value);
        if fences.value == [] || |fences.value| > MAX_FENCED_METADATA_PARTITIONS {
          return Refused;
        }
        var duplicate := FindDuplicate(fences.value);
        if duplicate {
          return Refused;
        }
        if |fences.value| != |row.partitions| || !AllNeeded(row, fences.value) {
          return Refused;
        }
        var held := CheckFences(fences.value, now);
        if !held {
          return FenceLost;
        }
        EveryPartitionIsFenced(row, fences.value, leases, now);
      }
      rows := rows[row.key := row];
      outcome := Written;
    }
  }

  lemma EveryPartitionIsFenced(row: Row, fences: seq<PartitionFence>, leases: map<Key, Lease>, now: int)
    requires IsAcceptable(row, fences) && forall i | 0 <= i < |fences| :: IsLive(leases, fences[i], now)
    ensures forall p | p in row.partitions :: exists f | f in fences :: f.key == Key(row.key.topic, p) && IsLive(leases, f, now)
  {
    AcceptableFencesCover(row, fences);
    forall p | p in row.partitions
      ensures exists f | f in fences :: f.key == Key(row.key.topic, p) && IsLive(leases, f, now)
    {
      assert Key(row.key.topic, p) in NeededKeys(row);
      var i :| 0 <= i < |fences| && fences[i].key == Key(row.key.topic, p);
      assert fences[i] in fences;
    }
  }
}
