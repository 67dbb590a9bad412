/**
 A record keeps its sequence number from acceptance to delivery: merging buffered batches and
 discarding what a cursor already covers never shift an offset.
 */
module Offsets {
  import opened Numeric
  import opened LeaseStore

  /** An accepted batch; `recordCount` and `payloadBytes` come from its summary. */
  datatype Accepted<T> = Accepted(records: seq<T>, range: SeqRange, recordCount: nat, payloadBytes: u64)

  datatype Merged<T> = Merged(records: seq<T>, range: SeqRange, recordCount: nat, payloadBytes: u64)

  /** One number per record, as the allocator hands them out. */
  predicate Numbered<T>(b: Accepted<T>) {
    b.range.start <= b.range.end && |b.records| == b.range.end - b.range.start + 1
  }

  /** The record a range of consecutive numbers gives to number `s`. */
  function RecordAt<T>(records: seq<T>, range: SeqRange, s: nat): Option<T> {
    if range.start <= s <= range.end && s - range.start < |records| then Some(records[s - range.start]) else None
  }

  function CountSum<T>(batches: seq<Accepted<T>>): nat {
    if batches == [] then 0 else CountSum(batches[..|batches| - 1]) + batches[|batches| - 1].recordCount
  }

  function ByteSum<T>(batches: seq<Accepted<T>>): nat {
    if batches == [] then 0 else ByteSum(batches[..|batches| - 1]) + batches[|batches| - 1].payloadBytes
  }

  predicate Consecutive<T>(batches: seq<Accepted<T>>) {
    forall i | 0 < i < |batches| :: batches[i].range.start == batches[i - 1].range.end + 1
  }

  /** When a merge goes through: something to merge, no gap, and totals that fit their widths. */
  predicate Mergeable<T>(batches: seq<Accepted<T>>) {
    && batches != [] && Consecutive(batches)
    && (|batches| > 1 ==> CountSum(batches) <= U32_MAX && ByteSum(batches) <= U64_MAX)
  }

  lemma {:induction false} SumsGrow<T>(batches: seq<Accepted<T>>, k: nat)
    requires k <= |batches|
    ensures CountSum(batches[..k]) <= CountSum(batches) && ByteSum(batches[..k]) <= ByteSum(batches)
    decreases |batches|
  {
    if k < |batches| {
      SumsGrow(batches[..|batches| - 1], k);
      assert batches[..|batches| - 1][..k] == batches[..k];
    } else {
      assert batches[..k] == batches;
    }
  }

  /** Each accepted record sits in the merged range under its own number. */
  predicate KeepsOffsets<T(==)>(batches: seq<Accepted<T>>, records: seq<T>, range: SeqRange) {
    forall i, s | 0 <= i < |batches| && batches[i].range.start <= s <= batches[i].range.end ::
      RecordAt(records, range, s) == RecordAt(batches[i].records, batches[i].range, s)
  }

  /**
   Succeeds exactly on gap-free batches whose totals fit, covers exactly their numbers, and leaves every
   record under its own number.
   */
  method MergePartitionBatches<T(==)>(batches: seq<Accepted<T>>) returns (r: Result<Merged<T>>)
    requires forall b | b in batches :: Numbered(b)
    ensures r.Ok? <==> Mergeable(batches)
    ensures r.Ok? ==>
              && r.value.range == SeqRange(batches[0].range.start, batches[|batches| - 1].range.end)
              && r.value.range.start <= r.value.range.end
              && |r.value.records| == r.value.range.end - r.value.range.start + 1
              && KeepsOffsets(batches, r.value.records, r.value.range)
              && r.value.recordCount == CountSum(batches) && r.value.payloadBytes == ByteSum(batches)
  {
    if batches == [] {
      return Err;
    }
    var m := Merged(batches[0].records, batches[0].range, batches[0].recordCount, batches[0].payloadBytes);
    StartMerge(batches);
    for i := 1 to |batches|
      invariant MergedUpTo(batches, i, m)
    {
      var b := batches[i];
      SumsGrow(batches, i + 1);
      assert batches[..i + 1][..i] == batches[..i];
      if m.range.end + 1 > U64_MAX || b.range.start != m.range.end + 1 {
        return Err;
      }
      if m.recordCount + b.recordCount > U32_MAX || m.payloadBytes + b.payloadBytes > U64_MAX {
        return Err;
      }
      MergeOneMore(batches, i, m);
      m := Extended(m, b);
    }
    assert batches[..|batches|] == batches;
    r := Ok(m);
  }

  function Extended<T>(m: Merged<T>, b: Accepted<T>): Merged<T>
    requires m.payloadBytes + b.payloadBytes <= U64_MAX
  {
    Merged(m.records + b.records, m.range.(end := b.range.end), m.recordCount + b.recordCount, m.payloadBytes + b.payloadBytes)
  }

  /** The first `i` batches are merged in `m`. */
  predicate MergedUpTo<T(==)>(batches: seq<Accepted<T>>, i: nat, m: Merged<T>) {
    && 1 <= i <= |batches| && Consecutive(batches[..i])
    && m.range == SeqRange(batches[0].range.start, batches[i - 1].range.end) && m.range.start <= m.range.end
    && |m.records| == m.range.end - m.range.start + 1
    && KeepsOffsets(batches[..i], m.records, m.range)
    && m.recordCount == CountSum(batches[..i]) && m.payloadBytes == ByteSum(batches[..i])
    && (i > 1 ==> m.recordCount <= U32_MAX)
  }

  lemma StartMerge<T>(batches: seq<Accepted<T>>)
    requires batches != [] && Numbered(batches[0])
    ensures MergedUpTo(batches, 1, Merged(batches[0].records, batches[0].range, batches[0].recordCount, batches[0].payloadBytes))
  {
  }

  lemma MergeOneMore<T>(batches: seq<Accepted<T>>, i: nat, m: Merged<T>)
    requires i < |batches| && (forall b | b in batches :: Numbered(b)) && MergedUpTo(batches, i, m)
    requires batches[i].range.start == m.range.end + 1
    requires m.recordCount + batches[i].recordCount <= U32_MAX && m.payloadBytes + batches[i].payloadBytes <= U64_MAX
    ensures MergedUpTo(batches, i + 1, Extended(m, batches[i]))
  {
    assert batches[..i + 1][..i] == batches[..i] && Numbered(batches[i]);
    MergedOffsets(batches, i, m);
  }

  lemma MergedOffsets<T>(batches: seq<Accepted<T>>, i: nat, m: Merged<T>)
    requires i < |batches| && (forall b | b in batches :: Numbered(b)) && MergedUpTo(batches, i, m)
    requires batches[i].range.start == m.range.end + 1
    ensures KeepsOffsets(batches[..i + 1], m.records + batches[i].records, m.range.(end := batches[i].range.end))
  {
    var records, range := m.records + batches[i].records, m.range.(end := batches[i].range.end);
    forall j, s | 0 <= j < i + 1 && batches[j].range.start <= s <= batches[j].range.end
      ensures RecordAt(records, range, s) == RecordAt(batches[j].records, batches[j].range, s)
    {
      assert batches[j] in batches && Numbered(batches[j]) && Numbered(batches[i]);
      if j < i {
        assert batches[..i][j] == batches[j];
        assert RecordAt(m.records, m.range, s) == RecordAt(batches[j].records, batches[j].range, s);
        assert records[s - range.start] == m.records[s - range.start];
      } else {
        assert records[s - range.start] == batches[i].records[s - batches[i].range.start];
      }
    }
  }

  /** A delivered batch. */
  class ConsumerBatch<T> {
    var range: SeqRange
    var records: seq<T>

    constructor (range: SeqRange, records: seq<T>)
      ensures this.range == range && this.records == records
    {
      this.range, this.records := range, records;
    }

    /** Exactly the records above the cursor remain, each under its own number. */
    method DiscardThrough(cursor: u64)
      requires range.start <= range.end && |records| == range.end - range.start + 1 <= U64_MAX && cursor <= range.end
      modifies this
      ensures range.end == old(range.end)
      ensures cursor < range.end ==> range.start <= range.end && |records| == range.end - range.start + 1
      ensures cursor == range.end ==> records == []
      ensures forall s: nat :: RecordAt(records, range, s) == if s <= cursor then None else RecordAt(old(records), old(range), s)
    {
      if cursor < range.start {
        return;
      }
      var discarded := SatAdd(SatSub(cursor, range.start), 1);
      records := records[discarded..];
      range := range.(start := SatAdd(cursor, 1));
    }
  }

  /**
   End to end: the record that acceptance numbered `s` is the one a delivered batch holds under `s`,
   whatever was merged around it and whatever a cursor below `s` discarded.
   */
  method Deliver<T(==)>(batches: seq<Accepted<T>>, cursor: u64) returns (batch: ConsumerBatch?<T>)
    requires (forall b | b in batches :: Numbered(b)) && Mergeable(batches)
    requires cursor < batches[|batches| - 1].range.end && batches[|batches| - 1].range.end - batches[0].range.start < U64_MAX
    ensures batch != null && batch.range.start <= batch.range.end
    ensures forall i, s | 0 <= i < |batches| && batches[i].range.start <= s <= batches[i].range.end ::
              RecordAt(batch.records, batch.range, s)
              == if s <= cursor then None else RecordAt(batches[i].records, batches[i].range, s)
  {
    var merged := MergePartitionBatches(batches);
    batch := new ConsumerBatch(merged.value.range, merged.value.records);
    assert Numbered(batches[0]) && Numbered(batches[|batches| - 1]);
    batch.DiscardThrough(cursor);
  }
}
