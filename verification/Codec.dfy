/**
 The durable form of a metadata row and the in-memory metadata store built on it. The protobuf payload
 is a record; the order in which a hash map lists its partitions is a parameter.
 */
module Codec {
  import opened Numeric
  import opened LeaseStore
  import opened Keys

  datatype CompressionCodec = NoCompression | Zstd

  datatype Compression = Compression(codec: CompressionCodec, level: Option<int>)

  datatype ByteRange = ByteRange(start: u64, end: u64)

  datatype BatchMetadata = BatchMetadata(seqs: SeqRange, bytes: ByteRange, payloadBytes: u64)

  // Instants are nanoseconds since the Unix epoch, within the years -9999 to 9999.
  const INSTANT_MIN: int := -377_705_116_800 * 1_000_000_000
  const INSTANT_MAX: int := 253_402_300_800 * 1_000_000_000 - 1

  type Instant = t: int | INSTANT_MIN <= t <= INSTANT_MAX witness 0

  datatype Row = Row(
    window: WindowKey,
    id: u64,
    blobKey: string,
    compression: Compression,
    index: map<nat, BatchMetadata>,
    createdAt: Instant,
    publishedAt: Instant)

  datatype StoredCompression = StoredCompression(codec: int, level: int)

  datatype StoredPartition = StoredPartition(partition: nat, batch: Option<BatchMetadata>)

  datatype Message = Message(
    blobKey: string,
    createdMs: int,
    publishedMs: int,
    compression: Option<StoredCompression>,
    partitions: seq<StoredPartition>)

  datatype Encoded = Encoded(partitionKey: string, sortKey: string, payload: Message)

  // ---------------------------------------------------------------------------------------------
  // Encoding
  // ---------------------------------------------------------------------------------------------

  const MILLISECOND: int := 1_000_000

  function Millis(t: Instant): int {
    t / MILLISECOND
  }

  function EncodeCompression(c: Compression): StoredCompression {
    match c.codec
    case NoCompression => StoredCompression(0, 0)
    case Zstd => StoredCompression(1, if c.level.Some? then c.level.value else 0)
  }

  /** `order` lists the partitions of the index, each once. */
  ghost predicate Lists(order: seq<nat>, index: map<nat, BatchMetadata>) {
    && (forall p :: p in order <==> p in index)
    && (forall i, j | 0 <= i < j < |order| :: order[i] != order[j])
  }

  function EncodePartitions(index: map<nat, BatchMetadata>, order: seq<nat>): seq<StoredPartition>
    requires forall p | p in order :: p in index
  {
    seq(|order|, i requires 0 <= i < |order| => StoredPartition(order[i], Some(index[order[i]])))
  }

  function Encode(row: Row, order: seq<nat>): Encoded
    requires forall p | p in order :: p in row.index
  {
    Encoded(FormatWindow(row.window), FormatLex(row.id),
            Message(row.blobKey, Millis(row.createdAt), Millis(row.publishedAt),
                    Some(EncodeCompression(row.compression)), EncodePartitions(row.index, order)))
  }

  // ---------------------------------------------------------------------------------------------
  // Decoding
  // ---------------------------------------------------------------------------------------------

  function DecodeCompression(c: StoredCompression): Result<Compression> {
    if c.codec == 0 then Ok(Compression(NoCompression, None))
    else if c.codec == 1 then Ok(Compression(Zstd, Some(c.level)))
    else Err
  }

  predicate IsSound(batch: BatchMetadata) {
    batch.seqs.start <= batch.seqs.end && batch.bytes.start < batch.bytes.end
  }

  function DecodeInstant(ms: int): Result<Instant> {
    if INSTANT_MIN <= ms * MILLISECOND <= INSTANT_MAX then Ok(ms * MILLISECOND) else Err
  }

  /** Every partition has a sound batch and none is listed twice. */
  predicate SoundPartitions(partitions: seq<StoredPartition>) {
    && (forall i | 0 <= i < |partitions| :: partitions[i].batch.Some? && IsSound(partitions[i].batch.value))
    && (forall i, j | 0 <= i < j < |partitions| :: partitions[i].partition != partitions[j].partition)
  }

  /** Builds the index, refusing missing, unsound or repeated partitions. */
  method DecodePartitions(partitions: seq<StoredPartition>) returns (r: Result<map<nat, BatchMetadata>>)
    ensures r.Ok? <==>
            && (forall i | 0 <= i < |partitions| ::
                  && partitions[i].batch.Some?
                  && partitions[i].batch.value.seqs.start <= partitions[i].batch.value.seqs.end
                  && partitions[i].batch.value.bytes.start < partitions[i].batch.value.bytes.end)
            && (forall i, j | 0 <= i < j < |partitions| :: partitions[i].partition != partitions[j].partition)
    ensures r.Ok? ==> forall p :: p in r.value <==> exists i | 0 <= i < |partitions| :: partitions[i].partition == p
    ensures r.Ok? ==> forall i | 0 <= i < |partitions| ::
              partitions[i].partition in r.value && Some(r.value[partitions[i].partition]) == partitions[i].batch
  {
    var index: map<nat, BatchMetadata> := map[];
    for k := 0 to |partitions|
      invariant SoundPartitions(partitions[..k])
      invariant forall p :: p in index <==> exists i | 0 <= i < k :: partitions[i].partition == p
      invariant forall i | 0 <= i < k ::
                  partitions[i].partition in index && Some(index[partitions[i].partition]) == partitions[i].batch
    {
      var stored := partitions[k];
      if stored.batch.None? || !IsSound(stored.batch.value) {
        return Err;
      }
      if stored.partition in index {
        return Err;
      }
      index := index[stored.partition := stored.batch.value];
    }
    assert partitions[..|partitions|] == partitions;
    r := Ok(index);
  }

  ghost function IndexOf(partitions: seq<StoredPartition>): map<nat, BatchMetadata>
    requires SoundPartitions(partitions)
  {
    map i | 0 <= i < |partitions| :: partitions[i].partition := partitions[i].batch.value
  }

  /** The index holds exactly what was listed. */
  lemma IndexOfIs(partitions: seq<StoredPartition>, p: nat, batch: BatchMetadata)
    requires SoundPartitions(partitions)
    ensures p in IndexOf(partitions) && IndexOf(partitions)[p] == batch <==> StoredPartition(p, Some(batch)) in partitions
  {
    var index := IndexOf(partitions);
    if p in index && index[p] == batch {
      var i :| 0 <= i < |partitions| && partitions[i].partition == p;
      assert index[partitions[i].partition] == partitions[i].batch.value;
      assert partitions[i] == StoredPartition(p, Some(batch));
    }
  }

  /** What a stored item decodes to; keys are checked first, then the payload field by field. */
  ghost function Decoded(e: Encoded): Result<Row> {
    var window, id := ParseWindow(e.partitionKey), ParseU64(e.sortKey);
    var m := e.payload;
    if window.Err? || id.Err? || m.blobKey == "" || m.compression.None? then
      Err
    else
      var compression := DecodeCompression(m.compression.value);
      if compression.Err? || m.partitions == [] || !SoundPartitions(m.partitions) then
        Err
      else
        var created, published := DecodeInstant(m.createdMs), DecodeInstant(m.publishedMs);
        if created.Err? || published.Err? then Err
        else Ok(Row(window.value, id.value, m.blobKey, compression.value, IndexOf(m.partitions), created.value, published.value))
  }

  method Decode(e: Encoded) returns (r: Result<Row>)
    ensures r == Decoded(e)
  {
    var window := ParseWindow(e.partitionKey);
    if window.Err? {
      return Err;
    }
    var id := ParseU64(e.sortKey);
    if id.Err? {
      return Err;
    }
    var m := e.payload;
    if m.blobKey == "" || m.compression.None? {
      return Err;
    }
    var compression := DecodeCompression(m.compression.value);
    if compression.Err? || m.partitions == [] {
      return Err;
    }
    var index := DecodePartitions(m.partitions);
    if index.Err? {
      return Err;
    }
    assert index.value == IndexOf(m.partitions);
    var created, published := DecodeInstant(m.createdMs), DecodeInstant(m.publishedMs);
    if created.Err? || published.Err? {
      return Err;
    }
    r := Ok(Row(window.value, id.value, m.blobKey, compression.value, index.value, created.value, published.value));
  }

  // ---------------------------------------------------------------------------------------------
  // What survives storage
  // ---------------------------------------------------------------------------------------------

  /** A row that decodes at all. */
  predicate IsCompliant(row: Row) {
    && I64_MIN <= row.window.start <= I64_MAX
    && row.blobKey != "" && row.index != map[] && forall p | p in row.index :: IsSound(row.index[p])
  }

  function Truncated(t: Instant): Instant {
    Millis(t) * MILLISECOND
  }

  function Canonical(c: Compression): Compression {
    match c.codec
    case NoCompression => Compression(NoCompression, None)
    case Zstd => Compression(Zstd, Some(if c.level.Some? then c.level.value else 0))
  }

  /** What storage keeps of a row: instants to the millisecond, compression as the constructors build it. */
  function Stored(row: Row): Row {
    row.(compression := Canonical(row.compression), createdAt := Truncated(row.createdAt),
         publishedAt := Truncated(row.publishedAt))
  }

  lemma PartitionsRoundTrip(index: map<nat, BatchMetadata>, order: seq<nat>)
    requires Lists(order, index)
    ensures SoundPartitions(EncodePartitions(index, order)) <==> forall p | p in index :: IsSound(index[p])
    ensures SoundPartitions(EncodePartitions(index, order)) ==> IndexOf(EncodePartitions(index, order)) == index
  {
    var stored := EncodePartitions(index, order);
    if SoundPartitions(stored) {
      forall p | p in index
        ensures IsSound(index[p])
      {
        var i :| 0 <= i < |order| && order[i] == p;
        assert stored[i] == StoredPartition(p, Some(index[p]));
      }
      var rebuilt := IndexOf(stored);
      forall p
        ensures p in rebuilt <==> p in index
      {
        if p in index {
          var i :| 0 <= i < |order| && order[i] == p;
          assert stored[i].partition == p;
        }
      }
    }
  }

  lemma ListsNothingIff(index: map<nat, BatchMetadata>, order: seq<nat>)
    requires Lists(order, index)
    ensures order == [] <==> index == map[]
  {
    if order != [] {
      assert order[0] in order;
    }
    if index != map[] {
      var p :| p in index;
      assert p in order;
    }
  }

  /** The stored milliseconds are the last ones not after the instant. */
  predicate IsLastMillisecond(stored: Instant, t: Instant) {
    stored <= t < stored + 1_000_000 && stored % 1_000_000 == 0
  }

  lemma TruncatedIs(t: Instant)
    ensures IsLastMillisecond(Truncated(t), t)
  {
  }

  /** What decoding accepts, for any stored item, and the fields it yields. */
  lemma DecodesIff(e: Encoded)
    ensures Decoded(e).Ok? <==>
            && ParseWindow(e.partitionKey).Ok? && ParseU64(e.sortKey).Ok?
            && e.payload.blobKey != ""
            && e.payload.compression.Some? && 0 <= e.payload.compression.value.codec <= 1
            && e.payload.partitions != [] && SoundPartitions(e.payload.partitions)
            && INSTANT_MIN <= e.payload.createdMs * 1_000_000 <= INSTANT_MAX
            && INSTANT_MIN <= e.payload.publishedMs * 1_000_000 <= INSTANT_MAX
    ensures Decoded(e).Ok? ==>
              var row := Decoded(e).value;
              var stored := e.payload.compression.value;
              && Ok(row.window) == ParseWindow(e.partitionKey) && Ok(row.id) == ParseU64(e.sortKey)
              && row.blobKey == e.payload.blobKey
              && row.createdAt == e.payload.createdMs * 1_000_000 && row.publishedAt == e.payload.publishedMs * 1_000_000
              && (stored.codec == 0 ==> row.compression == Compression(NoCompression, None))
              && (stored.codec == 1 ==> row.compression == Compression(Zstd, Some(stored.level)))
              && (forall p, batch ::
                    (p in row.index && row.index[p] == batch) <==> StoredPartition(p, Some(batch)) in e.payload.partitions)
  {
    if Decoded(e).Ok? {
      var row, stored := Decoded(e).value, e.payload.partitions;
      forall p: nat, batch
        ensures (p in row.index && row.index[p] == batch) <==> StoredPartition(p, Some(batch)) in stored
      {
        IndexOfIs(stored, p, batch);
      }
    }
  }

  /** Decoding what was encoded gives back exactly what storage keeps, and refuses exactly the noncompliant rows. */
  lemma DecodeEncode(row: Row, order: seq<nat>)
    requires Lists(order, row.index) && I64_MIN <= row.window.start <= I64_MAX
    ensures Decoded(Encode(row, order)) == if IsCompliant(row) then Ok(Stored(row)) else Err
    ensures Decoded(Encode(row, order)).Ok? <==>
            && row.blobKey != "" && row.index != map[]
            && (forall p | p in row.index ::
                  row.index[p].seqs.start <= row.index[p].seqs.end && row.index[p].bytes.start < row.index[p].bytes.end)
    ensures Decoded(Encode(row, order)).Ok? ==>
              var back := Decoded(Encode(row, order)).value;
              && back.window == row.window && back.id == row.id && back.blobKey == row.blobKey && back.index == row.index
              && IsLastMillisecond(back.createdAt, row.createdAt) && IsLastMillisecond(back.publishedAt, row.publishedAt)
              && back.compression.codec == row.compression.codec
              && (row.compression.codec == NoCompression ==> back.compression.level == None)
              && (row.compression.codec == Zstd ==>
                    back.compression.level == if row.compression.level.Some? then row.compression.level else Some(0))
  {
    WindowKeyRoundTrip(row.window);
    ParseFormatLex(row.id);
    PartitionsRoundTrip(row.index, order);
    ListsNothingIff(row.index, order);
  }

  /** A row survives unchanged exactly when it is compliant, dated in whole milliseconds and canonically compressed. */
  lemma RoundTripIff(row: Row, order: seq<nat>)
    requires Lists(order, row.index) && I64_MIN <= row.window.start <= I64_MAX
    ensures Decoded(Encode(row, order)) == Ok(row) <==>
            && row.blobKey != "" && row.index != map[]
            && (forall p | p in row.index ::
                  row.index[p].seqs.start <= row.index[p].seqs.end && row.index[p].bytes.start < row.index[p].bytes.end)
            && row.createdAt % 1_000_000 == 0 && row.publishedAt % 1_000_000 == 0
            && (row.compression.level.None? <==> row.compression.codec == NoCompression)
  {
    DecodeEncode(row, order);
  }

  // ---------------------------------------------------------------------------------------------
  // The in-memory store
  // ---------------------------------------------------------------------------------------------

  /** The rows at or above the bound that storage gives back, in the order they were written. */
  function ReadBack(rows: seq<Row>, min: Option<u64>): seq<Row> {
    if rows == [] then
      []
    else
      var rest := ReadBack(rows[..|rows| - 1], min);
      var last := rows[|rows| - 1];
      if (min.Some? ==> last.id >= min.value) && IsCompliant(last) then rest + [Stored(last)] else rest
  }

  /** Rows filed under a window's key are rows of that window. */
  lemma {:induction false} ReadBackIsOfWindow(rows: seq<Row>, min: Option<u64>, window: WindowKey)
    requires I64_MIN <= window.start <= I64_MAX
    requires forall i | 0 <= i < |rows| ::
               FormatWindow(rows[i].window) == FormatWindow(window) && I64_MIN <= rows[i].window.start <= I64_MAX
    ensures forall row | row in ReadBack(rows, min) :: row.window == window
    decreases |rows|
  {
    if rows != [] {
      ReadBackIsOfWindow(rows[..|rows| - 1], min, window);
      WindowKeyRoundTrip(window);
      WindowKeyRoundTrip(rows[|rows| - 1].window);
    }
  }

  /** The stored item holds the row, whatever order its partitions were listed in. */
  ghost predicate Holds(e: Encoded, row: Row) {
    exists order :: Lists(order, row.index) && e == Encode(row, order)
  }

  /** One stored item of a scan: filtered by its key as a string, then decoded, skipped if it does not decode. */
  method ReadItem(e: Encoded, min: Option<u64>, ghost row: Row) returns (r: Option<Row>)
    requires Holds(e, row) && I64_MIN <= row.window.start <= I64_MAX
    ensures r == if (min.Some? ==> row.id >= min.value) && IsCompliant(row) then Some(Stored(row)) else None
  {
    ghost var order :| Lists(order, row.index) && e == Encode(row, order);
    DecodeEncode(row, order);
    if min.Some? {
      KeysOrderAsNumbers(row.id, min.value);
      if Less(e.sortKey, FormatLex(min.value)) {
        return None;
      }
    }
    var decoded := Decode(e);
    r := if decoded.Ok? then Some(decoded.value) else None;
  }

  lemma ReadBackOneMore(rows: seq<Row>, i: nat, min: Option<u64>)
    requires i < |rows|
    ensures ReadBack(rows[..i + 1], min) ==
            ReadBack(rows[..i], min)
            + if (min.Some? ==> rows[i].id >= min.value) && IsCompliant(rows[i]) then [Stored(rows[i])] else []
  {
    assert rows[..i + 1][..i] == rows[..i];
  }

  /** The items of one window, one after another. */
  method ReadItems(segments: seq<Encoded>, min: Option<u64>, ghost all: seq<Row>) returns (rows: seq<Row>)
    requires |segments| == |all|
    requires forall i | 0 <= i < |all| :: Holds(segments[i], all[i]) && I64_MIN <= all[i].window.start <= I64_MAX
    ensures rows == ReadBack(all, min)
  {
    rows := [];
    for i := 0 to |segments|
      invariant rows == ReadBack(all[..i], min)
    {
      ReadBackOneMore(all, i, min);
      var row := ReadItem(segments[i], min, all[i]);
      if row.Some? {
        rows := rows + [row.value];
      }
    }
    assert all[..|segments|] == all;
  }

  class MemoryMetadataStore {
    var windows: map<string, seq<Encoded>>
    ghost var written: map<string, seq<Row>>

    ghost predicate Valid()
      reads this
    {
      && windows.Keys == written.Keys
      && forall key | key in windows ::
           && |windows[key]| == |written[key]|
           && forall i | 0 <= i < |windows[key]| ::
                && FormatWindow(written[key][i].window) == key && I64_MIN <= written[key][i].window.start <= I64_MAX
                && Holds(windows[key][i], written[key][i])
    }

    ghost function RowsOf(key: string): seq<Row>
      reads this
    {
      if key in written then written[key] else []
    }

    constructor ()
      ensures Valid() && written == map[]
    {
      windows, written := map[], map[];
    }

    /** Unfenced writes append to their window; fenced ones are refused. */
    method WriteSegment(row: Row, fenced: bool, order: seq<nat>) returns (ok: bool)
      requires Valid() && Lists(order, row.index) && I64_MIN <= row.window.start <= I64_MAX
      modifies this
      ensures Valid() && ok == !fenced
      ensures !ok ==> written == old(written)
      ensures ok ==> written == old(written)[FormatWindow(row.window) := old(RowsOf(FormatWindow(row.window))) + [row]]
    {
      if fenced {
        return false;
      }
      var encoded := Encode(row, order);
      assert Holds(encoded, row);
      var key := encoded.partitionKey;
      written := written[key := RowsOf(key) + [row]];
      windows := windows[key := (if key in windows then windows[key] else []) + [encoded]];
      ok := true;
    }

    /** The string-filtered scan returns exactly the window's rows at or above the bound. */
    method ScanWindowFromSnowflake(window: WindowKey, min: Option<u64>) returns (rows: seq<Row>)
      requires Valid()
      ensures rows == ReadBack(RowsOf(FormatWindow(window)), min)
      ensures I64_MIN <= window.start <= I64_MAX ==> forall row | row in rows :: row.window == window
    {
      rows := [];
      var key := FormatWindow(window);
      if key !in windows {
        return;
      }
      var segments := windows[key];
      ghost var all := written[key];
      if I64_MIN <= window.start <= I64_MAX {
        ReadBackIsOfWindow(all, min, window);
      }
      rows := ReadItems(segments, min, all);
    }
  }
}
