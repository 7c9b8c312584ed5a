/** The two readers of sealed streams: whole streams block after block, and
    ranges through a bounded cache of decoded blocks. */
module BlockReader {
  import opened Wrappers
  import opened Bytes
  import opened Format
  import opened Segment

  /** Block positions follow from the block size alone. */
  lemma PositionOf(cursor: nat, blockSize: nat, count: nat, length: nat)
    requires blockSize > 0 && cursor < length <= count * blockSize
    ensures var k := cursor / blockSize;
      k < count && k * blockSize <= cursor < k * blockSize + Min(blockSize, length - k * blockSize)
  {
    var k := cursor / blockSize;
    assert cursor == k * blockSize + cursor % blockSize;
    if k >= count { ScaledOrder(count, k, blockSize); }
  }

  lemma ScaledOrder(a: nat, b: nat, d: nat)
    requires a <= b
    ensures a * d <= b * d
  {
  }

  /** The decoded bytes a correct block stands for. */
  function Decoded(f: SegmentFile, b: Block): seq<byte>
    requires b.encodedOffset + b.encodedLen <= |f.payload|
  {
    Zstd.decompress(f.payload[b.encodedOffset..b.encodedOffset + b.encodedLen])
  }

  predicate BlockIntact(f: SegmentFile, b: Block) {
    && b.encodedOffset + b.encodedLen <= |f.payload|
    && |Decoded(f, b)| == b.rawLen && Xxh3(Decoded(f, b)) == b.rawHash
  }

  /** Reading, decompressing and checking one block. */
  method ReadBlock(f: SegmentFile, b: Block) returns (r: Result<seq<byte>>)
    ensures r.Ok? ==> b.encodedOffset + b.encodedLen <= |f.payload| && r.value == Decoded(f, b)
    ensures r.Ok? <==> BlockIntact(f, b)
  {
    if b.encodedOffset + b.encodedLen > |f.payload| { return Err(Format); }
    var raw := Decoded(f, b);
    if |raw| != b.rawLen || Xxh3(raw) != b.rawHash { return Err(Format); }
    return Ok(raw);
  }

  lemma BlockReads(f: SegmentFile, b: Block, id: nat, k: nat, content: seq<byte>)
    requires BlockHolds(b, f.blockSize, id, k, content, f.payload)
    ensures Decoded(f, b) == content[b.rawOffset..b.rawOffset + b.rawLen]
    ensures |Decoded(f, b)| == b.rawLen && Xxh3(Decoded(f, b)) == b.rawHash
  {
  }

  /** The bytes of `n` blocks of a stream from block `first` on, if each is there,
      belongs to the stream and is intact. */
  function BlocksContent(f: SegmentFile, id: nat, first: nat, n: nat): Option<seq<byte>> {
    if n == 0 then Some([])
    else
      var before := BlocksContent(f, id, first, n - 1);
      if before.None? || first + n > |f.blocks| then None
      else
        var b := f.blocks[first + n - 1];
        if b.stream == id && BlockIntact(f, b) then Some(before.value + Decoded(f, b)) else None
  }

  /** The bytes of a stream that continues at `start`, if its blocks are intact and
      together have the length and the hash of its entry. */
  function StreamContent(f: SegmentFile, id: nat, start: nat): Option<seq<byte>>
    requires id < |f.streams|
  {
    var e := f.streams[id];
    var raw := BlocksContent(f, id, e.firstBlock, e.blockCount);
    if e.globalStart == start && e.firstBlock + e.blockCount <= |f.blocks| && raw.Some? && |raw.value| == e.rawLen
       && (e.rawLen > 0 ==> Xxh3(raw.value) == e.rawHash) then raw
    else None
  }

  /** The eager reader: every block of one stream in order, then the stream's
      own length and hash. Any damage is found. */
  method ReadStream(f: SegmentFile, id: nat, expectedStart: nat) returns (r: Result<seq<byte>>)
    requires id < |f.streams|
    ensures r.Ok? <==> StreamContent(f, id, expectedStart).Some?
    ensures r.Ok? ==> Some(r.value) == StreamContent(f, id, expectedStart)
  {
    hide BlockIntact, Decoded;
    var e := f.streams[id];
    if e.globalStart != expectedStart { return Err(Format); }
    if e.firstBlock + e.blockCount > |f.blocks| { return Err(Format); }
    var raw: seq<byte> := [];
    for n := 0 to e.blockCount
      invariant BlocksContent(f, id, e.firstBlock, n) == Some(raw)
    {
      var b := f.blocks[e.firstBlock + n];
      BlocksStop(f, id, e.firstBlock, n + 1, e.blockCount);
      if b.stream != id { return Err(Format); }
      var part := ReadBlock(f, b);
      if part.Err? { return Err(Format); }
      raw := raw + part.value;
    }
    if |raw| != e.rawLen || (e.rawLen > 0 && Xxh3(raw) != e.rawHash) { return Err(Format); }
    return Ok(raw);
  }

  lemma {:induction false} BlocksStop(f: SegmentFile, id: nat, first: nat, n: nat, more: nat)
    requires n <= more
    ensures BlocksContent(f, id, first, n).None? ==> BlocksContent(f, id, first, more).None?
  {
    if n < more { BlocksStop(f, id, first, n, more - 1); }
  }

  /** A stream that is held is read. */
  lemma HeldIsRead(f: SegmentFile, id: nat, start: nat, content: seq<byte>)
    requires f.blockSize > 0 && StreamHeld(f, id, start, content)
    ensures id < |f.streams| && StreamContent(f, id, start) == Some(content)
  {
    var n := f.streams[id].blockCount;
    HeldBlocksRead(f, id, start, content, n);
    assert |content| <= n * f.blockSize && content[..|content|] == content;
  }

  lemma {:induction false} HeldBlocksRead(f: SegmentFile, id: nat, start: nat, content: seq<byte>, n: nat)
    requires f.blockSize > 0 && StreamHeld(f, id, start, content) && n <= f.streams[id].blockCount
    ensures BlocksContent(f, id, f.streams[id].firstBlock, n) == Some(content[..Min(n * f.blockSize, |content|)])
  {
    if n > 0 {
      var e := f.streams[id];
      HeldBlocksRead(f, id, start, content, n - 1);
      var b := f.blocks[e.firstBlock + n - 1];
      assert b == f.blocks[e.firstBlock..e.firstBlock + e.blockCount][n - 1];
      assert BlockHolds(b, f.blockSize, id, n - 1, content, f.payload);
      BlockReads(f, b, id, n - 1, content);
      Multiples(n - 1, n - 1, f.blockSize);
      NextPiece(content, (n - 1) * f.blockSize, f.blockSize);
    }
  }

  lemma NextPiece(content: seq<byte>, from: nat, size: nat)
    requires from < |content|
    ensures content[..from] + content[from..from + Min(size, |content| - from)]
         == content[..Min(from + size, |content|)]
  {
  }

  /** The block that division by the block size picks holds the cursor. */
  lemma BlockAround(f: SegmentFile, id: nat, start: nat, content: seq<byte>, cursor: nat)
    requires f.blockSize > 0 && StreamHeld(f, id, start, content) && cursor < |content|
    ensures id < |f.streams| && f.streams[id].blockCount > 0 && f.streams[id].rawLen == |content|
    ensures var e := f.streams[id];
      var k := Min(cursor / f.blockSize, e.blockCount - 1);
      e.firstBlock + k < |f.blocks|
      && var b := f.blocks[e.firstBlock + k];
         && b.stream == id && b.rawOffset <= cursor < b.rawOffset + b.rawLen <= |content|
         && BlockIntact(f, b) && Decoded(f, b) == content[b.rawOffset..b.rawOffset + b.rawLen]
  {
    hide RawHash;
    var e := f.streams[id];
    PositionOf(cursor, f.blockSize, e.blockCount, |content|);
    var k := Min(cursor / f.blockSize, e.blockCount - 1);
    var b := f.blocks[e.firstBlock + k];
    assert b == f.blocks[e.firstBlock..e.firstBlock + e.blockCount][k];
    assert BlockHolds(b, f.blockSize, id, k, content, f.payload);
    BlockReads(f, b, id, k, content);
  }

  // The lazy reader

  type BlockKey = (nat, nat)

  /** Keys in eviction order and the entries of a cache are the same set. */
  ghost predicate InStep<V>(cache: map<BlockKey, V>, order: seq<BlockKey>) {
    && (forall i, j :: 0 <= i < j < |order| ==> order[i] != order[j])
    && (forall k :: k in cache <==> k in order)
  }

  /** Storing a new key and, over capacity, dropping the oldest. */
  function Remember<V>(cache: map<BlockKey, V>, order: seq<BlockKey>, capacity: nat, key: BlockKey, value: V)
    : (r: (map<BlockKey, V>, seq<BlockKey>))
  {
    var grown := cache[key := value];
    if |order| + 1 > capacity && |order| > 0 then
      (map k | k in grown && k != order[0] :: grown[k], order[1..] + [key])
    else (grown, order + [key])
  }

  /** First in, first out: below capacity the new entry joins the others; at
      capacity exactly the oldest makes room for it. */
  ghost predicate Remembered<V>(cache: map<BlockKey, V>, order: seq<BlockKey>, capacity: nat, key: BlockKey, value: V,
                                cache': map<BlockKey, V>, order': seq<BlockKey>)
  {
    if |order| < capacity then
      && order' == order + [key]
      && (forall k :: k in cache' <==> k in cache || k == key)
      && (forall k :: k in cache' ==> cache'[k] == if k in cache && k != key then cache[k] else value)
    else
      && |order| > 0 && order' == order[1..] + [key]
      && (forall k :: k in cache' <==> (k in cache && k != order[0]) || k == key)
      && (forall k :: k in cache' ==> cache'[k] == if k in cache && k != key then cache[k] else value)
  }

  /** Eviction keeps the two in step and within capacity, and never drops the
      entry just stored. */
  lemma RememberKeepsStep<V>(cache: map<BlockKey, V>, order: seq<BlockKey>, capacity: nat, key: BlockKey, value: V)
    requires InStep(cache, order) && key !in cache && |order| <= capacity && capacity > 0
    ensures var r := Remember(cache, order, capacity, key, value);
      && InStep(r.0, r.1) && |r.1| <= capacity
      && key in r.0 && r.0[key] == value
      && (forall k :: k in r.0 && k != key ==> k in cache && r.0[k] == cache[k])
      && Remembered(cache, order, capacity, key, value, r.0, r.1)
  {
    assert key !in order;
    var r := Remember(cache, order, capacity, key, value);
    if |order| + 1 > capacity {
      var oldest := order[0];
      assert oldest !in order[1..];
      forall k
        ensures k in r.0 <==> k in r.1
      {
        assert k in order <==> k == oldest || k in order[1..];
      }
    }
  }

  /** Where the sealed streams of a store lie across its segments: segment
      after segment each stream continues where the previous one ended. */
  ghost predicate SealedAs(files: seq<SegmentFile>, starts: seq<seq<nat>>, streams: seq<seq<byte>>) {
    && |streams| == STREAMS && |starts| == |files| + 1
    && (forall j :: 0 <= j <= |files| ==> |starts[j]| == STREAMS)
    && (forall id :: 0 <= id < STREAMS ==> starts[0][id] == 0 && starts[|files|][id] == |streams[id]|)
    && (forall j, id :: 0 <= j < |files| && 0 <= id < STREAMS ==> PieceHeld(files, starts, streams, j, id))
  }

  /** Segment `j` holds its stretch of stream `id`. */
  ghost predicate PieceHeld(files: seq<SegmentFile>, starts: seq<seq<nat>>, streams: seq<seq<byte>>, j: nat, id: nat)
    requires j < |files| && |starts| == |files| + 1 && id < |streams| == STREAMS
    requires forall i :: 0 <= i <= |files| ==> |starts[i]| == STREAMS
  {
    && starts[j][id] <= starts[j + 1][id] <= |streams[id]|
    && files[j].blockSize > 0
    && StreamHeld(files[j], id, starts[j][id], streams[id][starts[j][id]..starts[j + 1][id]])
  }

  lemma SliceOfSlice(s: seq<byte>, a: nat, b: nat, from: nat, to: nat)
    requires a <= from <= to <= b <= |s|
    ensures s[a..b][from - a..to - a] == s[from..to]
  {
    var x := s[a..b][from - a..to - a];
    assert forall i :: 0 <= i < |x| ==> x[i] == s[from + i];
  }

  class LazyReader {
    const files: seq<SegmentFile>
    const sizes: seq<nat>
    const capacity: nat
    var cache: map<BlockKey, seq<byte>>
    var order: seq<BlockKey>
    var entries: map<BlockKey, Block>
    var entryOrder: seq<BlockKey>
    var payloadFast: Option<seq<byte>>
    ghost const starts: seq<seq<nat>>
    ghost const streams: seq<seq<byte>>

    ghost predicate CachesHold()
      reads this
    {
      && InStep(cache, order) && |order| <= capacity
      && InStep(entries, entryOrder) && |entryOrder| <= capacity
      && (forall k :: k in entries ==>
            k.0 < |files| && k.1 < |files[k.0].blocks| && entries[k] == files[k.0].blocks[k.1])
      && (forall k :: k in cache ==>
            && k.0 < |files| && k.1 < |files[k.0].blocks|
            && files[k.0].blocks[k.1].encodedOffset + files[k.0].blocks[k.1].encodedLen <= |files[k.0].payload|
            && cache[k] == Decoded(files[k.0], files[k.0].blocks[k.1]))
    }

    ghost predicate Valid()
      reads this
    {
      && capacity > 0 && CachesHold()
      && SealedAs(files, starts, streams)
      && |sizes| == STREAMS && (forall id :: 0 <= id < STREAMS ==> sizes[id] == |streams[id]|)
      && (payloadFast.Some? ==> payloadFast.value == streams[PAYLOAD])
    }

    constructor (segmentFiles: seq<SegmentFile>, streamSizes: seq<nat>, blocks: nat,
                 ghost segmentStarts: seq<seq<nat>>, ghost contents: seq<seq<byte>>)
      requires SealedAs(segmentFiles, segmentStarts, contents) && blocks > 0
      requires |streamSizes| == STREAMS && (forall id :: 0 <= id < STREAMS ==> streamSizes[id] == |contents[id]|)
      ensures Valid() && files == segmentFiles && streams == contents && payloadFast == None
    {
      files, sizes, capacity := segmentFiles, streamSizes, blocks;
      cache, order, entries, entryOrder, payloadFast := map[], [], map[], [], None;
      starts, streams := segmentStarts, contents;
    }

    /** A block-table entry, through its own bounded cache. */
    method ReadBlockEntry(segment: nat, index: nat) returns (b: Block)
      requires Valid() && segment < |files| && index < |files[segment].blocks|
      modifies this`entries, this`entryOrder
      ensures Valid() && b == files[segment].blocks[index]
      ensures (segment, index) in old(entries) ==> entries == old(entries) && entryOrder == old(entryOrder)
      ensures (segment, index) !in old(entries) ==>
        Remembered(old(entries), old(entryOrder), capacity, (segment, index), b, entries, entryOrder)
    {
      hide SealedAs, InStep, Remembered, Remember;
      var key: BlockKey := (segment, index);
      if key in entries { return entries[key]; }
      b := files[segment].blocks[index];
      RememberKeepsStep(entries, entryOrder, capacity, key, b);
      var r := Remember(entries, entryOrder, capacity, key, b);
      entries, entryOrder := r.0, r.1;
    }

    /** A decoded block, through the bounded block cache; a damaged one is refused
        and leaves no trace. */
    method LoadBlock(segment: nat, index: nat, b: Block) returns (r: Result<seq<byte>>)
      requires Valid() && segment < |files| && index < |files[segment].blocks| && b == files[segment].blocks[index]
      modifies this`cache, this`order
      ensures Valid() && (r.Ok? <==> (segment, index) in old(cache) || BlockIntact(files[segment], b))
      ensures r.Ok? ==>
        && b.encodedOffset + b.encodedLen <= |files[segment].payload| && r.value == Decoded(files[segment], b)
        && (segment, index) in cache
      ensures r.Err? || (segment, index) in old(cache) ==> cache == old(cache) && order == old(order)
      ensures r.Ok? && (segment, index) !in old(cache) ==>
        Remembered(old(cache), old(order), capacity, (segment, index), r.value, cache, order)
    {
      hide SealedAs, InStep, Remembered, Remember;
      var key: BlockKey := (segment, index);
      if key in cache { return Ok(cache[key]); }
      r := ReadBlock(files[segment], b);
      if r.Err? { return; }
      RememberKeepsStep(cache, order, capacity, key, r.value);
      var stored := Remember(cache, order, capacity, key, r.value);
      cache, order := stored.0, stored.1;
    }

    /** The segment that holds a position of a stream. */
    method FindSegment(id: nat, cursor: nat) returns (segment: nat)
      requires Valid() && id < STREAMS && cursor < |streams[id]|
      ensures segment < |files|
      ensures starts[segment][id] <= cursor < starts[segment + 1][id]
    {
      segment := 0;
      while segment < |files|
        invariant 0 <= segment <= |files|
        invariant starts[segment][id] <= cursor
      {
        assert PieceHeld(files, starts, streams, segment, id);
        var e := files[segment].streams[id];
        if e.globalStart <= cursor < e.globalEnd { return; }
        segment := segment + 1;
      }
      assert false;
    }

    /** What the block around `cursor` contributes to a read that ends at `end`;
        both are offsets into the segment's stretch of the stream. */
    method CopyFromBlock(segment: nat, id: nat, cursor: nat, end: nat, ghost content: seq<byte>)
      returns (r: Result<seq<byte>>, next: nat)
      requires Valid() && segment < |files| && id < STREAMS && cursor < end <= |content|
      requires files[segment].blockSize > 0 && StreamHeld(files[segment], id, starts[segment][id], content)
      modifies this`cache, this`order, this`entries, this`entryOrder
      ensures Valid() && cursor < next <= end && r == Ok(content[cursor..next])
    {
      hide StreamHeld, InStep, Remembered, CachesHold, Decoded, PieceHeld;
      next := cursor;
      BlockAround(files[segment], id, starts[segment][id], content, cursor);
      var f := files[segment];
      var e := f.streams[id];
      var k := Min(cursor / f.blockSize, e.blockCount - 1);
      var b := ReadBlockEntry(segment, e.firstBlock + k);
      if b.stream != id { return Err(Format), next; }
      var blockEnd := b.rawOffset + b.rawLen;
      if b.rawOffset > cursor || blockEnd <= cursor || blockEnd > e.rawLen { return Err(Format), next; }
      var decoded := LoadBlock(segment, e.firstBlock + k, b);
      next := Min(end, blockEnd);
      r := Ok(decoded.value[cursor - b.rawOffset..next - b.rawOffset]);
      SliceOfSlice(content, b.rawOffset, blockEnd, cursor, next);
    }

    /** The part of one segment between two stream positions, block by block. */
    method ReadPiece(segment: nat, id: nat, from: nat, to: nat) returns (r: Result<seq<byte>>)
      requires Valid() && segment < |files| && id < STREAMS
      requires starts[segment][id] <= from < to <= starts[segment + 1][id]
      modifies this`cache, this`order, this`entries, this`entryOrder
      ensures Valid() && to <= |streams[id]| && r == Ok(streams[id][from..to])
    {
      assert PieceHeld(files, starts, streams, segment, id);
      ghost var content := streams[id][starts[segment][id]..starts[segment + 1][id]];
      var e := files[segment].streams[id];
      var first, end := from - e.globalStart, to - e.globalStart;
      var cursor := first;
      var out: seq<byte> := [];
      while cursor < end
        invariant Valid() && first <= cursor <= end
        invariant out == content[first..cursor]
      {
        hide SealedAs, CachesHold, Covers;
        var part, next := CopyFromBlock(segment, id, cursor, end, content);
        if part.Err? { return Err(Format); }
        assert content[first..cursor] + content[cursor..next] == content[first..next];
        out, cursor := out + part.value, next;
      }
      SliceOfSlice(streams[id], starts[segment][id], starts[segment + 1][id], from, to);
      return Ok(out);
    }

    /** A range of a sealed stream is exactly that slice of it, for every cache
        state, across blocks and segments. */
    method AppendStreamRange(id: nat, start: nat, length: nat, output: seq<byte>) returns (r: Result<seq<byte>>)
      requires Valid() && id < STREAMS
      modifies this`cache, this`order, this`entries, this`entryOrder
      ensures Valid()
      ensures r.Ok? <==> start + length <= |streams[id]|
      ensures r.Ok? ==> r.value == output + streams[id][start..start + length]
    {
      var end := start + length;
      if end > sizes[id] { return Err(Format); }
      if length == 0 {
        assert streams[id][start..end] == [] && output + [] == output;
        return Ok(output);
      }
      if id == PAYLOAD && payloadFast.Some? {
        return Ok(output + payloadFast.value[start..end]);
      }
      var out, cursor := output, start;
      assert output + streams[id][start..start] == output;
      while cursor < end
        invariant Valid() && start <= cursor <= end
        invariant out == output + streams[id][start..cursor]
      {
        var segment := FindSegment(id, cursor);
        assert PieceHeld(files, starts, streams, segment, id);
        var stop := Min(end, files[segment].streams[id].globalEnd);
        var piece := ReadPiece(segment, id, cursor, stop);
        assert streams[id][start..cursor] + streams[id][cursor..stop] == streams[id][start..stop];
        out, cursor := out + piece.value, stop;
      }
      return Ok(out);
    }

    /** Small payloads are decoded once at open; the block cache starts empty. */
    method LoadPayloadFast(cap: nat)
      requires Valid()
      modifies this
      ensures Valid() && (payloadFast.Some? <==> old(payloadFast).Some? || |streams[PAYLOAD]| <= cap)
      ensures payloadFast != old(payloadFast) ==> cache == map[] && order == []
    {
      if sizes[PAYLOAD] <= cap && payloadFast.None? {
        var payload := AppendStreamRange(PAYLOAD, 0, sizes[PAYLOAD], []);
        assert streams[PAYLOAD][0..sizes[PAYLOAD]] == streams[PAYLOAD];
        payloadFast := Some(payload.value);
        cache, order := map[], [];
      }
    }
  }
}
