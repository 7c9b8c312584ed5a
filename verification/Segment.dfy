/** Sealed segments: each stream cut into full blocks but for its last, every
    block compressed on its own and found again by its position. */
module Segment {
  import opened Wrappers
  import opened Bytes
  import opened Format

  /** Compression is any pair of functions that loses nothing. */
  datatype CodecPair = CodecPair(compress: seq<byte> -> seq<byte>, decompress: seq<byte> -> seq<byte>)

  ghost predicate Lossless(c: CodecPair) {
    forall raw :: c.decompress(c.compress(raw)) == raw
  }

  type Codec = c: CodecPair | Lossless(c) witness CodecPair(raw => raw, raw => raw)

  const Zstd: Codec

  const STREAMS := 22

  /** Stream 0 holds the payload bytes. */
  const PAYLOAD := 0

  datatype Block = Block(
    stream: nat, rawOffset: nat, encodedOffset: nat, rawLen: nat, encodedLen: nat, rawHash: u64)

  datatype StreamEntry = StreamEntry(
    globalStart: nat, globalEnd: nat, rawLen: nat, firstBlock: nat, blockCount: nat, rawHash: u64)

  /** A finished segment file: its payload, stream table and block table. */
  datatype SegmentFile = SegmentFile(
    blockSize: nat, payload: seq<byte>, streams: seq<StreamEntry>, blocks: seq<Block>)

  function Min(a: nat, b: nat): nat { if a < b then a else b }

  /** Hash of a stream; an empty stream records zero. */
  function RawHash(content: seq<byte>): u64 {
    if content == [] then 0 else Xxh3(content)
  }

  /** Block `k` of a stream: the `k`-th full block, or the shorter rest. */
  predicate BlockHolds(b: Block, blockSize: nat, stream: nat, k: nat, content: seq<byte>, payload: seq<byte>) {
    && b.stream == stream
    && b.rawOffset == k * blockSize < |content|
    && b.rawLen == Min(blockSize, |content| - k * blockSize)
    && b.encodedOffset + b.encodedLen <= |payload|
    && b.encodedLen == |Zstd.compress(content[b.rawOffset..b.rawOffset + b.rawLen])| <= U32_MAX
    && Zstd.decompress(payload[b.encodedOffset..b.encodedOffset + b.encodedLen])
       == content[b.rawOffset..b.rawOffset + b.rawLen]
    && b.rawHash == Xxh3(content[b.rawOffset..b.rawOffset + b.rawLen])
  }

  predicate BlocksHold(blocks: seq<Block>, blockSize: nat, stream: nat, content: seq<byte>, payload: seq<byte>) {
    forall k :: 0 <= k < |blocks| ==> BlockHolds(blocks[k], blockSize, stream, k, content, payload)
  }

  /** The blocks of a whole stream: as many as it takes, in order. */
  predicate Covers(blocks: seq<Block>, blockSize: nat, stream: nat, content: seq<byte>, payload: seq<byte>) {
    && BlocksHold(blocks, blockSize, stream, content, payload)
    && |content| <= |blocks| * blockSize
  }

  // What a segment has room for

  predicate FitsFrom(content: seq<byte>, from: nat, blockSize: nat) {
    from < |content| ==> |Zstd.compress(content[from..from + Min(blockSize, |content| - from)])| <= U32_MAX
  }

  /** Block `k` of a content, if there is one, compresses into its length field. */
  predicate BlockFits(content: seq<byte>, blockSize: nat, k: nat) {
    FitsFrom(content, k * blockSize, blockSize)
  }

  ghost predicate FullBlocksFit(content: seq<byte>, blockSize: nat) {
    forall k: nat :: (k + 1) * blockSize <= |content| ==> BlockFits(content, blockSize, k)
  }

  ghost predicate AllBlocksFit(content: seq<byte>, blockSize: nat) {
    forall k: nat :: BlockFits(content, blockSize, k)
  }

  function BlockCount(content: seq<byte>, blockSize: nat): nat
    requires blockSize > 0
  {
    (|content| + blockSize - 1) / blockSize
  }

  function TotalBlocks(contents: seq<seq<byte>>, blockSize: nat, n: nat): nat
    requires n <= |contents| && blockSize > 0
  {
    if n == 0 then 0 else TotalBlocks(contents, blockSize, n - 1) + BlockCount(contents[n - 1], blockSize)
  }

  /** A segment can hold these contents: every block compresses into its length
      field, the blocks can be numbered, and the streams end within 64 bits. */
  ghost predicate Packs(starts: seq<nat>, contents: seq<seq<byte>>, blockSize: nat) {
    && |starts| == |contents| == STREAMS && blockSize > 0
    && (forall id :: 0 <= id < STREAMS ==> AllBlocksFit(contents[id], blockSize))
    && (forall id :: 0 <= id < STREAMS ==> starts[id] + |contents[id]| <= U64_MAX)
    && TotalBlocks(contents, blockSize, STREAMS) <= U32_MAX
  }

  /** Multiples of a block size. */
  lemma Multiples(j: nat, k: nat, size: nat)
    requires j <= k
    ensures j * size <= k * size && (k + 1) * size == k * size + size
    ensures j < k ==> j * size + size <= k * size
  {
    if j < k { assert j * size + size == (j + 1) * size <= k * size; }
  }

  lemma FullPrefix(a: seq<byte>, b: seq<byte>, blockSize: nat)
    requires a <= b && FullBlocksFit(b, blockSize)
    ensures FullBlocksFit(a, blockSize)
  {
    forall k: nat | (k + 1) * blockSize <= |a|
      ensures BlockFits(a, blockSize, k)
    {
      assert BlockFits(b, blockSize, k);
      Multiples(k, k, blockSize);
      FitsEarlier(a, b, k * blockSize, blockSize);
    }
  }

  lemma FitsEarlier(a: seq<byte>, b: seq<byte>, from: nat, blockSize: nat)
    requires a <= b && from + blockSize <= |a| && FitsFrom(b, from, blockSize)
    ensures FitsFrom(a, from, blockSize)
  {
    assert a[from..from + blockSize] == b[from..from + blockSize];
  }

  /** Every full block of every stream fits. */
  ghost predicate Fitting(contents: seq<seq<byte>>, blockSize: nat) {
    |contents| == STREAMS && forall id :: 0 <= id < STREAMS ==> FullBlocksFit(contents[id], blockSize)
  }

  ghost predicate Below(a: seq<seq<byte>>, b: seq<seq<byte>>) {
    |a| == |b| && forall id :: 0 <= id < |a| ==> a[id] <= b[id]
  }

  lemma FittingBelow(a: seq<seq<byte>>, b: seq<seq<byte>>, blockSize: nat)
    requires Below(a, b) && Fitting(b, blockSize)
    ensures Fitting(a, blockSize)
  {
    hide FullBlocksFit;
    forall id | 0 <= id < STREAMS
      ensures FullBlocksFit(a[id], blockSize)
    {
      FullPrefix(a[id], b[id], blockSize);
    }
  }

  lemma PacksFits(starts: seq<nat>, contents: seq<seq<byte>>, blockSize: nat)
    requires Packs(starts, contents, blockSize)
    ensures Fitting(contents, blockSize)
  {
    hide FullBlocksFit, AllBlocksFit, TotalBlocks;
    forall id | 0 <= id < STREAMS
      ensures FullBlocksFit(contents[id], blockSize)
    {
      AllIsFull(contents[id], blockSize);
    }
  }

  lemma AllIsFull(content: seq<byte>, blockSize: nat)
    requires AllBlocksFit(content, blockSize)
    ensures FullBlocksFit(content, blockSize)
  {
  }

  /** Whatever has been flushed did fit. */
  lemma ReadyFits(s: StreamState, blockSize: nat, id: nat, content: seq<byte>, payload: seq<byte>)
    requires Ready(s, blockSize, id, content, payload)
    ensures FullBlocksFit(content, blockSize)
  {
    forall k: nat | (k + 1) * blockSize <= |content|
      ensures BlockFits(content, blockSize, k)
    {
      Multiples(k, k, blockSize);
      if k >= |s.blocks| {
        Multiples(|s.blocks|, k, blockSize);
      } else {
        assert BlockHolds(s.blocks[k], blockSize, id, k, content, payload);
      }
    }
  }

  /** A buffer that does not compress into its field is a block of the content
      that does not. */
  lemma BufferUnfit(s: StreamState, blockSize: nat, id: nat, content: seq<byte>, payload: seq<byte>)
    requires Staged(s, blockSize, id, content, payload) && 0 < |s.rawBuf| <= blockSize
    requires |Zstd.compress(s.rawBuf)| > U32_MAX
    ensures !AllBlocksFit(content, blockSize)
    ensures |s.rawBuf| == blockSize ==> !FullBlocksFit(content, blockSize)
  {
    var k, from := |s.blocks|, s.flushedRawLen;
    assert content[from..from + |s.rawBuf|] == s.rawBuf;
    assert !BlockFits(content, blockSize, k);
    assert (k + 1) * blockSize == from + blockSize;
  }

  lemma CoversCount(blocks: seq<Block>, blockSize: nat, stream: nat, content: seq<byte>, payload: seq<byte>)
    requires Covers(blocks, blockSize, stream, content, payload) && blockSize > 0
    ensures |blocks| == BlockCount(content, blockSize) && AllBlocksFit(content, blockSize)
  {
    var n := |blocks|;
    if n > 0 { assert BlockHolds(blocks[n - 1], blockSize, stream, n - 1, content, payload); }
    CountIs(|content|, blockSize, n);
    forall k: nat
      ensures BlockFits(content, blockSize, k)
    {
      if k < n {
        assert BlockHolds(blocks[k], blockSize, stream, k, content, payload);
      } else {
        Multiples(n, k, blockSize);
      }
    }
  }

  lemma CountIs(length: nat, size: nat, n: nat)
    requires size > 0 && length <= n * size && (n > 0 ==> (n - 1) * size < length)
    ensures n == (length + size - 1) / size
  {
    var q, r := (length + size - 1) / size, (length + size - 1) % size;
    assert length + size - 1 == q * size + r;
    if q < n { Multiples(q, n - 1, size); }
    if q > n { Multiples(n, q, size); }
  }

  predicate StreamHeld(f: SegmentFile, id: nat, start: nat, content: seq<byte>) {
    && id < |f.streams|
    && var e := f.streams[id];
    && e.globalStart == start && e.globalEnd == start + |content| && e.rawLen == |content|
    && e.rawHash == RawHash(content)
    && e.firstBlock + e.blockCount <= |f.blocks|
    && Covers(f.blocks[e.firstBlock..e.firstBlock + e.blockCount], f.blockSize, id, content, f.payload)
  }

  /** A segment holds these contents, each continuing its stream at `starts`. */
  ghost predicate SegmentHolds(f: SegmentFile, starts: seq<nat>, contents: seq<seq<byte>>) {
    && f.blockSize > 0
    && |f.streams| == |starts| == |contents| == STREAMS
    && forall id :: 0 <= id < STREAMS ==> StreamHeld(f, id, starts[id], contents[id])
  }

  datatype StreamState = StreamState(
    rawBuf: seq<byte>, rawLen: nat, flushedRawLen: nat, blocks: seq<Block>, hashed: seq<byte>)

  /** Content of a stream being written: full blocks so far, the rest buffered. */
  predicate Staged(s: StreamState, blockSize: nat, id: nat, content: seq<byte>, payload: seq<byte>) {
    && s.flushedRawLen == |s.blocks| * blockSize <= |content|
    && s.rawBuf == content[s.flushedRawLen..]
    && BlocksHold(s.blocks, blockSize, id, content, payload)
  }

  /** A stream between pushes: never a full block unflushed. */
  predicate Ready(s: StreamState, blockSize: nat, id: nat, content: seq<byte>, payload: seq<byte>) {
    && Staged(s, blockSize, id, content, payload)
    && |s.rawBuf| < blockSize && s.rawLen == |content| && s.hashed == content
  }

  lemma BlocksGrow(blocks: seq<Block>, blockSize: nat, id: nat, content: seq<byte>, payload: seq<byte>,
                   content': seq<byte>, payload': seq<byte>)
    requires BlocksHold(blocks, blockSize, id, content, payload)
    requires |blocks| * blockSize <= |content| && content <= content' && payload <= payload'
    ensures BlocksHold(blocks, blockSize, id, content', payload')
  {
    forall k | 0 <= k < |blocks|
      ensures BlockHolds(blocks[k], blockSize, id, k, content', payload')
    {
      var b := blocks[k];
      assert BlockHolds(b, blockSize, id, k, content, payload);
      assert (k + 1) * blockSize <= |blocks| * blockSize;
      assert b.rawLen == blockSize;
      assert content'[b.rawOffset..b.rawOffset + b.rawLen] == content[b.rawOffset..b.rawOffset + b.rawLen];
      assert payload'[b.encodedOffset..b.encodedOffset + b.encodedLen]
          == payload[b.encodedOffset..b.encodedOffset + b.encodedLen];
    }
  }

  /** Payload only grows, so blocks stay readable. */
  lemma PayloadGrows(blocks: seq<Block>, blockSize: nat, id: nat, content: seq<byte>,
                     payload: seq<byte>, payload': seq<byte>)
    requires BlocksHold(blocks, blockSize, id, content, payload) && payload <= payload'
    ensures BlocksHold(blocks, blockSize, id, content, payload')
  {
    forall k | 0 <= k < |blocks|
      ensures BlockHolds(blocks[k], blockSize, id, k, content, payload')
    {
      var b := blocks[k];
      assert BlockHolds(b, blockSize, id, k, content, payload);
      assert payload'[b.encodedOffset..b.encodedOffset + b.encodedLen]
          == payload[b.encodedOffset..b.encodedOffset + b.encodedLen];
    }
  }

  /** The block a flush appends. */
  function FlushedBlock(s: StreamState, id: nat, payload: seq<byte>): Block {
    Block(id, s.flushedRawLen, |payload|, |s.rawBuf|, |Zstd.compress(s.rawBuf)|, Xxh3(s.rawBuf))
  }

  lemma FlushHolds(s: StreamState, blockSize: nat, id: nat, content: seq<byte>, payload: seq<byte>)
    requires Staged(s, blockSize, id, content, payload) && 0 < |s.rawBuf| <= blockSize
    requires |Zstd.compress(s.rawBuf)| <= U32_MAX
    ensures BlocksHold(s.blocks + [FlushedBlock(s, id, payload)], blockSize, id, content,
                       payload + Zstd.compress(s.rawBuf))
  {
    var encoded := Zstd.compress(s.rawBuf);
    var b := FlushedBlock(s, id, payload);
    PayloadGrows(s.blocks, blockSize, id, content, payload, payload + encoded);
    assert (payload + encoded)[b.encodedOffset..b.encodedOffset + b.encodedLen] == encoded;
    assert content[b.rawOffset..b.rawOffset + b.rawLen] == s.rawBuf;
    assert BlockHolds(b, blockSize, id, |s.blocks|, content, payload + encoded);
  }

  /** Buffering the next stretch of the data being pushed. */
  lemma StageMore(s: StreamState, blockSize: nat, id: nat, start: seq<byte>, data: seq<byte>, done: nat,
                  take: nat, payload: seq<byte>)
    requires done + take <= |data|
    requires Staged(s, blockSize, id, start + data[..done], payload)
    ensures Staged(s.(rawBuf := s.rawBuf + data[done..done + take]), blockSize, id,
                   start + data[..done + take], payload)
  {
    var c, more := start + data[..done], start + data[..done + take];
    assert more == c + data[done..done + take];
    BlocksGrow(s.blocks, blockSize, id, c, payload, more, payload);
    assert more[s.flushedRawLen..] == s.rawBuf + data[done..done + take];
  }

  /** Every stream but `except` is between pushes. */
  ghost predicate AllReady(states: seq<StreamState>, blockSize: nat, contents: seq<seq<byte>>,
                           payload: seq<byte>, except: nat)
    requires |states| == |contents| == STREAMS
  {
    forall i :: 0 <= i < STREAMS && i != except ==> Ready(states[i], blockSize, i, contents[i], payload)
  }

  lemma AllReadyGrows(states: seq<StreamState>, blockSize: nat, contents: seq<seq<byte>>,
                      payload: seq<byte>, payload': seq<byte>, except: nat)
    requires |states| == |contents| == STREAMS
    requires AllReady(states, blockSize, contents, payload, except) && payload <= payload'
    ensures AllReady(states, blockSize, contents, payload', except)
  {
    forall i | 0 <= i < STREAMS && i != except
      ensures Ready(states[i], blockSize, i, contents[i], payload')
    {
      PayloadGrows(states[i].blocks, blockSize, i, contents[i], payload, payload');
    }
  }

  lemma StagedLength(s: StreamState, blockSize: nat, id: nat, content: seq<byte>, payload: seq<byte>)
    requires Staged(s, blockSize, id, content, payload)
    ensures s.flushedRawLen == |s.blocks| * blockSize && s.flushedRawLen + |s.rawBuf| == |content|
  {
  }

  /** A stream that has been flushed to its end. */
  predicate Finished(s: StreamState, blockSize: nat, id: nat, content: seq<byte>, payload: seq<byte>) {
    && s.rawLen == |content| && s.hashed == content
    && Covers(s.blocks, blockSize, id, content, payload)
  }

  /** Flushing what is left, a short block or nothing, covers the stream. */
  lemma FlushFinishes(s: StreamState, t: StreamState, blockSize: nat, id: nat, content: seq<byte>,
                      before: seq<byte>, payload: seq<byte>)
    requires Ready(s, blockSize, id, content, before) && blockSize > 0
    requires t == s.(rawBuf := [], flushedRawLen := |content|, blocks := t.blocks)
    requires |t.blocks| == |s.blocks| + (if s.rawBuf == [] then 0 else 1)
    requires BlocksHold(t.blocks, blockSize, id, content, payload)
    ensures Finished(t, blockSize, id, content, payload)
  {
    assert (|s.blocks| + 1) * blockSize == |s.blocks| * blockSize + blockSize;
  }

  /** Streams below `n` are finished, the others still between pushes. */
  ghost predicate FinishedBelow(states: seq<StreamState>, blockSize: nat, contents: seq<seq<byte>>,
                                payload: seq<byte>, n: nat)
    requires |states| == |contents| == STREAMS
  {
    forall i :: 0 <= i < STREAMS ==>
      if i < n then Finished(states[i], blockSize, i, contents[i], payload)
      else Ready(states[i], blockSize, i, contents[i], payload)
  }

  lemma FinishNext(before: seq<StreamState>, after: seq<StreamState>, blockSize: nat, contents: seq<seq<byte>>,
                   paid: seq<byte>, payload: seq<byte>, n: nat)
    requires |before| == |after| == |contents| == STREAMS && n < STREAMS
    requires FinishedBelow(before, blockSize, contents, paid, n) && paid <= payload
    requires forall i :: 0 <= i < STREAMS && i != n ==> after[i] == before[i]
    requires Finished(after[n], blockSize, n, contents[n], payload)
    ensures FinishedBelow(after, blockSize, contents, payload, n + 1)
  {
    forall i | 0 <= i < STREAMS && i != n
      ensures if i < n then Finished(after[i], blockSize, i, contents[i], payload)
              else Ready(after[i], blockSize, i, contents[i], payload)
    {
      assert after[i] == before[i];
      PayloadGrows(before[i].blocks, blockSize, i, contents[i], paid, payload);
    }
  }

  /** The stream and block tables laid out so far. */
  ghost predicate TablesHold(blockSize: nat, payload: seq<byte>, streams: seq<StreamEntry>, blocks: seq<Block>,
                             starts: seq<nat>, contents: seq<seq<byte>>)
    requires |streams| <= |starts| == |contents|
  {
    forall i :: 0 <= i < |streams| ==>
      StreamHeld(SegmentFile(blockSize, payload, streams, blocks), i, starts[i], contents[i])
  }

  lemma TablesGrow(blockSize: nat, payload: seq<byte>, streams: seq<StreamEntry>, blocks: seq<Block>,
                   starts: seq<nat>, contents: seq<seq<byte>>, s: StreamState)
    requires |streams| < |starts| == |contents|
    requires TablesHold(blockSize, payload, streams, blocks, starts, contents)
    requires Finished(s, blockSize, |streams|, contents[|streams|], payload)
    ensures TablesHold(blockSize, payload, streams + [EntryFor(s, starts[|streams|], |blocks|)],
                       blocks + s.blocks, starts, contents)
  {
    hide Covers;
    var n := |streams|;
    var f := SegmentFile(blockSize, payload, streams, blocks);
    var g := SegmentFile(blockSize, payload, streams + [EntryFor(s, starts[n], |blocks|)], blocks + s.blocks);
    assert g.blocks[|blocks|..|blocks| + |s.blocks|] == s.blocks;
    forall i | 0 <= i < n
      ensures StreamHeld(g, i, starts[i], contents[i])
    {
      assert StreamHeld(f, i, starts[i], contents[i]);
      var e := streams[i];
      assert g.blocks[e.firstBlock..e.firstBlock + e.blockCount] == blocks[e.firstBlock..e.firstBlock + e.blockCount];
    }
  }

  function EntryFor(s: StreamState, start: nat, first: nat): StreamEntry {
    StreamEntry(start, start + s.rawLen, s.rawLen, first, |s.blocks|, if s.rawLen == 0 then 0 else Xxh3(s.hashed))
  }

  class SegmentWriter {
    const blockSize: nat
    const starts: seq<nat>
    var states: seq<StreamState>
    var payload: seq<byte>
    ghost var contents: seq<seq<byte>>

    /** Room between pushes: no stream holds a full block unflushed. */
    ghost predicate Valid()
      reads this
    {
      && 0 < blockSize <= U32_MAX
      && |states| == |starts| == |contents| == STREAMS
      && forall id :: 0 <= id < STREAMS ==> Ready(states[id], blockSize, id, contents[id], payload)
    }

    constructor (streamStarts: seq<nat>, size: u32)
      requires |streamStarts| == STREAMS && size > 0
      ensures Valid() && starts == streamStarts && blockSize == size
      ensures contents == seq(STREAMS, _ => [])
    {
      blockSize, starts, payload := size, streamStarts, [];
      states := seq(STREAMS, _ => StreamState([], 0, 0, [], []));
      contents := seq(STREAMS, _ => []);
    }

    /** Between pushes every full block has left, so it did fit. */
    lemma Fits()
      requires Valid()
      ensures |contents| == |starts| == STREAMS && blockSize > 0 && Fitting(contents, blockSize)
    {
      hide Ready, FullBlocksFit;
      forall id | 0 <= id < STREAMS
        ensures FullBlocksFit(contents[id], blockSize)
      {
        ReadyFits(states[id], blockSize, id, contents[id], payload);
      }
    }

    /** Length of a stream including the segments before this one. */
    function CurrentStreamLen(id: nat): nat
      requires id < |starts| && id < |states|
      reads this
    {
      starts[id] + states[id].rawLen
    }

    /** Compresses and writes the buffered bytes of one stream. */
    method FlushStreamBlock(id: nat) returns (ok: bool)
      requires 0 < blockSize && |states| == |contents| == STREAMS && id < STREAMS
      requires Staged(states[id], blockSize, id, contents[id], payload) && |states[id].rawBuf| <= blockSize
      modifies this`states, this`payload
      ensures |states| == STREAMS && old(payload) <= payload
      ensures forall i :: 0 <= i < STREAMS && i != id ==> states[i] == old(states[i])
      ensures ok ==> BlocksHold(states[id].blocks, blockSize, id, contents[id], payload)
      ensures ok ==> states[id] == old(states[id]).(
        rawBuf := [], flushedRawLen := |contents[id]|, blocks := states[id].blocks)
      ensures ok ==> |states[id].blocks| == |old(states[id].blocks)| + (if old(states[id].rawBuf) == [] then 0 else 1)
      ensures ok <==> old(states[id].rawBuf) == [] || |Zstd.compress(old(states[id].rawBuf))| <= U32_MAX
    {
      var s := states[id];
      if s.rawBuf == [] { return true; }
      var encoded := Zstd.compress(s.rawBuf);
      if |encoded| > U32_MAX { return false; }
      FlushHolds(s, blockSize, id, contents[id], payload);
      states := states[id := s.(rawBuf := [], flushedRawLen := s.flushedRawLen + |s.rawBuf|,
                                blocks := s.blocks + [FlushedBlock(s, id, payload)])];
      payload := payload + encoded;
      return true;
    }

    /** Appends bytes to one stream; full blocks go out as they fill. It fails
        exactly when a full block of the longer stream does not compress into its
        length field. */
    method Push(id: nat, data: seq<byte>) returns (ok: bool)
      requires Valid() && id < STREAMS
      modifies this`states, this`payload, this`contents
      ensures ok <==> FullBlocksFit(old(contents)[id] + data, blockSize)
      ensures ok ==> Valid() && contents == old(contents)[id := old(contents)[id] + data]
    {
      hide Staged, BlocksHold, FullBlocksFit, AllBlocksFit;
      ghost var before := contents;
      assert AllReady(states, blockSize, contents, payload, id);
      var s0 := states[id];
      states := states[id := s0.(hashed := s0.hashed + data, rawLen := s0.rawLen + |data|)];
      RestartStaged(s0, states[id], blockSize, id, before[id], payload);
      assert before[id] + data[..0] == before[id];
      var done := 0;
      while done < |data|
        invariant 0 <= done <= |data| && 0 < blockSize <= U32_MAX
        invariant |states| == |starts| == |contents| == STREAMS
        invariant AllReady(states, blockSize, contents, payload, id)
        invariant contents == before[id := before[id] + data[..done]]
        invariant Staged(states[id], blockSize, id, contents[id], payload) && |states[id].rawBuf| < blockSize
        invariant states[id].rawLen == |before[id] + data| && states[id].hashed == before[id] + data
      {
        var s := states[id];
        var take := Min(blockSize - |s.rawBuf|, |data| - done);
        StageMore(s, blockSize, id, before[id], data, done, take, payload);
        states := states[id := s.(rawBuf := s.rawBuf + data[done..done + take])];
        contents := contents[id := before[id] + data[..done + take]];
        done := done + take;
        if |states[id].rawBuf| == blockSize {
          ghost var full, paid := states[id], payload;
          StagedLength(full, blockSize, id, contents[id], payload);
          var flushed := FlushStreamBlock(id);
          if !flushed {
            BufferUnfit(full, blockSize, id, contents[id], paid);
            LaterUnfit(before[id], data, done, blockSize);
            return false;
          }
          FlushedFull(full, states[id], blockSize, id, contents[id], payload);
          AllReadyGrows(states, blockSize, contents, paid, payload, id);
        }
      }
      assert data[..done] == data;
      StagedIsReady(states[id], blockSize, id, contents[id], payload);
      return true;
    }

    /** Flushes every stream and lays out the tables. The result holds exactly
        what was pushed, and there is one exactly when a segment can hold it. */
    method Finalize() returns (r: Result<SegmentFile>)
      requires Valid()
      modifies this`states, this`payload
      ensures r.Ok? <==> Packs(starts, contents, blockSize)
      ensures r.Ok? ==> r.value.blockSize == blockSize && SegmentHolds(r.value, starts, contents)
    {
      hide Ready, Staged, BlocksHold, Finished, Covers, StreamHeld, AllBlocksFit, BlockCount, TotalBlocks;
      for id := 0 to STREAMS
        invariant |states| == STREAMS
        invariant FinishedBelow(states, blockSize, contents, payload, id)
      {
        ghost var before, paid := states, payload;
        ReadyIsStaged(states[id], blockSize, id, contents[id], payload);
        var flushed := FlushStreamBlock(id);
        if !flushed {
          BufferUnfit(before[id], blockSize, id, contents[id], paid);
          return Err(Format);
        }
        FlushFinishes(before[id], states[id], blockSize, id, contents[id], paid, payload);
        FinishNext(before, states, blockSize, contents, paid, payload, id);
      }
      var streams: seq<StreamEntry>, blocks: seq<Block> := [], [];
      NoBlocks(contents, blockSize);
      for id := 0 to STREAMS
        invariant |streams| == id && |states| == STREAMS
        invariant FinishedBelow(states, blockSize, contents, payload, STREAMS)
        invariant TablesHold(blockSize, payload, streams, blocks, starts, contents)
        invariant |blocks| == TotalBlocks(contents, blockSize, id)
        invariant forall i :: 0 <= i < id ==> AllBlocksFit(contents[i], blockSize)
        invariant forall i :: 0 <= i < id ==> starts[i] + |contents[i]| <= U64_MAX
      {
        FinishedFacts(states[id], blockSize, id, contents[id], payload);
        if starts[id] + states[id].rawLen > U64_MAX { return Err(Format); }
        MoreBlocks(contents, blockSize, id);
        TablesGrow(blockSize, payload, streams, blocks, starts, contents, states[id]);
        streams := streams + [EntryFor(states[id], starts[id], |blocks|)];
        blocks := blocks + states[id].blocks;
      }
      if |blocks| > U32_MAX { return Err(Format); }
      return Ok(SegmentFile(blockSize, payload, streams, blocks));
    }
  }

  lemma NoBlocks(contents: seq<seq<byte>>, blockSize: nat)
    requires blockSize > 0
    ensures TotalBlocks(contents, blockSize, 0) == 0
  {
  }

  lemma MoreBlocks(contents: seq<seq<byte>>, blockSize: nat, n: nat)
    requires n < |contents| && blockSize > 0
    ensures TotalBlocks(contents, blockSize, n + 1)
         == TotalBlocks(contents, blockSize, n) + BlockCount(contents[n], blockSize)
  {
  }

  lemma FinishedFacts(s: StreamState, blockSize: nat, id: nat, content: seq<byte>, payload: seq<byte>)
    requires Finished(s, blockSize, id, content, payload) && blockSize > 0
    ensures s.rawLen == |content| && |s.blocks| == BlockCount(content, blockSize) && AllBlocksFit(content, blockSize)
  {
    CoversCount(s.blocks, blockSize, id, content, payload);
  }

  /** Between pushes every full block has been flushed, so it fits. */
  lemma StagedIsReady(s: StreamState, blockSize: nat, id: nat, content: seq<byte>, payload: seq<byte>)
    requires Staged(s, blockSize, id, content, payload)
    requires |s.rawBuf| < blockSize && s.rawLen == |content| && s.hashed == content
    ensures Ready(s, blockSize, id, content, payload) && FullBlocksFit(content, blockSize)
  {
    ReadyFits(s, blockSize, id, content, payload);
  }

  lemma LaterUnfit(before: seq<byte>, data: seq<byte>, done: nat, blockSize: nat)
    requires done <= |data| && !FullBlocksFit(before + data[..done], blockSize)
    ensures !FullBlocksFit(before + data, blockSize)
  {
    hide FullBlocksFit;
    if FullBlocksFit(before + data, blockSize) { FullPrefix(before + data[..done], before + data, blockSize); }
  }

  lemma ReadyIsStaged(s: StreamState, blockSize: nat, id: nat, content: seq<byte>, payload: seq<byte>)
    requires Ready(s, blockSize, id, content, payload)
    ensures Staged(s, blockSize, id, content, payload) && |s.rawBuf| < blockSize
  {
  }

  /** Staging looks at nothing but buffer, blocks and the flushed length. */
  lemma RestartStaged(s: StreamState, t: StreamState, blockSize: nat, id: nat, content: seq<byte>, payload: seq<byte>)
    requires Staged(s, blockSize, id, content, payload)
    requires t.rawBuf == s.rawBuf && t.blocks == s.blocks && t.flushedRawLen == s.flushedRawLen
    ensures Staged(t, blockSize, id, content, payload)
  {
  }

  /** Flushing exactly one full block keeps every block full. */
  lemma FlushedFull(s: StreamState, t: StreamState, blockSize: nat, id: nat, content: seq<byte>,
                    payload: seq<byte>)
    requires s.flushedRawLen == |s.blocks| * blockSize && |s.rawBuf| == blockSize
    requires s.flushedRawLen + |s.rawBuf| == |content|
    requires t.rawBuf == [] && t.flushedRawLen == |content| && |t.blocks| == |s.blocks| + 1
    requires BlocksHold(t.blocks, blockSize, id, content, payload)
    ensures Staged(t, blockSize, id, content, payload)
  {
  }
}
