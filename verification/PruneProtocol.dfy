/** Publishing a pruned store: one fresh generation replaces all others. */
module PruneProtocol {
  import opened Wrappers
  import opened Bytes
  import opened Format
  import opened Dag
  import opened Model
  import opened Ranges
  import opened TransactionFormat
  import opened Transactions
  import opened HotLog
  import opened Writer
  import opened Segment
  import opened Columns
  import opened BlockReader
  import opened RouteFile
  import opened Sealing
  import opened Materialize
  import opened Pruning
  import opened Deletion
  import opened Manifests
  import opened Recovery
  import opened SealProtocol

  // Writing a whole state as one generation

  /** The name and checkpoint streams written for the first `i` checkpoints. */
  ghost predicate CheckpointsWritten(contents: seq<seq<byte>>, t: StoreState, i: nat)
    requires i <= |t.checkpoints| && TableFits(Map(IdOf, t.checkpoints[..i]))
  {
    var cps := t.checkpoints[..i];
    && |contents| == STREAMS
    && contents[CP_THREAD] == Col32(ThreadColumn(t, cps)) && contents[CP_NO] == Col32(Map(NumberOf, cps))
    && contents[CP_ID_OFFSETS] == OffsetBytes(Map(IdOf, cps)) && contents[CP_ID_BYTES] == Joined(Map(IdOf, cps))
    && contents[CP_PARENT_ORDINAL] == Col32(ParentColumn(t, cps))
    && contents[CP_IDENTITY_VERSION] == Col32(Map(IdentityOf, cps))
    && contents[CP_MESSAGES_VERSION] == Col32(Map(MessagesOf, cps))
    && contents[CP_RESULT_VERSION] == Col32(Map(ResultOf, cps))
    && contents[CP_LOGICAL_LEN] == Col64(Map(LenOf, cps)) && contents[CP_STATE_HASH] == Col64(Map(HashOf, cps))
  }

  /** What checkpoint `i` adds to each stream. */
  ghost function CheckpointParts(t: StoreState, i: nat): (parts: seq<seq<byte>>)
    requires i < |t.checkpoints|
    ensures |parts| == STREAMS
  {
    var c := t.checkpoints[i];
    [ [], [], [], [], [], [], [], [], [], [], [], [],
      U32(ThreadOrdinal(t, c)), U32(c.number),
      OffsetDelta(Map(IdOf, t.checkpoints[..i]), c.id), c.id,
      U32(ParentOrdinal(t, c)), U32(IdentityOf(c)), U32(MessagesOf(c)), U32(ResultOf(c)),
      U64(LenOf(c)), U64(HashOf(c)) ]
  }

  lemma ColumnsStep(t: StoreState, i: nat)
    requires i < |t.checkpoints|
    ensures ThreadColumn(t, t.checkpoints[..i + 1])
         == ThreadColumn(t, t.checkpoints[..i]) + [ThreadOrdinal(t, t.checkpoints[i])]
    ensures ParentColumn(t, t.checkpoints[..i + 1])
         == ParentColumn(t, t.checkpoints[..i]) + [ParentOrdinal(t, t.checkpoints[i])]
    ensures t.checkpoints[..i + 1] == t.checkpoints[..i] + [t.checkpoints[i]]
    ensures Map(IdOf, t.checkpoints[..i + 1]) == Map(IdOf, t.checkpoints[..i]) + [t.checkpoints[i].id]
  {
    hide ThreadOrdinal, ParentOrdinal;
  }

  lemma CheckpointStep(before: seq<seq<byte>>, after: seq<seq<byte>>, t: StoreState, i: nat)
    requires i < |t.checkpoints| && TableFits(Map(IdOf, t.checkpoints[..i]))
    requires TableFits(Map(IdOf, t.checkpoints[..i]) + [t.checkpoints[i].id])
    requires CheckpointsWritten(before, t, i) && GrownBelow(before, after, CheckpointParts(t, i), STREAMS)
    ensures TableFits(Map(IdOf, t.checkpoints[..i + 1])) && CheckpointsWritten(after, t, i + 1)
    ensures forall id :: 0 <= id < CP_THREAD ==> after[id] == before[id]
  {
    hide Col32, Col64, Map, ThreadColumn, ParentColumn, OffsetBytes, OffsetDelta, Joined, TableFits, U32, U64,
      ThreadOrdinal, ParentOrdinal;
    var c, cps := t.checkpoints[i], t.checkpoints[..i];
    ColumnsStep(t, i);
    Col32Append(ThreadColumn(t, cps), ThreadOrdinal(t, c));
    Col32Append(ParentColumn(t, cps), ParentOrdinal(t, c));
    TableGrows(Map(IdOf, cps), c.id);
    MapCol32One(NumberOf, cps, c);
    MapCol32One(IdentityOf, cps, c);
    MapCol32One(MessagesOf, cps, c);
    MapCol32One(ResultOf, cps, c);
    MapCol64One(LenOf, cps, c);
    MapCol64One(HashOf, cps, c);
    forall id | 0 <= id < CP_THREAD
      ensures after[id] == before[id]
    {
      Nothing(before[id]);
    }
  }

  lemma PartsOfCheckpoint(t: StoreState, i: nat, before: seq<seq<byte>>)
    requires i < |t.checkpoints| && |before| == STREAMS
    ensures var c, parts := t.checkpoints[i], CheckpointParts(t, i);
      && parts[CP_THREAD] == U32(ThreadOrdinal(t, c)) && parts[CP_NO] == U32(c.number)
      && parts[CP_ID_OFFSETS] == OffsetDelta(Map(IdOf, t.checkpoints[..i]), c.id) && parts[CP_ID_BYTES] == c.id
      && FieldParts(c, ParentOrdinal(t, c), parts)
      && GrownBelow(before, before, parts, CP_THREAD)
  {
    hide U32, U64, OffsetDelta, Map, ThreadOrdinal, ParentOrdinal, Col32, Col64;
    forall id | 0 <= id < CP_THREAD
      ensures before[id] == before[id] + CheckpointParts(t, i)[id]
    {
      Nothing(before[id]);
    }
  }

  /** The ten checkpoint columns of a state. */
  ghost function CheckpointStreams(t: StoreState): (r: seq<seq<byte>>)
    requires TableFits(Map(IdOf, t.checkpoints))
    ensures |r| == STREAMS - CP_THREAD
  {
    var cps := t.checkpoints;
    [ Col32(ThreadColumn(t, cps)), Col32(Map(NumberOf, cps)),
      OffsetBytes(Map(IdOf, cps)), Joined(Map(IdOf, cps)),
      Col32(ParentColumn(t, cps)), Col32(Map(IdentityOf, cps)), Col32(Map(MessagesOf, cps)),
      Col32(Map(ResultOf, cps)), Col64(Map(LenOf, cps)), Col64(Map(HashOf, cps)) ]
  }

  /** Contents with the checkpoint columns in place. */
  ghost function WithCheckpoints(contents: seq<seq<byte>>, t: StoreState): (r: seq<seq<byte>>)
    requires |contents| == STREAMS && TableFits(Map(IdOf, t.checkpoints))
    ensures |r| == STREAMS
  {
    contents[..CP_THREAD] + CheckpointStreams(t)
  }

  lemma {:induction false} Col32Prefix(xs: seq<u32>, i: nat)
    requires i <= |xs|
    ensures Col32(xs[..i]) <= Col32(xs)
  {
    assert xs == xs[..i] + xs[i..];
    Col32Concat(xs[..i], xs[i..]);
  }

  lemma MapPrefix<T, U>(f: T -> U, xs: seq<T>, i: nat)
    requires i <= |xs|
    ensures Map(f, xs[..i]) == Map(f, xs)[..i]
  {
  }

  lemma MapCol32Prefix<T>(f: T -> u32, xs: seq<T>, i: nat)
    requires i <= |xs|
    ensures Col32(Map(f, xs[..i])) <= Col32(Map(f, xs))
  {
    hide Col32, Map;
    MapPrefix(f, xs, i);
    Col32Prefix(Map(f, xs), i);
  }

  lemma MapCol64Prefix<T>(f: T -> u64, xs: seq<T>, i: nat)
    requires i <= |xs|
    ensures Col64(Map(f, xs[..i])) <= Col64(Map(f, xs))
  {
    hide Col64, Map;
    assert xs == xs[..i] + xs[i..];
    MapCol64(f, xs[..i], xs[i..]);
  }

  /** A table begins with the table of its first names. */
  lemma {:induction false} TablePrefixes(names: seq<Id>, i: nat)
    requires i <= |names| && TableFits(names)
    ensures TableFits(names[..i]) && Joined(names[..i]) <= Joined(names)
    ensures OffsetBytes(names[..i]) <= OffsetBytes(names)
    decreases |names|
  {
    hide OffsetBytes, Joined, OffsetDelta;
    if i == |names| {
      assert names[..i] == names;
    } else {
      var init, last := names[..|names| - 1], names[|names| - 1];
      assert names == init + [last];
      TableGrows(init, last);
      TablePrefixes(init, i);
      assert init[..i] == names[..i];
    }
  }

  /** What has been written for the first checkpoints begins the columns. */
  lemma WrittenIsBelow(contents: seq<seq<byte>>, goal: seq<seq<byte>>, t: StoreState, i: nat)
    requires i <= |t.checkpoints| && TableFits(Map(IdOf, t.checkpoints))
    requires TableFits(Map(IdOf, t.checkpoints[..i])) && CheckpointsWritten(contents, t, i)
    requires |goal| == STREAMS && forall id :: 0 <= id < CP_THREAD ==> contents[id] == goal[id]
    ensures Below(contents, WithCheckpoints(goal, t))
  {
    hide Col32, Col64, Map, ThreadColumn, ParentColumn, OffsetBytes, Joined, TableFits;
    var cps := t.checkpoints;
    assert ThreadColumn(t, cps[..i]) == ThreadColumn(t, cps)[..i] by { ColumnPrefixes(t, i); }
    assert ParentColumn(t, cps[..i]) == ParentColumn(t, cps)[..i] by { ColumnPrefixes(t, i); }
    Col32Prefix(ThreadColumn(t, cps), i);
    Col32Prefix(ParentColumn(t, cps), i);
    MapCol32Prefix(NumberOf, cps, i);
    MapCol32Prefix(IdentityOf, cps, i);
    MapCol32Prefix(MessagesOf, cps, i);
    MapCol32Prefix(ResultOf, cps, i);
    MapCol64Prefix(LenOf, cps, i);
    MapCol64Prefix(HashOf, cps, i);
    MapPrefix(IdOf, cps, i);
    TablePrefixes(Map(IdOf, cps), i);
  }

  lemma ColumnPrefixes(t: StoreState, i: nat)
    requires i <= |t.checkpoints|
    ensures ThreadColumn(t, t.checkpoints[..i]) == ThreadColumn(t, t.checkpoints)[..i]
    ensures ParentColumn(t, t.checkpoints[..i]) == ParentColumn(t, t.checkpoints)[..i]
  {
    hide ThreadOrdinal, ParentOrdinal;
  }

  /** A checkpoint that does not fit keeps the columns from fitting. */
  lemma UnfitCheckpoint(before: seq<seq<byte>>, goal: seq<seq<byte>>, t: StoreState, i: nat, blockSize: nat)
    requires i < |t.checkpoints| && TableFits(Map(IdOf, t.checkpoints[..i])) && CheckpointsWritten(before, t, i)
    requires |before| == |goal| == STREAMS && forall id :: 0 <= id < CP_THREAD ==> before[id] == goal[id]
    requires TableFits(Map(IdOf, t.checkpoints))
    requires TableFits(Map(IdOf, t.checkpoints[..i]) + [t.checkpoints[i].id])
    requires !Fitting(Grown(before, CheckpointParts(t, i), STREAMS), blockSize)
    ensures !Fitting(WithCheckpoints(goal, t), blockSize)
  {
    hide CheckpointsWritten, CheckpointParts, WithCheckpoints, TableFits, Map, Fitting;
    var after := Grown(before, CheckpointParts(t, i), STREAMS);
    CheckpointStep(before, after, t, i);
    WrittenIsBelow(after, goal, t, i + 1);
    if Fitting(WithCheckpoints(goal, t), blockSize) { FittingBelow(after, WithCheckpoints(goal, t), blockSize); }
  }

  /** Every checkpoint of the state, with ordinals from its own indexes: exactly
      when the names fit their table and the columns fit their blocks. */
  method WriteCheckpoints(w: SegmentWriter, t: StoreState) returns (r: Result<()>)
    requires w.Valid() && Inv(t)
    requires |w.contents| == |w.starts| == STREAMS
    requires forall id :: CP_THREAD <= id < STREAMS ==> w.contents[id] == [] && w.starts[id] == 0
    modifies w`states, w`payload, w`contents
    ensures r.Ok? <==>
      && TableFits(Map(IdOf, t.checkpoints))
      && Fitting(WithCheckpoints(old(w.contents), t), w.blockSize)
    ensures r.Ok? ==> w.Valid() && w.contents == WithCheckpoints(old(w.contents), t)
  {
    hide WellFormed, VersionsOk, RequestsOk, Ready, OffsetBytes, OffsetDelta, Joined, TableFits, Map, Col32, Col64,
      U32, U64, CheckpointsWritten, ThreadColumn, ParentColumn, ThreadOrdinal, ParentOrdinal, GrownBelow, Grown,
      FieldParts, CheckpointOk, ThreadsIndexed, CheckpointsIndexed, Fitting, CheckpointParts, WithCheckpoints;
    NothingWritten(w.contents, t);
    ghost var c0 := w.contents;
    for i := 0 to |t.checkpoints|
      invariant w.Valid() && TableFits(Map(IdOf, t.checkpoints[..i])) && CheckpointsWritten(w.contents, t, i)
      invariant |w.contents| == STREAMS
      invariant forall id :: 0 <= id < CP_THREAD ==> w.contents[id] == c0[id]
    {
      var c := t.checkpoints[i];
      ghost var before, parts := w.contents, CheckpointParts(t, i);
      OrdinalFacts(t, i);
      PartsOfCheckpoint(t, i, before);
      TablesAt(before, t, i);
      ColumnsStep(t, i);
      PrefixFits(t, i + 1);
      FittingGrown(before, parts, CP_PARENT_ORDINAL, STREAMS, w.blockSize);
      ghost var unfit := TableFits(Map(IdOf, t.checkpoints)) && !Fitting(Grown(before, parts, STREAMS), w.blockSize);
      if unfit { UnfitCheckpoint(before, c0, t, i, w.blockSize); }
      var named := WriteCheckpointName(w, c, t.threadOrdinals[c.thread], Map(IdOf, t.checkpoints[..i]), before, parts);
      if named.Err? { return Err(Format); }
      var parent: u32 := if c.parent.None? then NONE_PARENT else t.checkpointOrdinals[Key(c.thread, c.parent.value)];
      var ok := WriteRest(w, c, parent, before, parts);
      if !ok { return Err(Format); }
      CheckpointStep(before, w.contents, t, i);
    }
    AllWritten(w.contents, c0, t);
    w.Fits();
    return Ok(());
  }

  lemma AllWritten(contents: seq<seq<byte>>, before: seq<seq<byte>>, t: StoreState)
    requires |contents| == |before| == STREAMS && forall id :: 0 <= id < CP_THREAD ==> contents[id] == before[id]
    requires TableFits(Map(IdOf, t.checkpoints[..|t.checkpoints|])) && CheckpointsWritten(contents, t, |t.checkpoints|)
    ensures TableFits(Map(IdOf, t.checkpoints)) && contents == WithCheckpoints(before, t)
  {
    hide Col32, Col64, Map, ThreadColumn, ParentColumn, OffsetBytes, Joined, TableFits;
    assert t.checkpoints[..|t.checkpoints|] == t.checkpoints;
  }

  lemma NothingWritten(contents: seq<seq<byte>>, t: StoreState)
    requires |contents| == STREAMS && forall id :: CP_THREAD <= id < STREAMS ==> contents[id] == []
    ensures TableFits(Map(IdOf, t.checkpoints[..0])) && CheckpointsWritten(contents, t, 0)
  {
    assert t.checkpoints[..0] == [];
    assert Map(IdOf, t.checkpoints[..0]) == [];
  }

  lemma OrdinalFacts(t: StoreState, i: nat)
    requires Inv(t) && i < |t.checkpoints|
    ensures var c := t.checkpoints[i];
      && c.thread in t.threadOrdinals && t.threadOrdinals[c.thread] <= U32_MAX
      && ThreadOrdinal(t, c) == t.threadOrdinals[c.thread]
      && (if c.parent.None? then ParentOrdinal(t, c) == NONE_PARENT
          else Key(c.thread, c.parent.value) in t.checkpointOrdinals
               && ParentOrdinal(t, c) == t.checkpointOrdinals[Key(c.thread, c.parent.value)] <= U32_MAX)
  {
    hide WellFormed, VersionsOk, RequestsOk, IdentifierOk;
    assert CheckpointOk(t, i);
    ThreadOrdinalKnown(t, i);
  }

  lemma TablesAt(contents: seq<seq<byte>>, t: StoreState, i: nat)
    requires i <= |t.checkpoints| && TableFits(Map(IdOf, t.checkpoints[..i])) && CheckpointsWritten(contents, t, i)
    ensures |contents[CP_ID_OFFSETS]| == |OffsetBytes(Map(IdOf, t.checkpoints[..i]))|
    ensures |contents[CP_ID_BYTES]| == |Joined(Map(IdOf, t.checkpoints[..i]))|
  {
    hide OffsetBytes, Joined, TableFits, Map, Col32, Col64, ThreadColumn, ParentColumn;
  }

  lemma {:induction false} JoinedPrefix(names: seq<Id>, i: nat)
    requires i <= |names|
    ensures |Joined(names[..i])| <= |Joined(names)|
    decreases |names|
  {
    if i < |names| {
      JoinedPrefix(names[..|names| - 1], i);
      assert names[..|names| - 1][..i] == names[..i];
    } else {
      assert names[..i] == names;
    }
  }

  lemma PrefixFits(t: StoreState, i: nat)
    requires 0 < i <= |t.checkpoints|
    ensures TableFits(Map(IdOf, t.checkpoints)) ==> TableFits(Map(IdOf, t.checkpoints[..i]))
    ensures Map(IdOf, t.checkpoints[..i]) == Map(IdOf, t.checkpoints[..i - 1]) + [t.checkpoints[i - 1].id]
  {
    hide Joined;
    JoinedPrefix(Map(IdOf, t.checkpoints), i);
    assert Map(IdOf, t.checkpoints)[..i] == Map(IdOf, t.checkpoints[..i]);
  }

  /** The threads of the state, exactly when they fit table and blocks. */
  method WriteThreads(w: SegmentWriter, threads: seq<Id>) returns (r: Result<()>)
    requires w.Valid() && |w.contents| == |w.starts| == STREAMS
    requires w.contents[THREAD_OFFSETS] == w.contents[THREAD_BYTES] == []
    requires w.starts[THREAD_OFFSETS] == w.starts[THREAD_BYTES] == 0
    modifies w`states, w`payload, w`contents
    ensures r.Ok? <==>
      && TableFits(threads)
      && Fitting(ThreadsWritten(old(w.contents), threads), w.blockSize)
    ensures r.Ok? ==>
      && w.Valid()
      && w.contents == ThreadsWritten(old(w.contents), threads)
  {
    hide Ready, OffsetBytes, OffsetDelta, Joined, TableFits, Ends, Fitting;
    ghost var c0 := w.contents;
    NoThreads(threads);
    for i := 0 to |threads|
      invariant w.Valid() && TableFits(threads[..i])
      invariant w.contents == ThreadsWritten(c0, threads[..i])
    {
      assert threads[..i + 1] == threads[..i] + [threads[i]];
      ThreadPrefixFits(threads, i + 1);
      if TableFits(threads[..i + 1]) {
        if TableFits(threads) { ThreadsBelow(c0, threads, i + 1, w.blockSize); }
        ThreadsStep(c0, threads, i);
      }
      var named := WriteName(w, THREAD_OFFSETS, THREAD_BYTES, threads[i], threads[..i]);
      if named.Err? { return Err(Format); }
    }
    assert threads[..|threads|] == threads;
    w.Fits();
    return Ok(());
  }

  ghost function ThreadsWritten(c: seq<seq<byte>>, threads: seq<Id>): (r: seq<seq<byte>>)
    requires |c| == STREAMS && TableFits(threads)
    ensures |r| == STREAMS
  {
    c[THREAD_OFFSETS := OffsetBytes(threads)][THREAD_BYTES := Joined(threads)]
  }

  lemma ThreadsStep(c: seq<seq<byte>>, threads: seq<Id>, i: nat)
    requires |c| == STREAMS && i < |threads| && TableFits(threads[..i + 1])
    ensures TableFits(threads[..i])
    ensures var before := ThreadsWritten(c, threads[..i]);
      ThreadsWritten(c, threads[..i + 1]) == before[
        THREAD_OFFSETS := before[THREAD_OFFSETS] + OffsetDelta(threads[..i], threads[i])][
        THREAD_BYTES := before[THREAD_BYTES] + threads[i]]
  {
    hide OffsetBytes, OffsetDelta, Joined, TableFits;
    assert threads[..i + 1] == threads[..i] + [threads[i]];
    TableGrows(threads[..i], threads[i]);
  }

  lemma ThreadsBelow(c: seq<seq<byte>>, threads: seq<Id>, i: nat, blockSize: nat)
    requires |c| == STREAMS && i <= |threads| && TableFits(threads) && TableFits(threads[..i])
    ensures Fitting(ThreadsWritten(c, threads), blockSize) ==> Fitting(ThreadsWritten(c, threads[..i]), blockSize)
  {
    hide Fitting, OffsetBytes, Joined, TableFits;
    TablePrefixes(threads, i);
    if Fitting(ThreadsWritten(c, threads), blockSize) {
      FittingBelow(ThreadsWritten(c, threads[..i]), ThreadsWritten(c, threads), blockSize);
    }
  }

  lemma NoThreads(threads: seq<Id>)
    ensures TableFits(threads[..0]) && OffsetBytes(threads[..0]) == [] && Joined(threads[..0]) == []
  {
  }

  lemma ThreadPrefixFits(threads: seq<Id>, i: nat)
    requires i <= |threads|
    ensures TableFits(threads) ==> TableFits(threads[..i])
  {
    JoinedPrefix(threads, i);
  }

  /** The streams of the whole state, part by part. */
  ghost function Staged(t: StoreState, stage: nat): (r: seq<seq<byte>>)
    requires TableFits(t.threads) && TableFits(Map(IdOf, t.checkpoints))
    ensures |r| == STREAMS
  {
    seq(STREAMS, id requires 0 <= id < STREAMS => if id < stage then StreamsOf(t)[id] else [])
  }

  lemma Stages(t: StoreState, none: seq<seq<byte>>)
    requires NamesFit(t) && |none| == STREAMS && forall id :: 0 <= id < STREAMS ==> none[id] == []
    ensures TableFits(t.threads) && TableFits(Map(IdOf, t.checkpoints))
    ensures none[PAYLOAD := none[PAYLOAD] + t.arena] == Staged(t, NODE_FIELD0)
    ensures NodesPushed(Staged(t, NODE_FIELD0), t.nodes) == Staged(t, WIDE_KIND)
    ensures WidesPushed(Staged(t, WIDE_KIND), t.wides) == Staged(t, VERSION_ROOT)
    ensures VersionsPushed(Staged(t, VERSION_ROOT), t.versions, t.parents) == Staged(t, THREAD_OFFSETS)
    ensures ThreadsWritten(Staged(t, THREAD_OFFSETS), t.threads) == Staged(t, CP_THREAD)
    ensures WithCheckpoints(Staged(t, CP_THREAD), t) == StreamsOf(t) == Staged(t, STREAMS)
  {
    hide Map, Col32, Col64, OffsetBytes, Joined, TableFits, ThreadColumn, ParentColumn;
    assert forall a: seq<byte> :: [] + a == a;
    StreamsAre(t);
  }

  /** A part of the streams that does not fit keeps the whole from fitting. */
  lemma StagesFit(t: StoreState, stage: nat, blockSize: nat)
    requires NamesFit(t)
    ensures Packs(Zeros(), StreamsOf(t), blockSize) ==> Fitting(Staged(t, stage), blockSize)
  {
    hide StreamsOf, Packs, Fitting;
    if Packs(Zeros(), StreamsOf(t), blockSize) {
      PacksFits(Zeros(), StreamsOf(t), blockSize);
      FittingBelow(Staged(t, stage), StreamsOf(t), blockSize);
    }
  }

  /** The first generation of a pruned store has room: known wide kinds, names
      that fit their tables, streams that fit a segment. */
  ghost predicate Writable(t: StoreState, blockSize: nat) {
    NamesFit(t) && WidesKnown(t.wides) && Packs(Zeros(), StreamsOf(t), blockSize)
  }

  /** Pushing the data leaves the other streams alone. */
  lemma DataStays(c: seq<seq<byte>>, t: StoreState)
    requires |c| == STREAMS
    ensures var nodes := NodesPushed(c[PAYLOAD := c[PAYLOAD] + t.arena], t.nodes);
      var data := VersionsPushed(WidesPushed(nodes, t.wides), t.versions, t.parents);
      forall id :: THREAD_OFFSETS <= id < STREAMS ==> data[id] == c[id]
  {
    hide Map, Col32, Col64;
  }

  /** A compacted state written as the first segment of a fresh generation,
      exactly when there is room for it. */
  method WriteCompacted(t: StoreState, blockSize: u32) returns (r: Result<SegmentFile>)
    requires Inv(t) && blockSize > 0
    ensures r.Ok? <==> Writable(t, blockSize)
    ensures r.Ok? ==> SegmentHolds(r.value, Zeros(), StreamsOf(t))
  {
    hide Inv, Ready, OffsetBytes, Joined, TableFits, Map, Col32, Col64, KindsKnown, WidesKnown, SegmentHolds, Staged,
      NodesPushed, WidesPushed, VersionsPushed, WithCheckpoints, Fitting, Packs, StreamsOf, FullBlocksFit,
      ThreadColumn, ParentColumn;
    NodesDecodable(t);
    Parts(t);
    SameLengths(t);
    var w := new SegmentWriter(Zeros(), blockSize);
    ghost var none := w.contents;
    ghost var fits := NamesFit(t);
    if fits {
      Stages(t, none);
      StagesFit(t, NODE_FIELD0, blockSize);
      StagesFit(t, WIDE_KIND, blockSize);
      StagesFit(t, VERSION_ROOT, blockSize);
      StagesFit(t, THREAD_OFFSETS, blockSize);
      StagesFit(t, CP_THREAD, blockSize);
      StagesFit(t, STREAMS, blockSize);
    }
    DataStays(none, t);
    var ok := w.Push(PAYLOAD, t.arena);
    if !ok {
      UnfitAt(none[PAYLOAD := none[PAYLOAD] + t.arena], PAYLOAD, blockSize);
      return Err(Format);
    }
    var data := WriteNodes(w, t.nodes);
    if data.Err? { return Err(Format); }
    data := WriteWides(w, t.wides);
    if data.Err? { return Err(Format); }
    ok := WriteVersions(w, t.versions, t.parents);
    if !ok { return Err(Format); }
    data := WriteThreads(w, t.threads);
    if data.Err? { return Err(Format); }
    data := WriteCheckpoints(w, t);
    if data.Err? { return Err(Format); }
    r := w.Finalize();
  }

  lemma SameLengths(t: StoreState)
    requires VersionsOk(t)
    ensures |t.versions| == |t.parents|
  {
  }

  // The metadata lists of the new generation

  method ListNames(names: set<Key>) returns (list: seq<Key>)
    ensures forall i, j :: 0 <= i < j < |list| ==> list[i] != list[j]
    ensures forall k :: k in list <==> k in names
  {
    list := [];
    var todo := names;
    while todo != {}
      invariant forall i, j :: 0 <= i < j < |list| ==> list[i] != list[j]
      invariant forall k :: k in list <==> k in names && k !in todo
      invariant todo <= names
      decreases |todo|
    {
      var k :| k in todo;
      list, todo := list + [k], todo - {k};
    }
  }

  method ListRetired(m: map<seq<byte>, seq<byte>>) returns (list: seq<Retired>)
    ensures RetiredListed(list, m)
  {
    list := [];
    var todo := m.Keys;
    while todo != {}
      invariant todo <= m.Keys
      invariant forall i, j :: 0 <= i < j < |list| ==> list[i].key != list[j].key
      invariant forall i :: 0 <= i < |list| ==>
        list[i].key in m && m[list[i].key] == list[i].digest && list[i].key !in todo
      invariant forall k :: k in m && k !in todo ==> exists i :: 0 <= i < |list| && list[i].key == k
      decreases |todo|
    {
      var k :| k in todo;
      ghost var before := list;
      list := list + [Retired(k, m[k])];
      todo := todo - {k};
      forall j | j in m && j !in todo
        ensures exists i :: 0 <= i < |list| && list[i].key == j
      {
        if j == k {
          assert list[|before|].key == j;
        } else {
          var i :| 0 <= i < |before| && before[i].key == j;
          assert list[i].key == j;
        }
      }
    }
  }

  method ListRequests(m: Requests) returns (list: seq<RequestRecord>)
    requires forall k :: k in m ==> m[k].key == k
    ensures RequestsListed(list, m) && |list| == |m|
  {
    list := [];
    var todo := m.Keys;
    while todo != {}
      invariant todo <= m.Keys && |list| + |todo| == |m|
      invariant forall i, j :: 0 <= i < j < |list| ==> list[i].key != list[j].key
      invariant forall i :: 0 <= i < |list| ==> list[i].key in m && m[list[i].key] == list[i] && list[i].key !in todo
      invariant forall k :: k in m && k !in todo ==> exists i :: 0 <= i < |list| && list[i].key == k
      decreases |todo|
    {
      var k :| k in todo;
      ghost var before := list;
      list := list + [m[k]];
      todo := todo - {k};
      forall j | j in m && j !in todo
        ensures exists i :: 0 <= i < |list| && list[i].key == j
      {
        if j == k {
          assert list[|before|].key == j;
        } else {
          var i :| 0 <= i < |before| && before[i].key == j;
          assert list[i].key == j;
        }
      }
    }
  }

  /** All names of the state, for its one route file. */
  function AllAdded(t: StoreState, requests: seq<RequestRecord>): (a: Additions)
    ensures |a.threads| == |t.threads| && |a.checkpoints| == |t.checkpoints| && a.requests == requests
  {
    Additions(seq(|t.threads|, i requires 0 <= i < |t.threads| => (t.threads[i], i as nat)),
              seq(|t.checkpoints|, i requires 0 <= i < |t.checkpoints| =>
                (t.checkpoints[i].Name(), t.checkpoints[i].ordinal)),
              requests)
  }

  lemma AllAreAdded(t: StoreState, requests: seq<RequestRecord>)
    requires Inv(t)
    ensures NamesAdded(EMPTY_STATE, t, AllAdded(t, requests))
  {
    forall i | 0 <= i < |t.checkpoints|
      ensures t.checkpoints[i].ordinal == i
    {
      assert CheckpointOk(t, i);
    }
  }

  function PrunedManifest(generation: nat, t: StoreState, f: Artifact, route: RouteMeta, ends: seq<nat>,
                          l: Lifecycle): Manifest {
    var cps, versions := |t.checkpoints|, |t.versions|;
    Manifest(generation, 0, cps, versions, |t.threads|, ends,
             [SegmentMeta(generation, SegmentName(generation), FileBytes(f), 0, 0, 0, cps, 0, versions, Zeros(), ends)],
             [route], l.tombstones, l.retired)
  }

  /** The metadata of the route file of a pruned generation. */
  predicate PrunedRoute(generation: u64, t: StoreState, requests: seq<RequestRecord>, route: RouteMeta)
    requires Buildable(AllAdded(t, requests))
  {
    BuildableIsBuilt(generation, AllAdded(t, requests));
    var file := RouteOf(generation, AllAdded(t, requests));
    route == RouteMeta(generation, RouteName(generation), |RouteBytes(file)|, |t.threads|, |t.checkpoints|,
                       IndexHash(Tail(file)))
  }

  lemma PrunedRouteValid(generation: u64, t: StoreState, requests: seq<RequestRecord>, route: RouteMeta)
    requires Buildable(AllAdded(t, requests)) && PrunedRoute(generation, t, requests, route)
    requires Built(RouteOf(generation, AllAdded(t, requests)))
    ensures RouteValid(route, RouteArtifact(RouteOf(generation, AllAdded(t, requests))))
    ensures route.bytes == FileBytes(RouteArtifact(RouteOf(generation, AllAdded(t, requests))))
    ensures RouteOf(generation, AllAdded(t, requests)).requests == requests
    ensures route == RouteMeta(generation, RouteName(generation), route.bytes, |t.threads|, |t.checkpoints|, route.hash)
  {
    hide RouteBytes, RouteFileValid, IndexHash, Tail, Sort, KeysFit;
    CountsKept(AllAdded(t, requests));
    BuiltIsValid(RouteOf(generation, AllAdded(t, requests)), route.generation, route.threadCount, route.checkpointCount,
                 route.hash);
  }

  lemma PrunedManifestValid(generation: u64, t: StoreState, f: SegmentFile, requests: seq<RequestRecord>,
                            ends: seq<nat>,
                            l: Lifecycle, route: RouteMeta, files: Files)
    requires generation > 0 && |ends| == STREAMS
    requires Buildable(AllAdded(t, requests)) && PrunedRoute(generation, t, requests, route)
    requires Built(RouteOf(generation, AllAdded(t, requests)))
    requires SegmentName(generation) in files && files[SegmentName(generation)] == SegmentArtifact(f)
    requires RouteName(generation) in files
    requires files[RouteName(generation)] == RouteArtifact(RouteOf(generation, AllAdded(t, requests)))
    ensures var m := PrunedManifest(generation, t, SegmentArtifact(f), route, ends, l);
      && ManifestValid(m, files) && FilesTyped(m, files) && NamedByGeneration(m)
      && SegmentFiles(m, files) == [f] && StartsOf(m) == [Zeros(), ends] && RouteRequests(m.routes, files) == requests
  {
    hide RouteValid, FileBytes, RouteOf, Built, Buildable, AllAdded, ManifestValid, FilesTyped, NamedByGeneration,
      SegmentFiles, StartsOf, RouteRequests, NamesShort;
    BuildableNames(AllAdded(t, requests));
    PrunedRouteValid(generation, t, requests, route);
    OneGeneration(generation, t, f, RouteOf(generation, AllAdded(t, requests)), ends, l, route, files);
  }

  /** A manifest of one generation over files that are there. */
  lemma OneGeneration(generation: u64, t: StoreState, f: SegmentFile, file: BuiltRoute, ends: seq<nat>, l: Lifecycle,
                      route: RouteMeta, files: Files)
    requires generation > 0 && |ends| == STREAMS
    requires route
          == RouteMeta(generation, RouteName(generation), route.bytes, |t.threads|, |t.checkpoints|, route.hash)
    requires RouteValid(route, RouteArtifact(file)) && route.bytes == FileBytes(RouteArtifact(file))
    requires SegmentName(generation) in files && files[SegmentName(generation)] == SegmentArtifact(f)
    requires RouteName(generation) in files && files[RouteName(generation)] == RouteArtifact(file)
    ensures var m := PrunedManifest(generation, t, SegmentArtifact(f), route, ends, l);
      && ManifestValid(m, files) && FilesTyped(m, files) && NamedByGeneration(m)
      && SegmentFiles(m, files) == [f] && StartsOf(m) == [Zeros(), ends]
      && RouteRequests(m.routes, files) == file.requests
  {
    hide RouteValid, FileBytes, Built;
    var m := PrunedManifest(generation, t, SegmentArtifact(f), route, ends, l);
    assert ContinuesAt(m, files, 0);
    assert m.routes[..0] == [];
    assert RouteRequests([], files) == [] && RouteCheckpoints([]) == 0 && RouteThreads([]) == 0;
    assert RouteRequests(m.routes, files) == [] + files[RouteName(generation)].route.requests;
  }

  lemma OneSegment(f: SegmentFile, streams: seq<seq<byte>>)
    requires |streams| == STREAMS && SegmentHolds(f, Zeros(), streams)
    ensures SealedAs([f], [Zeros(), Lengths(streams)], streams)
  {
    hide StreamHeld;
    var none: seq<seq<byte>> := seq(STREAMS, _ => []);
    assert Lengths(none) == Zeros();
    assert SealedAs([], [Zeros()], none);
    forall id | 0 <= id < STREAMS
      ensures streams[id] == none[id] + streams[id]
    {
    }
    SealedAsGrows([], [Zeros()], none, f, streams, streams);
    assert [] + [f] == [f] && [Zeros()] + [Lengths(streams)] == [Zeros(), Lengths(streams)];
  }

  /** The published generation holds the pruned state. */
  lemma PrunedHolds(generation: u64, t: StoreState, f: SegmentFile, requests: seq<RequestRecord>, l: Lifecycle,
                    route: RouteMeta, files: Files)
    requires generation > 0
    requires Buildable(AllAdded(t, requests)) && PrunedRoute(generation, t, requests, route)
    requires Built(RouteOf(generation, AllAdded(t, requests)))
    requires SegmentName(generation) in files && files[SegmentName(generation)] == SegmentArtifact(f)
    requires RouteName(generation) in files
    requires files[RouteName(generation)] == RouteArtifact(RouteOf(generation, AllAdded(t, requests)))
    requires Deletion.Lists(l, t) && l.requests == requests
    requires Inv(t) && NamesFit(t) && WidesKnown(t.wides)
    requires SegmentHolds(f, Zeros(), StreamsOf(t))
    ensures Holds(PrunedManifest(generation, t, SegmentArtifact(f), route, Lengths(StreamsOf(t)), l), files, t)
  {
    hide Inv, NamesFit, WidesKnown, StreamsOf, SegmentHolds, SealedAs, Deletion.Lists, ManifestValid, FilesTyped,
      NamedByGeneration, SegmentFiles, StartsOf, RouteRequests, PrunedRoute, Built, Buildable, RouteOf, AllAdded;
    PrunedManifestValid(generation, t, f, requests, Lengths(StreamsOf(t)), l, route, files);
    OneSegment(f, StreamsOf(t));
    assert Lifecycle(l.tombstones, l.retired, requests) == l;
  }

  /** A pruned store whose one generation can be read back: it has a request, or
      the last name of its table does not end in the footer magic; and its
      ledger is apart. */
  ghost predicate PrunedReadsBack(t: StoreState) {
    && Disjoint(t) && NamesShort(AllAdded(t, []))
    && (t.requests.Keys != {} || NameAllowsReading(AllAdded(t, [])))
  }

  lemma PrunedNames(t: StoreState, requests: seq<RequestRecord>)
    requires RequestsListed(requests, t.requests)
    ensures NamesShort(AllAdded(t, requests)) <==> NamesShort(AllAdded(t, []))
    ensures NamesShort(AllAdded(t, requests)) ==>
      (NameAllowsReading(AllAdded(t, requests)) <==> t.requests.Keys != {} || NameAllowsReading(AllAdded(t, [])))
  {
    var a, b := AllAdded(t, requests), AllAdded(t, []);
    assert a.threads == b.threads && a.checkpoints == b.checkpoints;
    if NamesShort(a) {
      assert CheckpointEntries(a) == CheckpointEntries(b);
      hide Sort;
      assert forall i :: 0 <= i < |a.checkpoints| ==> (LastInTable(a, i) <==> LastInTable(b, i));
    }
    if requests != [] { assert requests[0].key in t.requests.Keys; }
    if k :| k in t.requests.Keys { assert requests != []; }
  }

  lemma PrunedLoadable(generation: u64, t: StoreState, f: SegmentFile, requests: seq<RequestRecord>, ends: seq<nat>,
                       l: Lifecycle, route: RouteMeta, files: Files)
    requires generation > 0 && |ends| == STREAMS
    requires Buildable(AllAdded(t, requests)) && PrunedRoute(generation, t, requests, route)
    requires Built(RouteOf(generation, AllAdded(t, requests)))
    requires SegmentName(generation) in files && files[SegmentName(generation)] == SegmentArtifact(f)
    requires RouteName(generation) in files
    requires files[RouteName(generation)] == RouteArtifact(RouteOf(generation, AllAdded(t, requests)))
    requires Deletion.Lists(l, t) && l.requests == requests
    ensures Loadable(PrunedManifest(generation, t, SegmentArtifact(f), route, ends, l), files) <==> PrunedReadsBack(t)
  {
    hide *;
    BuildableNames(AllAdded(t, requests));
    PrunedManifestValid(generation, t, f, requests, ends, l, route, files);
    ReadableIff(generation, AllAdded(t, requests));
    ListsParts(l, t);
    PrunedNames(t, requests);
    ApartIsDisjoint(requests, l.retired, t);
    RouteKeeps(generation, AllAdded(t, requests));
    PrunedRouteNamed(generation, t, requests, route);
    OneRouteLoadable(generation, t, f, RouteOf(generation, AllAdded(t, requests)), ends, l, route, files);
    PrunedReadsBackIs(t);
  }

  lemma ListsParts(l: Lifecycle, t: StoreState)
    requires Deletion.Lists(l, t)
    ensures RetiredListed(l.retired, t.retired) && RequestsListed(l.requests, t.requests)
  {
    hide RetiredListed, RequestsListed;
  }

  lemma PrunedRouteNamed(generation: u64, t: StoreState, requests: seq<RequestRecord>, route: RouteMeta)
    requires Buildable(AllAdded(t, requests)) && PrunedRoute(generation, t, requests, route)
    ensures route.file == RouteName(generation)
  {
    hide Buildable, AllAdded, RouteOf, RouteBytes, Tail, IndexHash, Built;
  }

  lemma PrunedReadsBackIs(t: StoreState)
    ensures PrunedReadsBack(t) <==>
      && Disjoint(t) && NamesShort(AllAdded(t, []))
      && (t.requests.Keys != {} || NameAllowsReading(AllAdded(t, [])))
  {
    hide Disjoint, NamesShort, AllAdded, NameAllowsReading;
  }

  lemma OneRouteLoadable(generation: u64, t: StoreState, f: SegmentFile, file: BuiltRoute, ends: seq<nat>, l: Lifecycle,
                         route: RouteMeta, files: Files)
    requires RouteName(generation) in files && files[RouteName(generation)] == RouteArtifact(file)
    requires route.file == RouteName(generation)
    requires FilesTyped(PrunedManifest(generation, t, SegmentArtifact(f), route, ends, l), files)
    requires var m := PrunedManifest(generation, t, SegmentArtifact(f), route, ends, l);
      RouteRequests(m.routes, files) == file.requests
    ensures Loadable(PrunedManifest(generation, t, SegmentArtifact(f), route, ends, l), files) <==>
      Readable(file) && LedgerApart(file.requests, l.retired)
  {
    hide Readable, LedgerApart, RouteRequests, Built, FileBytes;
    var m := PrunedManifest(generation, t, SegmentArtifact(f), route, ends, l);
    assert m.routes[0] == route;
  }

  lemma ApartIsDisjoint(requests: seq<RequestRecord>, retired: seq<Retired>, t: StoreState)
    requires RequestsListed(requests, t.requests) && RetiredListed(retired, t.retired)
    ensures LedgerApart(requests, retired) <==> Disjoint(t)
  {
    if !Disjoint(t) {
      var k :| k in t.requests && k in t.retired;
      var i :| 0 <= i < |requests| && requests[i].key == k;
      var j :| 0 <= j < |retired| && retired[j].key == k;
    }
  }

  lemma {:induction false} NoLogNoRecords(g: Geometry, records: seq<seq<byte>>)
    requires Chain(g, records) && |Concat(records)| == 0
    ensures records == []
  {
    hide ParseTransaction;
    if records != [] { LogStartsWithMagic(g, records, []); }
  }

  lemma RestartConsistent(files: Files, m: Manifest, t: StoreState, wal: seq<byte>)
    requires Holds(m, files, t) && Dead(wal)
    ensures Stands(Image(files, m, wal), t) && Consistent(Image(files, m, wal), t, [], wal)
    ensures |Concat([])| == 0 && Chain(t.Watermarks(), []) && Replay(t, Parsed(t.Watermarks(), [])).Ok?
    ensures Alike(Replay(t, Parsed(t.Watermarks(), [])).value, t)
  {
    hide Holds, Alike;
    var d := Image(files, m, wal);
    assert Concat([]) + wal == wal;
    assert Current(wal, t.Watermarks(), [], wal);
    assert Replay(t, Parsed(t.Watermarks(), [])) == Ok(t);
    AlikeSelf(t);
    AlreadyStands(d, t, t, [], wal);
  }

  lemma AlikeSelf(t: StoreState)
    ensures Alike(t, t)
  {
  }

  /** Whether a subtree can be pruned from a state. */
  ghost predicate MayPrune(s: StoreState, hotTail: nat, generation: nat, thread: Id, id: Id) {
    && IdentifierOk(thread) && IdentifierOk(id) && hotTail == 0 && |s.checkpoints| <= U32_MAX
    && Key(thread, id) in s.checkpointOrdinals && Prunable(s, Subtree(s, Key(thread, id)))
    && generation < U64_MAX
  }

  /** Whether the pruned state has room as a generation. */
  ghost predicate RoomForPruned(t: StoreState, blockSize: nat) {
    Writable(t, blockSize) && Buildable(AllAdded(t, [])) && |t.requests| <= U32_MAX
  }

  lemma PrunedBuildable(t: StoreState, requests: seq<RequestRecord>)
    requires RequestsOk(t) && RequestsListed(requests, t.requests) && |requests| == |t.requests|
    ensures Buildable(AllAdded(t, requests)) <==> Buildable(AllAdded(t, [])) && |t.requests| <= U32_MAX
  {
    hide NamesRoom;
    SameRoom(AllAdded(t, requests), AllAdded(t, []));
    forall i | 0 <= i < |requests|
      ensures RecordOk(requests[i])
    {
      assert requests[i].key in t.requests;
    }
  }

  /** Room for the names does not depend on the requests. */
  lemma SameRoom(a: Additions, b: Additions)
    requires a.threads == b.threads && a.checkpoints == b.checkpoints
    ensures NamesRoom(a) <==> NamesRoom(b)
  {
    hide Sort, KeysFit, RouteKey;
    if NamesShort(a) {
      assert ThreadEntries(a) == ThreadEntries(b) && CheckpointEntries(a) == CheckpointEntries(b);
    }
  }

  /** Pruning on disk, or stopping after any step: 1 segment file, 2 route file,
      3 manifest. Whatever happens the directory stands for the state before or
      for the pruned one, and for the pruned one exactly from the manifest on.
      A prune that is not stopped succeeds exactly when the subtree can be
      pruned and what stays has room. It takes files away only at its end, when
      the guard is granted, and then all that no manifest names. */
  method PruneSubtree(store: Store, thread: Id, id: Id, granted: bool, stop: nat)
    returns (r: Result<()>, ghost pruned: StoreState, deleted: set<Key>)
    requires store.Valid()
    modifies store
    ensures
      && old(store.usable)
      && MayPrune(old(store.state), old(store.hotTail), old(store.manifest.generation), thread, id) ==>
      && deleted == Subtree(old(store.state), Key(thread, id)) && Rewritten(old(store.state), deleted, pruned)
      && (RootsFit(pruned) <==> KeptRootsFit(old(store.state), deleted))
    ensures r.Ok? <==>
      && old(store.usable) && MayPrune(old(store.state), old(store.hotTail), old(store.manifest.generation), thread, id)
      && RoomForPruned(pruned, store.blockSize) && !(1 <= stop <= 3)
    ensures store.manifest != old(store.manifest) ==>
      && old(store.usable) && MayPrune(old(store.state), old(store.hotTail), old(store.manifest.generation), thread, id)
      && Stands(store.Disk(), pruned) && (Loadable(store.manifest, store.files) <==> PrunedReadsBack(pruned))
    ensures store.manifest == old(store.manifest) ==>
      && Stands(store.Disk(), old(store.state))
      && (Loadable(store.manifest, store.files) <==> Loadable(old(store.manifest), old(store.files)))
    ensures r.Ok? ==>
      && store.manifest != old(store.manifest) && store.state == pruned && store.usable && store.Valid()
      && (granted ==> forall name :: name in store.files ==> Referenced(store.manifest, name))
    ensures store.manifest != old(store.manifest) ==> Restarted(old(store.manifest), store.manifest, pruned)
    ensures NoOther(old(store.files), store.files, old(store.manifest.generation) + 1)
    ensures !(r.Ok? && granted) ==> OnlyNew(old(store.files), store.files, old(store.manifest.generation) + 1)
    ensures stop == 1 ==> RouteUntouched(old(store.files), store.files, old(store.manifest.generation) + 1)
    ensures r == Err(Io) ==> (store.manifest != old(store.manifest) <==> stop == 3) && !store.usable
    ensures store.wal == old(store.wal)
    ensures r.Err? && r != Err(Io) ==> unchanged(store)
  {
    hide *;
    NothingNew(store.files, store.manifest.generation + 1);
    NewIsOther(store.files, store.files, store.manifest.generation + 1);
    pruned, deleted := store.state, {};
    StateInv(store);
    store.Unpack();
    ReplayOf(store.base, store.records, store.state);
    AlreadyStands(store.Disk(), store.state, store.base, store.records, store.tail);
    MayPruneIs(store.state, store.hotTail, store.manifest.generation, thread, id);
    if !store.usable { return Err(RecoveryRequired), pruned, deleted; }
    var compacted;
    compacted, deleted := DeleteCheckpointSubtree(store.state, store.hotTail, false, thread, id);
    if compacted.Err? { return Err(compacted.error), pruned, deleted; }
    var t := compacted.value;
    pruned := t;
    RewrittenInv(store.state, deleted, t);
    PrunedRootsFit(store.state, deleted, t);
    var generation := store.manifest.generation + 1;
    if generation > U64_MAX { return Err(Format), pruned, deleted; }
    var written := WriteCompacted(t, store.blockSize);
    KeysMatch(t);
    var requests := ListRequests(t.requests);
    PrunedBuildable(t, requests);
    RoomForPrunedIs(t, store.blockSize);
    if written.Err? { return Err(Format), pruned, deleted; }
    var built := BuildRouteFile(generation, AllAdded(t, requests));
    if built.Err? { return Err(Format), pruned, deleted; }
    var tombstones := ListNames(t.deleted);
    var retired := ListRetired(t.retired);
    ListsTogether(tombstones, retired, requests, t);
    BuildableNames(AllAdded(t, requests));
    BuiltFits(RouteOf(generation, AllAdded(t, requests)));
    WritableIs(t, store.blockSize);
    NoStreams(t);
    var ends := StreamEnds(written.value, Zeros(), StreamsOf(t), Nowhere(), StreamsOf(t));
    var file := RouteOf(generation, AllAdded(t, requests));
    var route := RouteMeta(generation, RouteName(generation), |built.value.0|, |t.threads|, |t.checkpoints|,
                           built.value.1);
    PrunedRouteIs(generation, t, requests, route);
    var lists := Lifecycle(tombstones, retired, requests);
    r := PublishPruned(store, t, written.value, file, route, ends, lists, granted, stop);
  }

  lemma MayPruneIs(s: StoreState, hotTail: nat, generation: nat, thread: Id, id: Id)
    requires Inv(s)
    ensures |s.checkpoints| <= U32_MAX
    ensures MayPrune(s, hotTail, generation, thread, id) <==>
      && IdentifierOk(thread) && IdentifierOk(id) && hotTail == 0 && Key(thread, id) in s.checkpointOrdinals
      && Prunable(s, Subtree(s, Key(thread, id))) && generation < U64_MAX
  {
    hide Prunable, IdentifierOk, Subtree, WellFormed, VersionsOk, CheckpointOk, CheckpointsIndexed, ThreadsIndexed,
      RequestsOk;
  }

  lemma RoomForPrunedIs(t: StoreState, blockSize: nat)
    ensures RoomForPruned(t, blockSize) <==>
      Writable(t, blockSize) && Buildable(AllAdded(t, [])) && |t.requests| <= U32_MAX
  {
    hide Writable, Buildable, AllAdded;
  }

  lemma WritableIs(t: StoreState, blockSize: nat)
    requires Writable(t, blockSize)
    ensures NamesFit(t) && WidesKnown(t.wides)
  {
    hide NamesFit, WidesKnown, Packs, StreamsOf;
  }

  lemma PrunedRouteIs(generation: u64, t: StoreState, requests: seq<RequestRecord>, route: RouteMeta)
    requires Buildable(AllAdded(t, requests)) && NamesShort(AllAdded(t, requests))
    requires Built(RouteOf(generation, AllAdded(t, requests))) && RouteFits(RouteOf(generation, AllAdded(t, requests)))
    requires route.bytes == |RouteBytes(RouteOf(generation, AllAdded(t, requests)))|
    requires route.hash == IndexHash(Tail(RouteOf(generation, AllAdded(t, requests))))
    requires route
          == RouteMeta(generation, RouteName(generation), route.bytes, |t.threads|, |t.checkpoints|, route.hash)
    ensures PrunedRoute(generation, t, requests, route)
  {
    hide RouteOf, RouteBytes, Tail, IndexHash, Built, RouteFits, Buildable, NamesShort, AllAdded;
  }

  lemma RewrittenInv(s: StoreState, deleted: set<Key>, t: StoreState)
    requires Rewritten(s, deleted, t)
    ensures Inv(t) && RequestsOk(t)
  {
    hide RetainedIntact, Moved, CopiesLive, VersionsCopied, LiveBytes, WellFormed, VersionsOk, CheckpointOk,
      CheckpointsIndexed, ThreadsIndexed, RequestsOk;
  }

  ghost function Nowhere(): (r: seq<seq<byte>>)
    ensures |r| == STREAMS
  {
    seq(STREAMS, _ => [])
  }

  lemma NoStreams(t: StoreState)
    requires NamesFit(t)
    ensures Lengths(Nowhere()) == Zeros() && Continued(Nowhere(), StreamsOf(t), StreamsOf(t))
    ensures |StreamsOf(t)| == STREAMS
  {
    hide StreamsOf;
    forall id | 0 <= id < STREAMS
      ensures StreamsOf(t)[id] == Nowhere()[id] + StreamsOf(t)[id]
    {
    }
  }

  lemma EmptyConcat(tail: seq<byte>)
    ensures Concat([]) + tail == tail
  {
  }

  lemma ListsTogether(tombstones: seq<Key>, retired: seq<Retired>, requests: seq<RequestRecord>, t: StoreState)
    requires forall i, j :: 0 <= i < j < |tombstones| ==> tombstones[i] != tombstones[j]
    requires forall k :: k in tombstones <==> k in t.deleted
    requires RetiredListed(retired, t.retired) && RequestsListed(requests, t.requests)
    ensures Deletion.Lists(Lifecycle(tombstones, retired, requests), t)
  {
    hide RetiredListed, RequestsListed;
  }

  /** A prune publishes the next generation as the only one: no log is before it,
      and it holds all the checkpoints that stay. */
  predicate Restarted(m: Manifest, n: Manifest, t: StoreState) {
    && n.generation == m.generation + 1 && n.sealedEnd == 0 && n.checkpointCount == |t.checkpoints|
    && |n.segments| == |n.routes| == 1
    && n.segments[0].file == SegmentName(n.generation) && n.routes[0].file == RouteName(n.generation)
  }

  lemma PrunedRestarts(m: Manifest, t: StoreState, f: Artifact, route: RouteMeta, ends: seq<nat>, l: Lifecycle)
    requires route.file == RouteName(m.generation + 1)
    ensures Restarted(m, PrunedManifest(m.generation + 1, t, f, route, ends, l), t)
  {
  }

  lemma NewIsOther(before: Files, after: Files, g: nat)
    requires OnlyNew(before, after, g)
    ensures NoOther(before, after, g)
  {
  }

  lemma SweptIsOther(m: Manifest, before: Files, files: Files, left: Files, granted: bool, g: nat)
    requires OnlyNew(before, files, g) && Swept(m, files, left, granted)
    ensures NoOther(before, left, g) && (!granted ==> OnlyNew(before, left, g))
    ensures granted ==> forall name :: name in left ==> Referenced(m, name)
  {
  }

  /** The publication steps of a prune, and the reclaim of the old generations. */
  method PublishPruned(store: Store, t: StoreState, f: SegmentFile, file: BuiltRoute, route: RouteMeta, ends: seq<nat>,
                       l: Lifecycle, granted: bool, stop: nat)
    returns (r: Result<()>)
    requires store.usable && store.hotTail == 0 && store.manifest.generation < U64_MAX
    requires NamesShort(AllAdded(t, l.requests)) && Buildable(AllAdded(t, l.requests))
    requires Built(RouteOf(store.manifest.generation + 1, AllAdded(t, l.requests)))
    requires file == RouteOf(store.manifest.generation + 1, AllAdded(t, l.requests))
    requires PrunedRoute(store.manifest.generation + 1, t, l.requests, route)
    requires NamesFit(t) && SegmentHolds(f, Zeros(), StreamsOf(t)) && ends == Lengths(StreamsOf(t))
    requires Inv(t) && WidesKnown(t.wides) && Deletion.Lists(l, t)
    requires store.Valid()
    modifies store
    ensures r.Ok? <==> !(1 <= stop <= 3)
    ensures store.manifest != old(store.manifest) ==>
      Stands(store.Disk(), t) && (Loadable(store.manifest, store.files) <==> PrunedReadsBack(t))
    ensures store.manifest == old(store.manifest) ==>
      && Stands(store.Disk(), old(store.state))
      && (Loadable(store.manifest, store.files) <==> Loadable(old(store.manifest), old(store.files)))
    ensures r.Ok? ==>
      && store.manifest != old(store.manifest) && store.state == t && store.usable && store.Valid()
      && (granted ==> forall name :: name in store.files ==> Referenced(store.manifest, name))
    ensures store.manifest != old(store.manifest) ==> Restarted(old(store.manifest), store.manifest, t)
    ensures NoOther(old(store.files), store.files, old(store.manifest.generation) + 1)
    ensures !(r.Ok? && granted) ==> OnlyNew(old(store.files), store.files, old(store.manifest.generation) + 1)
    ensures stop == 1 ==> RouteUntouched(old(store.files), store.files, old(store.manifest.generation) + 1)
    ensures r.Err? ==> r == Err(Io) && (store.manifest != old(store.manifest) <==> stop == 3) && !store.usable
    ensures store.wal == old(store.wal)
  {
    hide Store.Valid, Holds, Alike, Replay, Parsed, Concat, Chain, Disjoint, Stands, Dead, Inv, NamesFit, WidesKnown,
      StreamsOf, SegmentHolds, Deletion.Lists, SameReferenced, Consistent, Current, PrunedManifest, FilesTyped,
      NamedByGeneration, ManifestValid, AllAdded, Lengths, Loadable, PrunedReadsBack, PrunedRoute, Built, Buildable,
      RouteOf, NamesShort, Referenced, OnlyNew, NoOther, RouteUntouched, Restarted, Swept;
    store.Unpack();
    ReplayOf(store.base, store.records, store.state);
    HeldFacts(store.manifest, store.files, store.base);
    NoLogNoRecords(store.base.Watermarks(), store.records);
    var state := store.state;
    ghost var d0, records, tail := store.Disk(), store.records, store.tail;
    ghost var base := store.base;
    var generation := store.manifest.generation + 1;
    var segment, routed := SegmentArtifact(f), RouteArtifact(file);
    ghost var files0 := store.files;
    var put := store.PutArtifacts(segment, routed, stop);
    NewIsOther(files0, store.files, generation);
    if put.Err? { return Err(Io); }

    PrunedHolds(generation, t, f, l.requests, l, route, store.files);
    StreamCount(t);
    assert route.file == RouteName(generation) by { PrunedRouteNamed(generation, t, l.requests, route); }
    PrunedLoadable(generation, t, f, l.requests, ends, l, route, store.files);
    PrunedGeneration(generation, t, segment, route, ends, l);
    PrunedRestarts(store.manifest, t, segment, route, ends, l);
    store.manifest := PrunedManifest(generation, t, segment, route, ends, l);
    EmptyConcat(tail);
    RestartConsistent(store.files, store.manifest, t, store.wal);
    if stop == 3 { store.usable := false; return Err(Io); }

    FinishPrune(store, t, granted, files0);
    return Ok(());
  }

  /** The end of a prune: memory starts from the pruned state, and the old
      generations are reclaimed. */
  method FinishPrune(store: Store, t: StoreState, granted: bool, ghost files0: Files)
    requires store.segment > 0 && store.blockSize > 0 && store.hotTail == 0 && store.usable
    requires OnlyNew(files0, store.files, store.manifest.generation)
    requires Dead(store.wal)
    requires Holds(store.manifest, store.files, t)
    modifies store
    ensures store.manifest == old(store.manifest) && store.state == t && store.usable && store.Valid()
    ensures store.wal == old(store.wal)
    ensures Stands(store.Disk(), t)
    ensures Loadable(store.manifest, store.files) <==> Loadable(store.manifest, old(store.files))
    ensures granted ==> forall name :: name in store.files ==> Referenced(store.manifest, name)
    ensures NoOther(files0, store.files, store.manifest.generation)
    ensures !granted ==> OnlyNew(files0, store.files, store.manifest.generation)
  {
    hide *;
    store.state := t;
    store.base, store.records, store.tail := t, [], store.wal;
    HeldFilesPresent(store.manifest, store.files, t);
    var left := Reclaim(store.files, store.manifest, granted);
    SweptKeeps(store.manifest, store.files, left, granted);
    SweptIsOther(store.manifest, files0, store.files, left, granted, store.manifest.generation);
    HoldsFrames(store.manifest, store.files, left, t);
    LoadableFrames(store.manifest, store.files, left);
    store.files := left;
    RestartConsistent(store.files, store.manifest, t, store.wal);
    store.Repack();
    store.StandsNow();
  }

  lemma PrunedGeneration(generation: nat, t: StoreState, f: Artifact, route: RouteMeta, ends: seq<nat>, l: Lifecycle)
    ensures PrunedManifest(generation, t, f, route, ends, l).generation == generation
  {
  }
}
