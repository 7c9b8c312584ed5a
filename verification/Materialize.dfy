/** Rebuilding the committed state from its sealed streams. */
module Materialize {
  import opened Wrappers
  import opened Bytes
  import opened Format
  import opened Dag
  import opened Model
  import opened TransactionFormat
  import opened Transactions
  import opened Segment
  import opened Columns
  import opened BlockReader
  import opened ColumnReader
  import opened Sealing

  /** The columns do not carry the meaningless bytes of a wide record. */
  function Unpadded(w: WideRecord): WideRecord { w.(pad := 0) }

  /** What sealing keeps of a state: all but request and deletion metadata,
      which other files carry. */
  function SealedPart(s: StoreState): StoreState {
    s.(wides := Map(Unpadded, s.wides), requests := map[], deleted := {}, retired := map[])
  }

  /** The lost bytes never mattered: nodes decode the same. */
  lemma SealedPartMeansTheSame(s: StoreState)
    ensures ViewOf(SealedPart(s)) == ViewOf(s)
    ensures forall c :: c in s.checkpoints ==> CheckpointBytes(SealedPart(s), c) == CheckpointBytes(s, c)
  {
    var t := SealedPart(s);
    forall id: nat | id < |s.nodes|
      ensures DecodeNode(t, id) == DecodeNode(s, id)
    {
      var slot := s.nodes[id - (if id < s.base.nodeCount then 0 else s.base.nodeCount)];
      var index := slot.field0 - s.base.wideCount;
      assert 0 <= index < |s.wides| ==> t.wides[index] == Unpadded(s.wides[index]);
    }
    assert ViewOf(t).nodes == ViewOf(s).nodes;
  }

  lemma SealedPartKeepsInv(s: StoreState)
    requires Inv(s)
    ensures Inv(SealedPart(s))
  {
    hide WellFormed, VersionsOk, ThreadsIndexed, CheckpointsIndexed;
    var t := SealedPart(s);
    SealedPartMeansTheSame(s);
    assert VersionsOk(t) by { SamePartVersions(s, t); }
    assert ThreadsIndexed(t) && CheckpointsIndexed(t) by { SamePartNames(s, t); }
    forall i | 0 <= i < |t.checkpoints|
      ensures CheckpointOk(t, i)
    {
      assert CheckpointOk(s, i);
    }
  }

  lemma SamePartVersions(s: StoreState, t: StoreState)
    requires VersionsOk(s) && t.versions == s.versions && t.parents == s.parents && |t.nodes| == |s.nodes|
    ensures VersionsOk(t)
  {
  }

  lemma SamePartNames(s: StoreState, t: StoreState)
    requires ThreadsIndexed(s) && CheckpointsIndexed(s)
    requires t.threads == s.threads && t.threadOrdinals == s.threadOrdinals
    requires t.checkpoints == s.checkpoints && t.checkpointOrdinals == s.checkpointOrdinals
    ensures ThreadsIndexed(t) && CheckpointsIndexed(t)
  {
  }

  // Reading the streams

  /** Every segment has an entry for each stream. */
  predicate Tabled(files: seq<SegmentFile>) {
    forall j :: 0 <= j < |files| ==> |files[j].streams| >= STREAMS
  }

  /** One stream over the first `n` segments, each piece where the one before it
      ends. */
  function StreamOver(files: seq<SegmentFile>, n: nat, id: nat): Option<seq<byte>>
    requires n <= |files| && Tabled(files) && id < STREAMS
  {
    if n == 0 then Some([])
    else
      var before := StreamOver(files, n - 1, id);
      if before.None? then None
      else
        var piece := StreamContent(files[n - 1], id, |before.value|);
        if piece.Some? then Some(before.value + piece.value) else None
  }

  /** Every stream is whole and as long as stated. */
  ghost predicate AllOver(files: seq<SegmentFile>, sizes: seq<nat>)
    requires Tabled(files) && |sizes| == STREAMS
  {
    forall id :: 0 <= id < STREAMS ==>
      StreamOver(files, |files|, id).Some? && |StreamOver(files, |files|, id).value| == sizes[id]
  }

  /** Every stream of every segment, checked to be intact, contiguous and of the
      size the manifest states. */
  method MaterializeStreams(files: seq<SegmentFile>, sizes: seq<nat>) returns (r: Result<seq<seq<byte>>>)
    requires Tabled(files) && |sizes| == STREAMS
    ensures r.Ok? <==> AllOver(files, sizes)
    ensures r.Ok? ==>
      |r.value| == STREAMS && forall id :: 0 <= id < STREAMS ==> Some(r.value[id]) == StreamOver(files, |files|, id)
  {
    hide StreamContent;
    var out: seq<seq<byte>> := seq(STREAMS, _ => []);
    for j := 0 to |files|
      invariant |out| == STREAMS
      invariant forall id :: 0 <= id < STREAMS ==> StreamOver(files, j, id) == Some(out[id])
    {
      for id := 0 to STREAMS
        invariant |out| == STREAMS
        invariant forall k :: 0 <= k < STREAMS ==> StreamOver(files, if k < id then j + 1 else j, k) == Some(out[k])
      {
        StreamStops(files, j + 1, |files|, id);
        var part := ReadStream(files[j], id, |out[id]|);
        if part.Err? { return Err(Format); }
        out := out[id := out[id] + part.value];
      }
    }
    for id := 0 to STREAMS
      invariant forall k :: 0 <= k < id ==> |out[k]| == sizes[k]
    {
      if |out[id]| != sizes[id] { return Err(Format); }
    }
    return Ok(out);
  }

  lemma {:induction false} StreamStops(files: seq<SegmentFile>, n: nat, more: nat, id: nat)
    requires n <= more <= |files| && Tabled(files) && id < STREAMS
    ensures StreamOver(files, n, id).None? ==> StreamOver(files, more, id).None?
  {
    hide StreamContent;
    if n < more { StreamStops(files, n, more - 1, id); }
  }

  /** The streams that segments hold are the ones read off them. */
  lemma {:induction false} HeldIsOver(files: seq<SegmentFile>, starts: seq<seq<nat>>, streams: seq<seq<byte>>, n: nat,
                                      id: nat)
    requires SealedAs(files, starts, streams) && n <= |files| && id < STREAMS && Tabled(files)
    ensures starts[n][id] <= |streams[id]| && StreamOver(files, n, id) == Some(streams[id][..starts[n][id]])
  {
    hide StreamHeld, StreamContent;
    if n == 0 {
      assert streams[id][..0] == [];
    } else {
      HeldIsOver(files, starts, streams, n - 1, id);
      assert PieceHeld(files, starts, streams, n - 1, id);
      var piece := streams[id][starts[n - 1][id]..starts[n][id]];
      HeldIsRead(files[n - 1], id, starts[n - 1][id], piece);
      assert streams[id][..starts[n - 1][id]] + piece == streams[id][..starts[n][id]];
    }
  }

  // Reading the columns of a state

  function ColumnsOf(s: StoreState): CheckpointColumns {
    var cps := s.checkpoints;
    CheckpointColumns(
      Col32(ThreadColumn(s, cps)), Col32(Map(NumberOf, cps)), Col32(ParentColumn(s, cps)), Col32(Map(IdentityOf, cps)),
      Col32(Map(MessagesOf, cps)), Col32(Map(ResultOf, cps)), Col64(Map(LenOf, cps)), Col64(Map(HashOf, cps)))
  }

  /** What the columns hold for checkpoint `i`. */
  lemma ColumnsAt(s: StoreState, i: nat)
    requires i < |s.checkpoints|
    ensures var k, c := ColumnsOf(s), s.checkpoints[i];
      && U32At(k.thread, 4 * i) == ThreadOrdinal(s, c) && U32At(k.number, 4 * i) == c.number
      && U32At(k.parent, 4 * i) == ParentOrdinal(s, c) && U32At(k.identity, 4 * i) == c.identityVersion
      && U32At(k.messages, 4 * i) == MessagesOf(c) && U32At(k.result, 4 * i) == ResultOf(c)
      && U64At(k.len, 8 * i) == c.logicalLen && U64At(k.hash, 8 * i) == c.stateHash
  {
    hide Col32, Col64, U32At, U64At;
    var cps := s.checkpoints;
    Col32At(ThreadColumn(s, cps), i);
    Col32At(Map(NumberOf, cps), i);
    Col32At(ParentColumn(s, cps), i);
    Col32At(Map(IdentityOf, cps), i);
    Col32At(Map(MessagesOf, cps), i);
    Col32At(Map(ResultOf, cps), i);
    Col64At(Map(LenOf, cps), i);
    Col64At(Map(HashOf, cps), i);
  }

  /** A missing version is stored as a number no version can have. */
  lemma GivenBack(s: StoreState, i: nat)
    requires i < |s.checkpoints| && CheckpointOk(s, i) && |s.versions| <= U32_MAX
    ensures s.checkpoints[i].messagesVersion != Some(NONE_VERSION)
    ensures s.checkpoints[i].resultVersion != Some(NONE_VERSION)
  {
  }

  lemma RowReads(s: StoreState, i: nat)
    requires Inv(s) && i < |s.checkpoints| && Wide(ColumnsOf(s), |s.checkpoints|)
    ensures CheckpointRead(ColumnsOf(s), s.threads, Map(IdOf, s.checkpoints), i, s.checkpoints[i])
  {
    hide WellFormed, RequestsOk, Col32, Col64, U32At, U64At, ThreadOrdinal, ParentOrdinal, MessagesOf, ResultOf,
      Threads;
    assert CheckpointOk(s, i);
    ColumnsAt(s, i);
    ThreadOrdinalKnown(s, i);
    ParentOrdinalKnown(s, i);
    GivenBack(s, i);
  }

  /** The columns of a committed state are those of its checkpoints. */
  lemma RowsRead(s: StoreState)
    requires Inv(s)
    ensures CheckpointsRead(ColumnsOf(s), s.threads, Map(IdOf, s.checkpoints), |s.checkpoints|, s.checkpoints)
  {
    hide Inv, Col32, Col64, CheckpointRead;
    forall i | 0 <= i < |s.checkpoints|
      ensures CheckpointRead(ColumnsOf(s), s.threads, Map(IdOf, s.checkpoints), i, s.checkpoints[i])
    {
      RowReads(s, i);
    }
  }

  lemma PlacesKnown(s: StoreState)
    requires Inv(s)
    ensures LastPlaces(s.threads, s.threadOrdinals) && LastPlaces(NamesOf(s.checkpoints), s.checkpointOrdinals)
  {
    hide WellFormed, VersionsOk, CheckpointOk, RequestsOk, Threads;
    forall t | t in s.threadOrdinals
      ensures s.threadOrdinals[t] < |s.threads| && s.threads[s.threadOrdinals[t]] == t
    {
      var i :| 0 <= i < |s.threads| && s.threads[i] == t;
    }
  }

  lemma VersionsKnown(s: StoreState)
    requires VersionsOk(s) && |s.nodes| <= U64_MAX && NamesFit(s)
    ensures VersionsRead(StreamsOf(s)[VERSION_ROOT], StreamsOf(s)[VERSION_PARENT], s.versions, s.parents)
  {
    hide Col32, Col64, OffsetBytes, Joined, TableFits, ThreadColumn, ParentColumn, Map;
    StreamsAre(s);
    forall v | v in s.versions
      ensures v != Some(NONE_ROOT)
    {
      var i :| 0 <= i < |s.versions| && s.versions[i] == v;
    }
    forall v | v in s.parents
      ensures v != Some(NONE_PARENT)
    {
      var i :| 0 <= i < |s.parents| && s.parents[i] == v;
    }
  }

  // The whole state

  lemma {:induction false} ThreadsComeFrom(cps: seq<Checkpoint>)
    ensures forall t :: t in Threads(cps) ==> exists i :: 0 <= i < |cps| && cps[i].thread == t
  {
    if cps != [] {
      var init := cps[..|cps| - 1];
      ThreadsComeFrom(init);
      forall t | t in Threads(cps)
        ensures exists i :: 0 <= i < |cps| && cps[i].thread == t
      {
        if t in Threads(init) {
          var i :| 0 <= i < |init| && init[i].thread == t;
          assert cps[i].thread == t;
        } else {
          assert cps[|cps| - 1].thread == t;
        }
      }
    }
  }

  lemma NamesAreText(s: StoreState)
    requires Inv(s)
    ensures forall t :: t in s.threads ==> IsUtf8(t)
    ensures forall id :: id in Map(IdOf, s.checkpoints) ==> IsUtf8(id)
  {
    hide WellFormed, VersionsOk, CheckpointsIndexed, RequestsOk;
    ThreadsComeFrom(s.checkpoints);
    forall t | t in s.threads
      ensures IsUtf8(t)
    {
      var i :| 0 <= i < |s.checkpoints| && s.checkpoints[i].thread == t;
      assert CheckpointOk(s, i);
    }
    forall id | id in Map(IdOf, s.checkpoints)
      ensures IsUtf8(id)
    {
      var i :| 0 <= i < |s.checkpoints| && Map(IdOf, s.checkpoints)[i] == id;
      assert CheckpointOk(s, i);
    }
  }

  lemma NodesDecodable(s: StoreState)
    requires Inv(s)
    ensures KindsKnown(s.nodes)
  {
    hide VersionsOk, CheckpointOk, CheckpointsIndexed, ThreadsIndexed, RequestsOk;
    forall i | 0 <= i < |s.nodes|
      ensures KindCode(s.nodes[i]) != 3
    {
      assert NodeOk(ViewOf(s), i);
      assert ViewOf(s).nodes[i] == DecodeNode(s, i);
    }
  }

  /** The whole state seen as one transaction into an empty store. The checks of
      nodes and roots look at no count. */
  function AsOneTransaction(s: StoreState): Transaction {
    var none := Checkpoint(0, [], 0, [], None, 0, None, None, 0, 0);
    Transaction(0, 0, 0, 0, s.arena, 0, s.nodes, 0, s.wides, s.versions, s.parents,
                if s.checkpoints == [] then none else s.checkpoints[|s.checkpoints| - 1], None, NO_DIGEST)
  }

  lemma WholeStateValid(s: StoreState)
    requires Inv(s)
    ensures NewNodesValid(EMPTY_STATE, AsOneTransaction(s))
  {
    hide CheckpointOk, CheckpointsIndexed, ThreadsIndexed, RequestsOk;
    var tx := AsOneTransaction(s);
    forall i | 0 <= i < |tx.nodes|
      ensures SlotValid(EMPTY_STATE, tx, tx.nodes[i], EMPTY_STATE.Watermarks().nodeCount + i)
    {
      assert NodeOk(ViewOf(s), i);
      assert ViewOf(s).nodes[i] == DecodeNode(s, i);
    }
  }

  /** The streams are those of this state and the counts its own: every column is
      read as it was written, and the nodes pass the checks of a commit. */
  ghost predicate StateRead(streams: seq<seq<byte>>, versionCount: nat, threadCount: nat, checkpointCount: nat,
                            t: StoreState)
    requires |streams| == STREAMS
  {
    && t.base == EMPTY_GEOMETRY && t.requests == map[] && t.deleted == {} && t.retired == map[]
    && t.arena == streams[PAYLOAD]
    && NodesRead(streams[NODE_FIELD0], streams[NODE_FIELD1], streams[NODE_KIND], t.nodes)
    && WidesRead(streams[WIDE_KIND], streams[WIDE_A], streams[WIDE_B], streams[WIDE_C], t.wides)
    && VersionsRead(streams[VERSION_ROOT], streams[VERSION_PARENT], t.versions, t.parents)
    && TableRead(streams[THREAD_OFFSETS], streams[THREAD_BYTES], t.threads) && |t.threads| <= U32_MAX + 1
    && TableRead(streams[CP_ID_OFFSETS], streams[CP_ID_BYTES], Map(IdOf, t.checkpoints))
    && CheckpointsRead(ColumnsIn(streams), t.threads, Map(IdOf, t.checkpoints), checkpointCount, t.checkpoints)
    && LastPlaces(t.threads, t.threadOrdinals) && LastPlaces(NamesOf(t.checkpoints), t.checkpointOrdinals)
    && |t.versions| == versionCount && |t.threads| == threadCount
    && NewNodesValid(EMPTY_STATE, AsOneTransaction(t))
  }

  function ColumnsIn(streams: seq<seq<byte>>): CheckpointColumns
    requires |streams| == STREAMS
  {
    CheckpointColumns(
      streams[CP_THREAD], streams[CP_NO], streams[CP_PARENT_ORDINAL], streams[CP_IDENTITY_VERSION],
      streams[CP_MESSAGES_VERSION], streams[CP_RESULT_VERSION], streams[CP_LOGICAL_LEN], streams[CP_STATE_HASH])
  }

  lemma IdsRead(k: CheckpointColumns, threads: seq<Id>, ids: seq<Id>, count: nat, cps: seq<Checkpoint>)
    requires CheckpointsRead(k, threads, ids, count, cps)
    ensures ids == Map(IdOf, cps)
  {
    hide U32At, U64At;
    forall i | 0 <= i < count
      ensures ids[i] == Map(IdOf, cps)[i]
    {
      assert CheckpointRead(k, threads, ids, i, cps[i]);
    }
  }

  /** Streams have one reading. */
  lemma StateOnce(streams: seq<seq<byte>>, versionCount: nat, threadCount: nat, checkpointCount: nat, t: StoreState,
                  u: StoreState)
    requires |streams| == STREAMS
    requires StateRead(streams, versionCount, threadCount, checkpointCount, t)
    requires StateRead(streams, versionCount, threadCount, checkpointCount, u)
    ensures t == u
  {
    hide NodesRead, WidesRead, VersionsRead, TableRead, CheckpointsRead, LastPlaces, NewNodesValid, Map, NamesOf;
    NodesOnce(streams[NODE_FIELD0], streams[NODE_FIELD1], streams[NODE_KIND], t.nodes, u.nodes);
    WidesOnce(streams[WIDE_KIND], streams[WIDE_A], streams[WIDE_B], streams[WIDE_C], t.wides, u.wides);
    VersionsOnce(streams[VERSION_ROOT], streams[VERSION_PARENT], t.versions, t.parents, u.versions, u.parents);
    TableOnce(streams[THREAD_OFFSETS], streams[THREAD_BYTES], t.threads, u.threads);
    TableOnce(streams[CP_ID_OFFSETS], streams[CP_ID_BYTES], Map(IdOf, t.checkpoints), Map(IdOf, u.checkpoints));
    CheckpointsOnce(ColumnsIn(streams), t.threads, Map(IdOf, t.checkpoints), checkpointCount, t.checkpoints,
                    u.checkpoints);
    PlacesOnce(t.threads, t.threadOrdinals, u.threadOrdinals);
    PlacesOnce(NamesOf(t.checkpoints), t.checkpointOrdinals, u.checkpointOrdinals);
  }

  /** The state the columns describe, checked as the source checks it: there is
      one exactly when the streams are those of a state. */
  method StateFromStreams(streams: seq<seq<byte>>, versionCount: nat, threadCount: nat, checkpointCount: nat)
    returns (r: Result<StoreState>)
    requires |streams| == STREAMS
    ensures r.Ok? <==> exists t :: StateRead(streams, versionCount, threadCount, checkpointCount, t)
    ensures r.Ok? ==> StateRead(streams, versionCount, threadCount, checkpointCount, r.value)
  {
    hide NodesRead, WidesRead, VersionsRead, TableRead, CheckpointsRead, LastPlaces, NewNodesValid, Map, NamesOf;
    ghost var known := exists t :: StateRead(streams, versionCount, threadCount, checkpointCount, t);
    ghost var t := EMPTY_STATE;
    if known { t :| StateRead(streams, versionCount, threadCount, checkpointCount, t); }
    var nodes := ReadNodes(streams[NODE_FIELD0], streams[NODE_FIELD1], streams[NODE_KIND]);
    if nodes.Err? { return Err(Format); }
    var wides := ReadWides(streams[WIDE_KIND], streams[WIDE_A], streams[WIDE_B], streams[WIDE_C]);
    if wides.Err? { return Err(Format); }
    var versions := ReadVersions(streams[VERSION_ROOT], streams[VERSION_PARENT]);
    if versions.Err? { return Err(Format); }
    var threads := DecodeStringTable(streams[THREAD_OFFSETS], streams[THREAD_BYTES]);
    if threads.Err? { return Err(Format); }
    if known { TableOnce(streams[THREAD_OFFSETS], streams[THREAD_BYTES], threads.value, t.threads); }
    var threadOrdinals := IndexThreads(threads.value);
    if threadOrdinals.Err? { return Err(Format); }
    var ids := DecodeStringTable(streams[CP_ID_OFFSETS], streams[CP_ID_BYTES]);
    if ids.Err? { return Err(Format); }
    if known { TableOnce(streams[CP_ID_OFFSETS], streams[CP_ID_BYTES], ids.value, Map(IdOf, t.checkpoints)); }
    var cps := ReadCheckpoints(ColumnsIn(streams), threads.value, ids.value, checkpointCount);
    if cps.Err? { return Err(Format); }
    IdsRead(ColumnsIn(streams), threads.value, ids.value, checkpointCount, cps.value.0);
    if known {
      VersionsOnce(streams[VERSION_ROOT], streams[VERSION_PARENT], versions.value.0, versions.value.1, t.versions,
                   t.parents);
    }
    if |versions.value.0| != versionCount || |threads.value| != threadCount { return Err(Format); }
    var state := StoreState(EMPTY_GEOMETRY, streams[PAYLOAD], nodes.value, wides.value,
                            versions.value.0, versions.value.1, cps.value.0, threads.value, threadOrdinals.value,
                            cps.value.1, map[], {}, map[]);
    if known { SameReading(streams, versionCount, threadCount, checkpointCount, t, state); }
    var valid := ValidateNewNodes(EMPTY_STATE, AsOneTransaction(state));
    if valid.Err? { return Err(Format); }
    assert StateRead(streams, versionCount, threadCount, checkpointCount, state);
    return Ok(state);
  }

  /** A reading that agrees in all but the last check is the reading. */
  lemma SameReading(streams: seq<seq<byte>>, versionCount: nat, threadCount: nat, checkpointCount: nat, t: StoreState,
                    u: StoreState)
    requires |streams| == STREAMS && StateRead(streams, versionCount, threadCount, checkpointCount, t)
    requires u.base == EMPTY_GEOMETRY && u.requests == map[] && u.deleted == {} && u.retired == map[]
    requires u.arena == streams[PAYLOAD]
    requires NodesRead(streams[NODE_FIELD0], streams[NODE_FIELD1], streams[NODE_KIND], u.nodes)
    requires WidesRead(streams[WIDE_KIND], streams[WIDE_A], streams[WIDE_B], streams[WIDE_C], u.wides)
    requires u.versions == t.versions && u.parents == t.parents && u.threads == t.threads
    requires CheckpointsRead(ColumnsIn(streams), t.threads, Map(IdOf, t.checkpoints), checkpointCount, u.checkpoints)
    requires LastPlaces(u.threads, u.threadOrdinals) && LastPlaces(NamesOf(u.checkpoints), u.checkpointOrdinals)
    ensures u == t
  {
    hide NodesRead, WidesRead, VersionsRead, TableRead, CheckpointsRead, LastPlaces, NewNodesValid, Map, NamesOf;
    NodesOnce(streams[NODE_FIELD0], streams[NODE_FIELD1], streams[NODE_KIND], t.nodes, u.nodes);
    WidesOnce(streams[WIDE_KIND], streams[WIDE_A], streams[WIDE_B], streams[WIDE_C], t.wides, u.wides);
    CheckpointsOnce(ColumnsIn(streams), t.threads, Map(IdOf, t.checkpoints), checkpointCount, t.checkpoints,
                    u.checkpoints);
    PlacesOnce(t.threads, t.threadOrdinals, u.threadOrdinals);
    PlacesOnce(NamesOf(t.checkpoints), t.checkpointOrdinals, u.checkpointOrdinals);
  }

  /** The streams of a committed state are read back as it, less what they do not
      carry. */
  lemma StreamsReadBack(s: StoreState)
    requires Inv(s) && NamesFit(s) && WidesKnown(s.wides)
    ensures StateRead(StreamsOf(s), |s.versions|, |s.threads|, |s.checkpoints|, SealedPart(s))
  {
    hide Inv, NamesFit, WidesKnown, Map, Col32, Col64, OffsetBytes, Joined, ThreadColumn, ParentColumn,
      NewNodesValid, ThreadsIndexed, VersionsOk, StreamsOf, CheckpointsRead, LastPlaces, NodesRead, WidesRead,
      VersionsRead, TableRead, ColumnsOf;
    Parts(s);
    StreamsAre(s);
    DataReads(s);
    NamesRead(s);
    VersionsKnown(s);
    RowsRead(s);
    PlacesKnown(s);
    SealedPartKeepsInv(s);
    Parts(SealedPart(s));
    WholeStateValid(SealedPart(s));
  }

  lemma DataReads(s: StoreState)
    requires Inv(s) && NamesFit(s) && WidesKnown(s.wides)
    ensures var r := StreamsOf(s);
      && NodesRead(r[NODE_FIELD0], r[NODE_FIELD1], r[NODE_KIND], s.nodes)
      && WidesRead(r[WIDE_KIND], r[WIDE_A], r[WIDE_B], r[WIDE_C], Map(Unpadded, s.wides))
  {
    hide Inv, NamesFit, Col32, Col64, KindsKnown;
    StreamsAre(s);
    NodesDecodable(s);
    var wides := Map(Unpadded, s.wides);
    assert Map(FieldA, wides) == Map(FieldA, s.wides) && Map(FieldB, wides) == Map(FieldB, s.wides);
    assert Map(FieldC, wides) == Map(FieldC, s.wides) && Map(WideCode, wides) == Map(WideCode, s.wides);
  }

  lemma NamesRead(s: StoreState)
    requires Inv(s) && NamesFit(s)
    ensures var r := StreamsOf(s);
      && TableRead(r[THREAD_OFFSETS], r[THREAD_BYTES], s.threads)
      && TableRead(r[CP_ID_OFFSETS], r[CP_ID_BYTES], Map(IdOf, s.checkpoints))
      && |s.threads| <= U32_MAX + 1
  {
    hide Inv, Col32, Map, Ends;
    StreamsAre(s);
    NamesAreText(s);
    ThreadsCounted(s);
    EmptyTable();
  }

  lemma ThreadsCounted(s: StoreState)
    requires Inv(s)
    ensures |s.threads| <= |s.checkpoints| <= U32_MAX
  {
  }

  lemma Parts(s: StoreState)
    requires Inv(s)
    ensures s.base == EMPTY_GEOMETRY && VersionsOk(s) && ThreadsIndexed(s)
    ensures |s.nodes| <= U64_MAX && |s.checkpoints| <= U32_MAX && |s.versions| <= U32_MAX
  {
  }

  lemma StreamsAre(s: StoreState)
    requires NamesFit(s)
    ensures TableFits(s.threads) && TableFits(Map(IdOf, s.checkpoints))
    ensures var r := StreamsOf(s);
      && r[PAYLOAD] == s.arena
      && r[NODE_FIELD0] == Col64(Map(Field0, s.nodes)) && r[NODE_FIELD1] == Col32(Map(Field1, s.nodes))
      && r[NODE_KIND] == Map(KindCode, s.nodes)
      && r[WIDE_KIND] == Map(WideCode, s.wides) && r[WIDE_A] == Col64(Map(FieldA, s.wides))
      && r[WIDE_B] == Col64(Map(FieldB, s.wides)) && r[WIDE_C] == Col64(Map(FieldC, s.wides))
      && r[VERSION_ROOT] == Col64(Map(RawRoot, s.versions)) && r[VERSION_PARENT] == Col32(Map(RawParent, s.parents))
      && r[THREAD_OFFSETS] == OffsetBytes(s.threads) && r[THREAD_BYTES] == Joined(s.threads)
      && r[CP_ID_OFFSETS] == OffsetBytes(Map(IdOf, s.checkpoints)) && r[CP_ID_BYTES] == Joined(Map(IdOf, s.checkpoints))
      && ColumnsOf(s) == CheckpointColumns(
           r[CP_THREAD], r[CP_NO], r[CP_PARENT_ORDINAL], r[CP_IDENTITY_VERSION],
           r[CP_MESSAGES_VERSION], r[CP_RESULT_VERSION], r[CP_LOGICAL_LEN], r[CP_STATE_HASH])
  {
    hide Map, Col32, Col64, OffsetBytes, Joined, TableFits, ThreadColumn, ParentColumn;
  }

  // Seal, then materialise

  /** The streams that segments hold are the ones read off them. */
  lemma AllHeld(files: seq<SegmentFile>, starts: seq<seq<nat>>, streams: seq<seq<byte>>)
    requires SealedAs(files, starts, streams)
    ensures |streams| == STREAMS && Tabled(files)
    ensures forall id :: 0 <= id < STREAMS ==> StreamOver(files, |files|, id) == Some(streams[id])
  {
    hide StreamHeld, StreamContent, StreamOver;
    forall j | 0 <= j < |files|
      ensures |files[j].streams| >= STREAMS
    {
      assert PieceHeld(files, starts, streams, j, STREAMS - 1);
      var from, to := starts[j][STREAMS - 1], starts[j + 1][STREAMS - 1];
      HeldIsRead(files[j], STREAMS - 1, from, streams[STREAMS - 1][from..to]);
    }
    forall id | 0 <= id < STREAMS
      ensures StreamOver(files, |files|, id) == Some(streams[id])
    {
      HeldIsOver(files, starts, streams, |files|, id);
      assert streams[id][..|streams[id]|] == streams[id];
    }
  }

  /** Segments, sizes and counts are those of this state. */
  ghost predicate SealedStateRead(files: seq<SegmentFile>, sizes: seq<nat>, versionCount: nat, threadCount: nat,
                                  checkpointCount: nat, t: StoreState)
    requires Tabled(files) && |sizes| == STREAMS
  {
    && AllOver(files, sizes)
    && StateRead(seq(STREAMS, id requires 0 <= id < STREAMS => StreamOver(files, |files|, id).value), versionCount,
                 threadCount, checkpointCount, t)
  }

  /** What the segments hold, or nothing when a block is damaged, a stream is torn
      or the columns are those of no state. */
  method MaterializeSealedState(files: seq<SegmentFile>, sizes: seq<nat>, versionCount: nat, threadCount: nat,
                                checkpointCount: nat)
    returns (r: Result<StoreState>)
    requires Tabled(files) && |sizes| == STREAMS
    ensures r.Ok? <==> exists t :: SealedStateRead(files, sizes, versionCount, threadCount, checkpointCount, t)
    ensures r.Ok? ==> SealedStateRead(files, sizes, versionCount, threadCount, checkpointCount, r.value)
  {
    hide StreamOver, StateRead;
    var streams := MaterializeStreams(files, sizes);
    if streams.Err? { return Err(Format); }
    assert streams.value == seq(STREAMS, id requires 0 <= id < STREAMS => StreamOver(files, |files|, id).value);
    r := StateFromStreams(streams.value, versionCount, threadCount, checkpointCount);
    assert r.Ok? ==> SealedStateRead(files, sizes, versionCount, threadCount, checkpointCount, r.value);
  }

  /** Whatever segments a store is sealed as, materialising gives the state. */
  lemma SealedIsRead(files: seq<SegmentFile>, sizes: seq<nat>, starts: seq<seq<nat>>, s: StoreState)
    requires Inv(s) && NamesFit(s) && WidesKnown(s.wides)
    requires SealedAs(files, starts, StreamsOf(s)) && sizes == Lengths(StreamsOf(s))
    ensures Tabled(files) && |sizes| == STREAMS
    ensures SealedStateRead(files, sizes, |s.versions|, |s.threads|, |s.checkpoints|, SealedPart(s))
    ensures forall t ::
      SealedStateRead(files, sizes, |s.versions|, |s.threads|, |s.checkpoints|, t) <==> t == SealedPart(s)
  {
    hide Inv, NamesFit, WidesKnown, StreamsOf, SealedAs, StreamOver, StateRead, SealedPart;
    AllHeld(files, starts, StreamsOf(s));
    StreamsReadBack(s);
    var streams := seq(STREAMS, id requires 0 <= id < STREAMS => StreamOver(files, |files|, id).value);
    assert streams == StreamsOf(s);
    forall t | StateRead(StreamsOf(s), |s.versions|, |s.threads|, |s.checkpoints|, t)
      ensures t == SealedPart(s)
    {
      StateOnce(StreamsOf(s), |s.versions|, |s.threads|, |s.checkpoints|, t, SealedPart(s));
    }
  }

  function Flat(groups: seq<seq<Transaction>>): seq<Transaction> {
    if groups == [] then [] else Flat(groups[..|groups| - 1]) + groups[|groups| - 1]
  }

  /** Every group commits after the ones before it. */
  ghost predicate History(groups: seq<seq<Transaction>>) {
    Replay(EMPTY_STATE, Flat(groups)).Ok? && (forall t :: t in Flat(groups) ==> Sound(t))
  }

  lemma HistoryPrefix(groups: seq<seq<Transaction>>, k: nat)
    requires History(groups) && k <= |groups|
    ensures History(groups[..k])
    decreases |groups|
  {
    hide Replay, Sound;
    if k == |groups| {
      assert groups[..k] == groups;
    } else {
      var init := groups[..|groups| - 1];
      assert Flat(groups)[..|Flat(init)|] == Flat(init);
      assert forall t :: t in Flat(init) ==> t in Flat(groups);
      ReplayPrefix(EMPTY_STATE, Flat(groups), |Flat(init)|);
      HistoryPrefix(init, k);
      assert init[..k] == groups[..k];
    }
  }

  lemma HistoryStep(groups: seq<seq<Transaction>>, k: nat)
    requires History(groups) && k < |groups|
    ensures History(groups[..k]) && History(groups[..k + 1])
    ensures Inv(Replay(EMPTY_STATE, Flat(groups[..k])).value)
    ensures Replay(Replay(EMPTY_STATE, Flat(groups[..k])).value, groups[k])
         == Replay(EMPTY_STATE, Flat(groups[..k + 1]))
    ensures forall t :: t in groups[k] ==> Sound(t)
  {
    hide Replay, Sound, Inv;
    HistoryPrefix(groups, k);
    HistoryPrefix(groups, k + 1);
    var upto := groups[..k + 1];
    assert upto[..k] == groups[..k] && upto[k] == groups[k];
    EmptyStateInv();
    ReplayKeepsInv(EMPTY_STATE, Flat(groups[..k]));
    ReplayConcat(EMPTY_STATE, Flat(groups[..k]), groups[k]);
    assert forall t :: t in groups[k] ==> t in Flat(upto);
  }

  lemma WidesKnownAfter(s: StoreState, txs: seq<Transaction>)
    requires WidesKnown(s.wides) && Replay(s, txs).Ok? && AllWidesKnown(txs)
    ensures WidesKnown(Replay(s, txs).value.wides)
    decreases |txs|
  {
    hide Prepare;
    if txs != [] {
      assert WidesKnown(txs[0].wides);
      WidesKnownAfter(Apply(s, txs[0]), txs[1..]);
    }
  }

  /** Group `k` can be sealed over the groups before it. */
  ghost predicate GroupSealable(groups: seq<seq<Transaction>>, blockSize: nat, k: nat)
    requires History(groups) && k < |groups|
  {
    HistoryStep(groups, k);
    Sealable(Replay(EMPTY_STATE, Flat(groups[..k])).value, groups[k], blockSize)
  }

  /** Sealing a history in any groups and materialising it gives back the same
      payload, nodes, versions, threads and checkpoints, and so the same bytes
      for every checkpoint, exactly when every group can be sealed. */
  method SealAndMaterialize(groups: seq<seq<Transaction>>, blockSize: u32) returns (r: Result<StoreState>)
    requires History(groups) && blockSize > 0
    ensures r.Ok? <==> forall k :: 0 <= k < |groups| ==> GroupSealable(groups, blockSize, k)
    ensures r.Ok? ==>
      var s := Replay(EMPTY_STATE, Flat(groups)).value;
      && r.value == SealedPart(s)
      && forall c :: c in s.checkpoints ==> CheckpointBytes(r.value, c) == CheckpointBytes(s, c)
  {
    hide Inv, NamesFit, WidesKnown, StreamsOf, SealedAs, History, SealedPart, CheckpointBytes, AddedByAll, Sealable,
      Sound, Replay, Later;
    assert History(groups) ==> Replay(EMPTY_STATE, Flat(groups)).Ok? by { Unpacked(groups); }
    var files: seq<SegmentFile> := [];
    var starts := seq(STREAMS, _ => 0);
    var threadCount := 0;
    ghost var table := [starts];
    NothingSealed();
    EmptyStateInv();
    EmptyHistory(groups);
    for k := 0 to |groups|
      invariant History(groups[..k])
      invariant Replay(EMPTY_STATE, Flat(groups[..k])).Ok?
      invariant forall i :: 0 <= i < k ==> GroupSealable(groups, blockSize, i)
      invariant var s := Replay(EMPTY_STATE, Flat(groups[..k])).value;
        && Inv(s) && NamesFit(s) && WidesKnown(s.wides)
        && threadCount == |s.threads|
        && |table| == k + 1 && |files| == k && starts == table[k] == Lengths(StreamsOf(s))
        && SealedAs(files, table, StreamsOf(s))
    {
      ghost var s := Replay(EMPTY_STATE, Flat(groups[..k])).value;
      HistoryStep(groups, k);
      Unpacked(groups[..k + 1]);
      var state := Latest(groups);
      LaterThan(groups, k + 1);
      ghost var parts;
      var sealed;
      sealed, parts := SealGeneration(groups[k], state, starts, threadCount, blockSize, s);
      assert sealed.Ok? <==> GroupSealable(groups, blockSize, k);
      if sealed.Err? { return Err(Format); }
      ghost var after := Replay(EMPTY_STATE, Flat(groups[..k + 1])).value;
      WidesKnownAfter(s, groups[k]);
      SealedAsGrows(files, table, StreamsOf(s), sealed.value.0, parts, StreamsOf(after));
      EmptyStateInv();
      ReplayKeepsInv(s, groups[k]);
      files, threadCount := files + [sealed.value.0], sealed.value.1;
      starts := StreamEnds(sealed.value.0, starts, parts, StreamsOf(s), StreamsOf(after));
      table := table + [starts];
    }
    assert groups[..|groups|] == groups;
    ghost var s := Replay(EMPTY_STATE, Flat(groups)).value;
    var counts := Latest(groups);
    SealedIsRead(files, starts, table, s);
    r := MaterializeSealedState(files, starts, |counts.versions|, threadCount, |counts.checkpoints|);
    SealedPartMeansTheSame(s);
  }

  lemma Unpacked(groups: seq<seq<Transaction>>)
    requires History(groups)
    ensures Replay(EMPTY_STATE, Flat(groups)).Ok?
  {
  }

  lemma EmptyHistory(groups: seq<seq<Transaction>>)
    requires History(groups)
    ensures History(groups[..0]) && Replay(EMPTY_STATE, Flat(groups[..0])) == Ok(EMPTY_STATE)
    ensures WidesKnown(EMPTY_STATE.wides)
    ensures Lengths(StreamsOf(EMPTY_STATE)) == seq(STREAMS, _ => 0)
  {
  }

  /** The committed state of a history. */
  function Latest(groups: seq<seq<Transaction>>): StoreState
    requires Replay(EMPTY_STATE, Flat(groups)).Ok?
  {
    Replay(EMPTY_STATE, Flat(groups)).value
  }

  lemma {:induction false} LaterThan(groups: seq<seq<Transaction>>, k: nat)
    requires History(groups) && k <= |groups|
    ensures History(groups[..k]) && Later(Latest(groups[..k]), Latest(groups))
    ensures NamesFit(Latest(groups)) ==> NamesFit(Latest(groups[..k]))
    decreases |groups| - k
  {
    hide Replay, Sound, Inv, Later, NamesFit;
    HistoryPrefix(groups, k);
    if k == |groups| {
      assert groups[..k] == groups;
      Reflexive(Latest(groups));
    } else {
      HistoryStep(groups, k);
      ReplayIsLater(Latest(groups[..k]), groups[k]);
      LaterThan(groups, k + 1);
      if NamesFit(Latest(groups)) { NamesFitEarlier(Latest(groups[..k]), groups[k]); }
      LaterChains(Latest(groups[..k]), Latest(groups[..k + 1]), Latest(groups));
    }
  }

  lemma Reflexive(s: StoreState)
    ensures Later(s, s)
  {
  }

  /** The stream ends a finished segment records. */
  method StreamEnds(f: SegmentFile, starts: seq<nat>, ghost parts: seq<seq<byte>>, ghost before: seq<seq<byte>>,
                    ghost after: seq<seq<byte>>) returns (ends: seq<nat>)
    requires |before| == |after| == STREAMS && starts == Lengths(before)
    requires SegmentHolds(f, starts, parts) && Continued(before, parts, after)
    ensures ends == Lengths(after)
  {
    ends := [];
    for id := 0 to STREAMS
      invariant |ends| == id && forall k :: 0 <= k < id ==> ends[k] == |after[k]|
    {
      assert StreamHeld(f, id, starts[id], parts[id]);
      ends := ends + [f.streams[id].globalEnd];
    }
  }
}
