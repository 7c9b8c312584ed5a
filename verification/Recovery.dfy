/** Opening a store after a stop at any point: the log is matched with the
    manifest it belongs to, and an interrupted recycle is completed. */
module Recovery {
  import opened Wrappers
  import opened Bytes
  import opened Format
  import opened Dag
  import opened Model
  import opened Ranges
  import opened TransactionFormat
  import opened Transactions
  import opened HotLog
  import opened HotWal
  import opened Writer
  import opened Segment
  import opened Columns
  import opened BlockReader
  import RouteFile
  import opened Sealing
  import opened Compaction
  import opened Materialize
  import opened Pruning
  import opened Deletion
  import opened Manifests

  // Entries of a chained log

  lemma {:induction false} EntryAt(g: Geometry, records: seq<seq<byte>>, offset: nat, i: nat)
    requires Chain(g, records) && i < |records|
    ensures Entries(g, records, offset)[i].tx.checkpointCount == g.checkpointCount + i + 1
    ensures Entries(g, records, offset)[i].end == offset + |Concat(records[..i + 1])|
    decreases |records|
  {
    hide ParseTransaction, Sound;
    ParsedIsSound(records[0], Some(g));
    var tx := ParseTransaction(records[0], Some(g)).value;
    assert records[..i + 1][0] == records[0] && records[..i + 1][1..] == records[1..][..i];
    if i > 0 {
      EntryAt(tx.After(), records[1..], offset + |records[0]|, i - 1);
    } else {
      assert Concat(records[..1]) == records[0] + Concat([]);
    }
  }

  lemma {:induction false} EndCount(g: Geometry, records: seq<seq<byte>>)
    requires Chain(g, records)
    ensures EndOf(g, records).checkpointCount == g.checkpointCount + |records|
    decreases |records|
  {
    hide ParseTransaction, Sound;
    if records != [] {
      ParsedIsSound(records[0], Some(g));
      EndCount(ParseTransaction(records[0], Some(g)).value.After(), records[1..]);
    }
  }

  lemma {:induction false} ConcatGrows(records: seq<seq<byte>>, i: nat, j: nat)
    requires i <= j <= |records|
    ensures |Concat(records[..i])| <= |Concat(records[..j])| <= |Concat(records)|
  {
    if i > 0 {
      assert records[..i][1..] == records[1..][..i - 1] && records[..j][1..] == records[1..][..j - 1];
      ConcatGrows(records[1..], i - 1, j - 1);
    } else if j > 0 {
      assert records[..j][1..] == records[1..][..j - 1];
      ConcatGrows(records[1..], 0, j - 1);
    }
  }

  /** Bytes after the log that no watermarks make a transaction of, however many
      zeros the file is lengthened by. */
  ghost predicate Dead(tail: seq<byte>) {
    forall g, n: nat :: Stops(tail + Blank(n), g)
  }

  lemma DeadStops(tail: seq<byte>, g: Geometry)
    requires Dead(tail)
    ensures Stops(tail, g)
  {
    hide Stops;
    assert tail + Blank(0) == tail;
    assert Stops(tail + Blank(0), g);
  }

  lemma DeadGrows(tail: seq<byte>, more: nat)
    requires Dead(tail)
    ensures Dead(tail + Blank(more))
  {
    hide Stops;
    forall g, n: nat
      ensures Stops(tail + Blank(more) + Blank(n), g)
    {
      assert tail + Blank(more) + Blank(n) == tail + Blank(more + n);
    }
  }

  lemma BlankIsDead(n: nat)
    ensures Dead(Blank(n))
  {
    hide Stops;
    forall g, more: nat
      ensures Stops(Blank(n) + Blank(more), g)
    {
      ZerosStop(n + more, g);
      assert Blank(n) + Blank(more) == Blank(n + more);
    }
  }

  // Recycling

  lemma ReservesCovers(capacity: nat, required: nat, segment: nat)
    requires Reserves(capacity, required, segment)
    ensures capacity >= required && capacity > 0
  {
  }

  /** The suffix of the committed log at the front of fresh zeroed reserve. */
  method RecycleHotFile(wal: seq<byte>, from: nat, logicalTail: nat, segment: nat) returns (r: Result<seq<byte>>)
    requires segment > 0 && logicalTail <= |wal|
    ensures r.Ok? <==> from <= logicalTail
    ensures r.Ok? ==> |r.value| >= logicalTail - from && r.value[..logicalTail - from] == wal[from..logicalTail]
                      && Dead(r.value[logicalTail - from..])
    ensures r.Ok? ==> Reserves(|r.value|, logicalTail - from, segment)
  {
    hide Dead, Reserves;
    if from > logicalTail { return Err(Format); }
    var suffix := logicalTail - from;
    var capacity := RoundCapacity(suffix, segment);
    ReservesCovers(capacity, suffix, segment);
    var zeros := Blank(capacity - suffix);
    BlankIsDead(capacity - suffix);
    var recycled := wal[from..logicalTail] + zeros;
    assert recycled[suffix..] == zeros;
    return Ok(recycled);
  }

  /** The end of the last transaction the manifest already represents. */
  method OverlapEnd(entries: seq<Entry>, checkpointCount: nat, ghost g: Geometry, ghost sealed: seq<seq<byte>>,
                    ghost records: seq<seq<byte>>) returns (end: nat)
    requires Chain(g, sealed + records) && entries == Entries(g, sealed + records, 0)
    requires checkpointCount == g.checkpointCount + |sealed|
    ensures end == |Concat(sealed)|
  {
    hide ParseTransaction, Concat, Chain, Entries;
    ghost var all := sealed + records;
    assert all[..|sealed|] == sealed;
    end := 0;
    assert Concat(all[..0]) == [] by { ConcatNone(all); }
    for i := 0 to |entries|
      invariant end == |Concat(all[..if i < |sealed| then i else |sealed|])|
    {
      EntryAt(g, all, 0, i);
      if entries[i].tx.checkpointCount <= checkpointCount {
        ConcatGrows(all, i, i + 1);
        if entries[i].end > end { end := entries[i].end; }
      }
    }
  }

  lemma ConcatNone(all: seq<seq<byte>>)
    ensures Concat(all[..0]) == []
  {
  }

  // The two shapes a log can have when a store is opened

  /** It continues the manifest. */
  ghost predicate Current(wal: seq<byte>, g: Geometry, records: seq<seq<byte>>, tail: seq<byte>) {
    wal == Concat(records) + tail && Chain(g, records) && Dead(tail)
  }

  /** It still begins with what the manifest's last segment sealed. */
  ghost predicate Interrupted(wal: seq<byte>, previous: Option<Geometry>, g: Geometry, sealed: seq<seq<byte>>,
                              records: seq<seq<byte>>, tail: seq<byte>) {
    && previous.Some? && sealed != [] && Chain(previous.value, sealed + records)
    && wal == Concat(sealed + records) + tail && Dead(tail)
    && Chain(previous.value, sealed) && EndOf(previous.value, sealed) == g
  }

  function StartsWithMagic(wal: seq<byte>): bool {
    |wal| >= 4 && wal[..4] == TX_MAGIC
  }

  lemma ScanWhole(g: Geometry, records: seq<seq<byte>>, tail: seq<byte>)
    requires Chain(g, records) && Dead(tail)
    ensures Scan(Concat(records) + tail, 0, g) == Entries(g, records, 0)
    ensures records != [] ==> LogicalTail(Entries(g, records, 0)) == |Concat(records)|
    ensures records == [] ==> Entries(g, records, 0) == [] && Concat(records) == []
    ensures TransactionsOf(Entries(g, records, 0)) == Parsed(g, records)
  {
    hide ParseTransaction, Scan, ScanOne, Stops;
    DeadStops(tail, EndOf(g, records));
    ScanReadsChain([], records, tail, g);
    assert [] + Concat(records) + tail == Concat(records) + tail;
    if records != [] { EntriesEnd(g, records, 0); }
    EntriesAreParsed(g, records, 0);
  }

  lemma DeadScansNothing(tail: seq<byte>, g: Geometry)
    requires Dead(tail)
    ensures Scan(tail, 0, g) == []
  {
    hide ParseTransaction, ScanOne;
    DeadStops(tail, g);
  }

  /** What the interrupted log looks like at both watermarks. */
  lemma InterruptedScans(wal: seq<byte>, previous: Option<Geometry>, g: Geometry, sealed: seq<seq<byte>>,
                         records: seq<seq<byte>>, tail: seq<byte>)
    requires Interrupted(wal, previous, g, sealed, records, tail)
    ensures Scan(wal, 0, g) == [] && StartsWithMagic(wal)
    ensures Scan(wal, 0, previous.value) == Entries(previous.value, sealed + records, 0) != []
    ensures LogicalTail(Entries(previous.value, sealed + records, 0)) == |Concat(sealed + records)|
    ensures g.checkpointCount == previous.value.checkpointCount + |sealed|
    ensures Chain(g, records) && Concat(sealed + records) == Concat(sealed) + Concat(records)
    ensures Concat(sealed) != []
  {
    hide ParseTransaction, Scan, ScanOne, Sound, StartsWithMagic, Concat, Dead;
    var all := sealed + records;
    EndCount(previous.value, sealed);
    ChainSplits(previous.value, sealed, records);
    ScanWhole(previous.value, all, tail);
    OtherGeometryStops(previous.value, g, all, tail);
    LogStartsWithMagic(previous.value, all, tail);
    LogStartsWithMagic(previous.value, sealed, []);
  }

  lemma LogStartsWithMagic(g: Geometry, records: seq<seq<byte>>, tail: seq<byte>)
    requires Chain(g, records) && records != []
    ensures StartsWithMagic(Concat(records) + tail) && Concat(records) != []
  {
    hide ParseTransaction, Sound;
    ParsedIsSound(records[0], Some(g));
    var rest := Concat(records[1..]) + tail;
    assert Concat(records) + tail == records[0] + rest;
    assert (records[0] + rest)[..4] == records[0][..4];
  }

  lemma EmptyTail()
    ensures LogicalTail([]) == 0 && TransactionsOf([]) == []
  {
  }

  lemma NoRecords(records: seq<seq<byte>>, tail: seq<byte>)
    ensures records == [] ==> Concat(records) == [] && Concat(records) + tail == tail
  {
  }

  /** The recycled log continues the manifest. */
  lemma RecycledIsCurrent(wal: seq<byte>, sealed: seq<seq<byte>>, records: seq<seq<byte>>, tail: seq<byte>,
                          recycled: seq<byte>, g: Geometry)
    requires Concat(sealed + records) == Concat(sealed) + Concat(records) && wal == Concat(sealed + records) + tail
    requires Chain(g, records) && |recycled| >= |Concat(records)|
    requires recycled[..|Concat(records)|] == wal[|Concat(sealed)|..|Concat(sealed + records)|]
    requires Dead(recycled[|Concat(records)|..])
    ensures Current(recycled, g, records, recycled[|Concat(records)|..])
  {
    hide Concat, Dead, Chain;
    assert wal[|Concat(sealed)|..|Concat(sealed + records)|] == Concat(records);
    assert recycled == recycled[..|Concat(records)|] + recycled[|Concat(records)|..];
  }

  /** The recovery of the hot log as `open` does it. Either shape yields exactly
      the transactions the manifest does not hold, and a log that continues it. */
  method RecoverWal(wal: seq<byte>, g: Geometry, previous: Option<Geometry>, segment: nat,
                    ghost sealed: seq<seq<byte>>, ghost records: seq<seq<byte>>, ghost tail: seq<byte>)
    returns (r: Result<(seq<Transaction>, seq<byte>, nat)>, ghost rest: seq<byte>)
    requires segment > 0
    requires Current(wal, g, records, tail) || Interrupted(wal, previous, g, sealed, records, tail)
    ensures Chain(g, records)
    ensures r.Ok? && r.value.0 == Parsed(g, records) && r.value.2 == |Concat(records)|
    ensures Current(r.value.1, g, records, rest)
  {
    hide Chain, Concat, Entries, Scan, Parsed, EndOf, Dead, LogicalTail, TransactionsOf, ParseTransaction,
      StartsWithMagic;
    rest := tail;
    var entries, logicalTail := ParseHotPrefix(wal, g);
    ghost var interrupted := Interrupted(wal, previous, g, sealed, records, tail);
    if interrupted {
      InterruptedScans(wal, previous, g, sealed, records, tail);
    } else {
      ScanWhole(g, records, tail);
      NoRecords(records, tail);
    }
    EmptyTail();
    if entries == [] && StartsWithMagic(wal) {
      if previous.Some? {
        var before, beforeTail := ParseHotPrefix(wal, previous.value);
        if !interrupted { DeadScansNothing(wal, previous.value); }
        if before != [] {
          var overlap := OverlapEnd(before, g.checkpointCount, previous.value, sealed, records);
          if overlap > 0 {
            var recycled := RecycleHotFile(wal, overlap, beforeTail, segment);
            if recycled.Err? { return Err(Format), rest; }
            var suffix := beforeTail - overlap;
            rest := recycled.value[suffix..];
            RecycledIsCurrent(wal, sealed, records, tail, recycled.value, g);
            var again, againTail := ParseHotPrefix(recycled.value, g);
            ScanWhole(g, records, rest);
            if againTail != suffix { return Err(Format), rest; }
            return Ok((TransactionsOf(again), recycled.value, againTail)), rest;
          }
        }
      }
    }
    return Ok((TransactionsOf(entries), wal, logicalTail)), rest;
  }

  // States that differ in nothing that means anything

  /** Equal but for the meaningless bytes of wide records. */
  ghost predicate Alike(s: StoreState, t: StoreState) {
    Reopened(s) == Reopened(t)
  }

  lemma AlikeWides(s: StoreState, t: StoreState, i: nat)
    requires Alike(s, t) && i < |s.wides|
    ensures |t.wides| == |s.wides| && Unpadded(s.wides[i]) == Unpadded(t.wides[i])
  {
    assert Reopened(s).wides[i] == Unpadded(s.wides[i]) && Reopened(t).wides[i] == Unpadded(t.wides[i]);
  }

  lemma ReopenedAlike(s: StoreState)
    ensures Alike(s, Reopened(s))
  {
    assert Map(Unpadded, Map(Unpadded, s.wides)) == Map(Unpadded, s.wides);
  }

  lemma AlikePrepare(s: StoreState, t: StoreState, tx: Transaction)
    requires Alike(s, t)
    ensures Prepare(s, tx) == Prepare(t, tx)
  {
    hide Map;
    assert |Reopened(s).wides| == |Reopened(t).wides|;
    forall i | 0 <= i < |tx.nodes|
      ensures SlotValid(s, tx, tx.nodes[i], s.Watermarks().nodeCount + i)
         <==> SlotValid(t, tx, tx.nodes[i], t.Watermarks().nodeCount + i)
    {
      AlikeSlot(s, t, tx, tx.nodes[i], s.Watermarks().nodeCount + i);
    }
  }

  lemma AlikeSlot(s: StoreState, t: StoreState, tx: Transaction, slot: Slot, id: nat)
    requires Alike(s, t)
    ensures SlotValid(s, tx, slot, id) <==> SlotValid(t, tx, slot, id)
  {
    hide Map;
    assert s == t.(wides := s.wides) && |s.wides| == |t.wides| by { AlikeFields(s, t); }
    var index := slot.field0 - s.base.wideCount;
    if 0 <= index < |s.wides| { AlikeWides(s, t, index); }
  }

  lemma AlikeFields(s: StoreState, t: StoreState)
    requires Alike(s, t)
    ensures s == t.(wides := s.wides) && |s.wides| == |t.wides|
  {
    assert Reopened(s).(wides := s.wides) == s && Reopened(t).(wides := s.wides) == t.(wides := s.wides);
    assert |Reopened(s).wides| == |s.wides| && |Reopened(t).wides| == |t.wides|;
  }

  lemma AlikeApply(s: StoreState, t: StoreState, tx: Transaction)
    requires Alike(s, t)
    ensures Alike(Apply(s, tx), Apply(t, tx))
  {
    hide Map;
    AlikeFields(s, t);
    MapAppend(Unpadded, s.wides, tx.wides);
    MapAppend(Unpadded, t.wides, tx.wides);
    assert Map(Unpadded, s.wides) == Reopened(s).wides && Map(Unpadded, t.wides) == Reopened(t).wides;
  }

  /** Replaying the same transactions over alike states agrees. */
  lemma {:induction false} AlikeReplay(s: StoreState, t: StoreState, txs: seq<Transaction>)
    requires Alike(s, t)
    ensures Replay(s, txs).Ok? <==> Replay(t, txs).Ok?
    ensures Replay(s, txs).Ok? ==> Alike(Replay(s, txs).value, Replay(t, txs).value)
    decreases |txs|
  {
    hide Prepare, Apply, Alike;
    if txs != [] {
      AlikePrepare(s, t, txs[0]);
      AlikeApply(s, t, txs[0]);
      AlikeReplay(Apply(s, txs[0]), Apply(t, txs[0]), txs[1..]);
    }
  }

  /** Alike states hold the same checkpoints with the same bytes. */
  lemma AlikeMeansTheSame(s: StoreState, t: StoreState)
    requires Alike(s, t)
    ensures s.checkpoints == t.checkpoints && s.checkpointOrdinals == t.checkpointOrdinals
    ensures s.requests == t.requests && s.retired == t.retired && s.deleted == t.deleted
    ensures forall c :: CheckpointBytes(s, c) == CheckpointBytes(t, c)
  {
    hide Map;
    AlikeFields(s, t);
    AlikeView(s, t);
  }

  /** And the same DAG. */
  lemma AlikeView(s: StoreState, t: StoreState)
    requires Alike(s, t)
    ensures ViewOf(s) == ViewOf(t) && s.versions == t.versions
    ensures RootsFit(s) <==> RootsFit(t)
  {
    hide Map, Fits;
    AlikeFields(s, t);
    forall id: nat | id < |s.nodes|
      ensures DecodeNode(s, id) == DecodeNode(t, id)
    {
      AlikeDecode(s, t, id);
    }
    assert ViewOf(s).nodes == ViewOf(t).nodes;
    assert ViewOf(s) == ViewOf(t);
  }

  lemma AlikeDecode(s: StoreState, t: StoreState, id: nat)
    requires Alike(s, t)
    ensures DecodeNode(s, id) == DecodeNode(t, id)
  {
    hide Map;
    AlikeFields(s, t);
    if id >= s.base.nodeCount && id - s.base.nodeCount < |s.nodes| {
      var index := s.nodes[id - s.base.nodeCount].field0 - s.base.wideCount;
      if 0 <= index < |s.wides| { AlikeWides(s, t, index); }
    }
  }

  lemma AlikeInv(s: StoreState, t: StoreState)
    requires Inv(s) && Alike(s, t)
    ensures Inv(t)
  {
    hide VersionsOk, ThreadsIndexed, CheckpointsIndexed, IdentifierOk, Map, WellFormed;
    AlikeFields(s, t);
    AlikeView(s, t);
    SamePartVersions(s, t);
    SamePartNames(s, t);
    forall i | 0 <= i < |t.checkpoints|
      ensures CheckpointOk(t, i)
    {
      assert CheckpointOk(s, i);
    }
  }

  // Directories that stand for a state

  /** Everything a crash leaves behind. */
  datatype Image = Image(files: Files, manifest: Manifest, wal: seq<byte>)

  /** The image holds the sealed state `s` and a log of `records` beyond it. */
  ghost predicate Consistent(d: Image, s: StoreState, records: seq<seq<byte>>, tail: seq<byte>) {
    && Holds(d.manifest, d.files, s)
    && Current(d.wal, s.Watermarks(), records, tail)
    && Replay(s, Parsed(s.Watermarks(), records)).Ok?
  }

  /** The image of a seal stopped before its log was recycled. */
  ghost predicate Unrecycled(d: Image, s: StoreState, sealed: seq<seq<byte>>, records: seq<seq<byte>>,
                             tail: seq<byte>) {
    hide Holds, Interrupted, Chain, Replay, Parsed;
    && Holds(d.manifest, d.files, s)
    && (d.manifest.segments != [] ==> |d.manifest.segments[|d.manifest.segments| - 1].starts| == STREAMS)
    && Chain(s.Watermarks(), records)
    && Interrupted(d.wal, PreviousGeometry(d.manifest), s.Watermarks(), sealed, records, tail)
    && Replay(s, Parsed(s.Watermarks(), records)).Ok?
  }

  /** This image stands for the committed state `c`. */
  ghost predicate Stands(d: Image, c: StoreState) {
    exists s, sealed, records, tail :: StandsAs(d, c, s, sealed, records, tail)
  }

  ghost predicate StandsAs(d: Image, c: StoreState, s: StoreState, sealed: seq<seq<byte>>, records: seq<seq<byte>>,
                          tail: seq<byte>) {
    && (Consistent(d, s, records, tail) || Unrecycled(d, s, sealed, records, tail))
    && Alike(Replay(s, Parsed(s.Watermarks(), records)).value, c)
  }

  // How every store begins

  /** No generation, no file. */
  const FRESH: Manifest := Manifest(0, 0, 0, 0, 0, Zeros(), [], [], [], [])

  lemma FreshHolds()
    ensures Holds(FRESH, map[], EMPTY_STATE) && Loadable(FRESH, map[])
  {
    hide Inv, SealedAs, StreamsOf, Lengths, StartsOf;
    EmptyStateInv();
    FreshStreams();
    assert FilesTyped(FRESH, map[]) && RouteRequests(FRESH.routes, map[]) == [];
    assert StartsOf(FRESH) == [Zeros()] by { FreshStarts(); }
    assert SegmentFiles(FRESH, map[]) == [];
  }

  lemma FreshStarts()
    ensures StartsOf(FRESH) == [Zeros()]
  {
    assert StartsOf(FRESH)[0] == Zeros();
  }

  lemma FreshStreams()
    ensures NamesFit(EMPTY_STATE) && Lengths(StreamsOf(EMPTY_STATE)) == Zeros()
    ensures SealedAs([], [Zeros()], StreamsOf(EMPTY_STATE))
  {
    hide StreamsOf;
    EmptyHistory([]);
    var streams := StreamsOf(EMPTY_STATE);
    forall id | 0 <= id < STREAMS
      ensures |streams[id]| == 0
    {
      assert Lengths(streams)[id] == 0;
    }
  }

  /** A store that has never been sealed, with whatever has been committed. */
  lemma FreshStands(records: seq<seq<byte>>, reserve: nat)
    requires Chain(EMPTY_GEOMETRY, records) && Replay(EMPTY_STATE, Parsed(EMPTY_GEOMETRY, records)).Ok?
    ensures Stands(Image(map[], FRESH, Concat(records) + Blank(reserve)),
                   Replay(EMPTY_STATE, Parsed(EMPTY_GEOMETRY, records)).value)
  {
    hide Holds, Chain, Replay, Parsed, Concat, Dead;
    FreshHolds();
    BlankIsDead(reserve);
    assert EMPTY_STATE.Watermarks() == EMPTY_GEOMETRY;
    var d := Image(map[], FRESH, Concat(records) + Blank(reserve));
    assert Consistent(d, EMPTY_STATE, records, Blank(reserve));
    assert StandsAs(d, Replay(EMPTY_STATE, Parsed(EMPTY_GEOMETRY, records)).value, EMPTY_STATE, [], records,
                    Blank(reserve));
  }

  /** The request records of every route, each read from its file. */
  method ReadRoutes(m: Manifest, files: Files) returns (r: Result<seq<RequestRecord>>)
    requires FilesTyped(m, files)
    ensures r.Ok? <==> forall j :: 0 <= j < |m.routes| ==> RouteFile.Readable(files[m.routes[j].file].route)
    ensures r.Ok? ==> r.value == RouteRequests(m.routes, files)
  {
    hide RouteFile.Readable, RouteFile.RouteBytes, RouteFile.KeysLong, RouteFile.RouteFits, RouteFile.KeysEnd,
      RouteFile.RequestsAre;
    var requests: seq<RequestRecord> := [];
    assert m.routes[..0] == [];
    for j := 0 to |m.routes|
      invariant requests == RouteRequests(m.routes[..j], files)
      invariant forall i :: 0 <= i < j ==> RouteFile.Readable(files[m.routes[i].file].route)
    {
      var route := files[m.routes[j].file].route;
      var read := RouteFile.RouteRequestRecords(RouteFile.RouteBytes(route), route, true);
      if read.Err? { return Err(Format); }
      assert m.routes[..j + 1][..j] == m.routes[..j];
      requests := requests + read.value;
    }
    assert m.routes[..|m.routes|] == m.routes;
    return Ok(requests);
  }

  /** The sealed part, from segments, routes and manifest. */
  method LoadSealed(m: Manifest, files: Files, ghost s: StoreState) returns (r: Result<StoreState>)
    requires Holds(m, files, s)
    ensures r.Ok? <==> Loadable(m, files)
    ensures r.Ok? ==> r.value == Reopened(s)
  {
    hide Inv, NamesFit, WidesKnown, StreamsOf, SealedAs, Deletion.Lists, ManifestValid, SealedPart, Reopened,
      RouteFile.Readable, LedgerApart, FilesTyped, Disjoint, SealedStateRead, Tabled;
    HeldParts(m, files, s);
    HeldLedger(m, files, s);
    var valid := ValidateManifest(m, files);
    if valid.Err? { return Err(Format); }
    SealedIsRead(SegmentFiles(m, files), m.sizes, StartsOf(m), s);
    var sealed := MaterializeSealedState(SegmentFiles(m, files), m.sizes, m.versionCount, m.threadCount,
                                         m.checkpointCount);
    if sealed.Err? { return Err(Format); }
    var requests := ReadRoutes(m, files);
    if requests.Err? { return Err(Format); }
    r := RestoreLifecycle(sealed.value, Lifecycle(m.tombstones, m.retired, requests.value), s);
  }

  lemma HeldParts(m: Manifest, files: Files, s: StoreState)
    requires Holds(m, files, s)
    ensures m.segments != [] ==> |m.segments[|m.segments| - 1].starts| == STREAMS
  {
    hide SealedAs, Deletion.Lists, Inv, NamesFit, WidesKnown, StreamsOf, RouteValid, FileBytes, FilesTyped,
      NamedByGeneration, RouteRequests, RouteCheckpoints, RouteThreads, SegmentFiles, StartsOf, Lengths;
    if m.segments != [] {
      var j := |m.segments| - 1;
      assert ContinuesAt(m, files, j);
      if j > 0 { assert ContinuesAt(m, files, j - 1); }
    }
  }

  /** What a reclaim leaves: nothing new, all that the manifest names as it was,
      and when the guard was granted nothing else, otherwise everything. */
  ghost predicate Swept(m: Manifest, files: Files, left: Files, granted: bool) {
    && (forall name :: name in left ==> name in files && left[name] == files[name])
    && (forall name :: name in files && (Referenced(m, name) || !granted) ==> name in left)
    && (granted ==> forall name :: name in left ==> Referenced(m, name))
  }

  /** Reclaim as `open` runs it. */
  method Reclaim(files: Files, m: Manifest, granted: bool) returns (left: Files)
    ensures Swept(m, files, left, granted)
  {
    if !granted { return files; }
    left := map name | name in files && Referenced(m, name) :: files[name];
  }

  lemma SweptKeeps(m: Manifest, files: Files, left: Files, granted: bool)
    requires Swept(m, files, left, granted) && forall name :: Referenced(m, name) ==> name in files
    ensures SameReferenced(m, files, left)
  {
  }

  lemma HeldFilesPresent(m: Manifest, files: Files, s: StoreState)
    requires Holds(m, files, s)
    ensures forall name :: Referenced(m, name) ==> name in files
    ensures FilesTyped(m, files)
  {
    hide SealedAs, Deletion.Lists, Inv, NamesFit, WidesKnown, StreamsOf, ManifestValid;
  }

  /** The log file as `open` leaves it: as long as it was, or exactly the reserve
      for its tail when that is longer. */
  method Lengthen(wal: seq<byte>, logicalTail: nat, segment: nat) returns (longer: seq<byte>, ghost added: nat)
    requires segment > 0
    ensures longer == wal + Blank(added) && Reserved(|longer|, logicalTail, segment)
    ensures added > 0 ==> Reserves(|longer|, logicalTail, segment)
  {
    hide Reserves;
    var capacity := RoundCapacity(logicalTail, segment);
    added := if |wal| < capacity then capacity - |wal| else 0;
    longer := if |wal| < capacity then wal + Blank(capacity - |wal|) else wal;
    assert longer == wal + Blank(added);
  }

  /** Measuring every version of the recovered state. */
  method MeasureState(state: StoreState, ghost c: StoreState) returns (r: Result<()>)
    requires Inv(c) && Alike(c, state)
    ensures r.Ok? <==> RootsFit(state)
  {
    hide Alike, Fits;
    AlikeView(c, state);
    var reader := new RangeReader(ViewOf(state));
    r := reader.MeasureRoots(state.versions);
  }

  /** Open: whatever step the last process stopped at, the committed state comes
      back, no transaction lost or replayed twice, and the directory is again
      one whose log continues its manifest. It opens exactly when its routes
      give their requests back, its ledger is apart, and every version of the
      committed state has a 64-bit length; once it could be loaded, the files no
      manifest names are gone if the guard was granted. Stopping inside it, 1 after the
      reclaim, 2 after the log is whole again or 3 after it is lengthened,
      changes neither what the directory stands for nor whether it opens. */
  method Open(d: Image, segment: nat, granted: bool, stop: nat, ghost c: StoreState)
    returns (r: Result<(StoreState, nat)>, after: Image,
             ghost s: StoreState, ghost records: seq<seq<byte>>, ghost tail: seq<byte>)
    requires segment > 0 && Stands(d, c)
    ensures r.Ok? <==> Loadable(d.manifest, d.files) && RootsFit(c) && !(1 <= stop <= 3)
    ensures r.Ok? ==> Alike(r.value.0, c)
    ensures r.Ok? ==> Consistent(after, s, records, tail) && r.value.1 == |Concat(records)|
    ensures r.Ok? ==> Alike(Replay(s, Parsed(s.Watermarks(), records)).value, c)
    ensures Stands(after, c) && after.manifest == d.manifest
    ensures Loadable(after.manifest, after.files) <==> Loadable(d.manifest, d.files)
    ensures Loadable(d.manifest, d.files) ==> Swept(d.manifest, d.files, after.files, granted)
    ensures !Loadable(d.manifest, d.files) ==> after == d
    ensures r.Ok? ==> Reserved(|after.wal|, r.value.1, segment)
  {
    hide Reserved, Reserves, Holds, Current, Interrupted, Alike, Parsed, Replay, Prepare, Apply, Reopened, Concat,
      Chain, Loadable, FilesTyped, RootsFit, Inv, Dead, Swept;
    ghost var sealed, before;
    s, sealed, records, before :| StandsAs(d, c, s, sealed, records, before);
    tail, after := before, d;
    HeldParts(d.manifest, d.files, s);
    HeldGeometry(d.manifest, d.files, s);
    var loaded := LoadSealed(d.manifest, d.files, s);
    if loaded.Err? { return Err(Format), after, s, records, tail; }
    var files := Reclaim(d.files, d.manifest, granted);
    HeldFilesPresent(d.manifest, d.files, s);
    SweptKeeps(d.manifest, d.files, files, granted);
    HoldsFrames(d.manifest, d.files, files, s);
    LoadableFrames(d.manifest, d.files, files);
    after := d.(files := files);
    Reclaimed(d, after, c, s, sealed, records, before);
    if stop == 1 { return Err(Io), after, s, records, tail; }
    var wal;
    wal, tail := RecoverWal(d.wal, GeometryOf(d.manifest), PreviousGeometry(d.manifest), segment,
                            sealed, records, before);
    if wal.Err? { return Err(Format), after, s, records, tail; }
    after := after.(wal := wal.value.1);
    assert StandsAs(after, c, s, [], records, tail);
    if stop == 2 { return Err(Io), after, s, records, tail; }
    ReopenedAlike(s);
    AlikeReplay(s, Reopened(s), wal.value.0);
    var state := ReplayAll(loaded.value, wal.value.0);
    if state.Err? { return Err(Format), after, s, records, tail; }
    AlikeTrans(state.value, Replay(s, wal.value.0).value, c);
    var longer, added := Lengthen(wal.value.1, wal.value.2, segment);
    CurrentGrows(wal.value.1, s.Watermarks(), records, tail, added);
    after, tail := after.(wal := longer), tail + Blank(added);
    assert StandsAs(after, c, s, [], records, tail);
    if stop == 3 { return Err(Io), after, s, records, tail; }
    RecoveredInv(after, s, records, tail);
    AlikeView(state.value, c);
    var measured := MeasureState(state.value, Replay(s, wal.value.0).value);
    if measured.Err? { return Err(Format), after, s, records, tail; }
    return Ok((state.value, wal.value.2)), after, s, records, tail;
  }

  lemma CurrentGrows(wal: seq<byte>, g: Geometry, records: seq<seq<byte>>, tail: seq<byte>, added: nat)
    requires Current(wal, g, records, tail)
    ensures Current(wal + Blank(added), g, records, tail + Blank(added))
  {
    hide Dead, Chain, Concat;
    DeadGrows(tail, added);
    assert Concat(records) + tail + Blank(added) == Concat(records) + (tail + Blank(added));
  }

  lemma RecoveredInv(d: Image, s: StoreState, records: seq<seq<byte>>, tail: seq<byte>)
    requires Consistent(d, s, records, tail)
    ensures Inv(Replay(s, Parsed(s.Watermarks(), records)).value)
  {
    hide Inv, Replay, Parsed, Chain, Dead, ManifestValid, SealedAs, StreamsOf, Deletion.Lists, NamesFit, WidesKnown;
    ReplayWatermarks(s, records);
  }

  lemma Reclaimed(d: Image, after: Image, c: StoreState, s: StoreState, sealed: seq<seq<byte>>, records: seq<seq<byte>>,
                  tail: seq<byte>)
    requires StandsAs(d, c, s, sealed, records, tail)
    requires after == d.(files := after.files) && Holds(after.manifest, after.files, s)
    ensures Stands(after, c)
  {
    hide Holds, Current, Interrupted, Alike, Parsed, Replay, Chain;
    assert StandsAs(after, c, s, sealed, records, tail);
  }

  lemma AlikeTrans(a: StoreState, b: StoreState, c: StoreState)
    requires Alike(b, a) && Alike(b, c)
    ensures Alike(a, c)
  {
  }

  /** Preparing and applying one transaction after the other. */
  method ReplayAll(s: StoreState, txs: seq<Transaction>) returns (r: Result<StoreState>)
    ensures r == Replay(s, txs)
  {
    hide Prepare, Apply;
    var state := s;
    for i := 0 to |txs|
      invariant Replay(s, txs) == Replay(state, txs[i..])
    {
      var prepared := Prepare(state, txs[i]);
      assert txs[i..][0] == txs[i] && txs[i..][1..] == txs[i + 1..];
      if prepared.Err? { return Err(prepared.error); }
      state := Apply(state, txs[i]);
    }
    return Ok(state);
  }
}
