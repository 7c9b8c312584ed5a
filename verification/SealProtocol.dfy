/** Sealing as steps on disk: segment, route, manifest, then the log. */
module SealProtocol {
  import opened Wrappers
  import opened Bytes
  import opened Format
  import opened Model
  import opened Ranges
  import opened TransactionFormat
  import opened Transactions
  import opened Appends
  import opened HotLog
  import opened HotWal
  import opened Writer
  import opened Segment
  import opened Columns
  import opened BlockReader
  import opened RouteFile
  import opened Sealing
  import opened Materialize
  import opened Pruning
  import opened Deletion
  import opened Manifests
  import opened Recovery

  // What one more generation adds to a manifest

  lemma {:induction false} AddedCounts(s: StoreState, txs: seq<Transaction>)
    requires Replay(s, txs).Ok?
    ensures |AddedByAll(s, txs).checkpoints| == |txs|
    ensures |Replay(s, txs).value.checkpoints| == |s.checkpoints| + |txs|
    ensures |Replay(s, txs).value.threads| == |s.threads| + |AddedByAll(s, txs).threads|
    decreases |txs|
  {
    hide Prepare;
    if txs != [] { AddedCounts(Apply(s, txs[0]), txs[1..]); }
  }

  /** Routes go on listing exactly the committed requests. */
  lemma {:induction false} RequestsListedGrows(s: StoreState, txs: seq<Transaction>, list: seq<RequestRecord>)
    requires Replay(s, txs).Ok? && RequestsListed(list, s.requests)
    ensures RequestsListed(list + AddedByAll(s, txs).requests, Replay(s, txs).value.requests)
    decreases |txs|
  {
    hide NewNodesValid, RequestsListed;
    if txs == [] {
      assert list + [] == list;
    } else {
      var tx := txs[0];
      var one := AddedBy(s, tx).requests;
      RequestsListedOne(s, tx, list);
      RequestsListedGrows(Apply(s, tx), txs[1..], list + one);
      assert list + AddedByAll(s, txs).requests == (list + one) + AddedByAll(Apply(s, tx), txs[1..]).requests;
    }
  }

  lemma RequestsListedOne(s: StoreState, tx: Transaction, list: seq<RequestRecord>)
    requires Prepare(s, tx).Ok? && RequestsListed(list, s.requests)
    ensures RequestsListed(list + AddedBy(s, tx).requests, Apply(s, tx).requests)
  {
    hide NewNodesValid;
    var all, m := list + AddedBy(s, tx).requests, Apply(s, tx).requests;
    forall k | k in m
      ensures exists i :: 0 <= i < |all| && all[i].key == k
    {
      if k in s.requests {
        var i :| 0 <= i < |list| && list[i].key == k;
        assert all[i].key == k;
      } else {
        assert all[|list|].key == k;
      }
    }
  }

  lemma {:induction false} ReplayKeepsLedger(s: StoreState, txs: seq<Transaction>)
    requires Replay(s, txs).Ok?
    ensures Replay(s, txs).value.retired == s.retired && Replay(s, txs).value.deleted == s.deleted
    decreases |txs|
  {
    hide Prepare;
    if txs != [] { ReplayKeepsLedger(Apply(s, txs[0]), txs[1..]); }
  }

  function NextSegment(m: Manifest, bytes: nat, walEnd: nat, target: nat, versions: nat, ends: seq<nat>): SegmentMeta {
    SegmentMeta(m.generation + 1, SegmentName(m.generation + 1), bytes, m.sealedEnd, walEnd,
                m.checkpointCount, target, m.versionCount, versions, m.sizes, ends)
  }

  function NextManifest(m: Manifest, segment: SegmentMeta, route: RouteMeta, threads: nat): Manifest {
    m.(generation := segment.generation, sealedEnd := segment.walEnd, checkpointCount := segment.checkpointEnd,
       versionCount := segment.versionEnd, threadCount := threads, sizes := segment.ends,
       segments := m.segments + [segment], routes := m.routes + [route])
  }

  /** What a seal publishes: one more generation for the bytes and checkpoints up
      to the target, after all the earlier ones. */
  predicate Extended(m: Manifest, n: Manifest, bytes: nat, target: nat) {
    && n.generation == m.generation + 1 && n.sealedEnd == m.sealedEnd + bytes && n.checkpointCount == target
    && |n.segments| == |m.segments| + 1 && n.segments[..|m.segments|] == m.segments
    && |n.routes| == |m.routes| + 1 && n.routes[..|m.routes|] == m.routes
    && n.tombstones == m.tombstones && n.retired == m.retired
    && var last := n.segments[|m.segments|];
       last.file == SegmentName(n.generation) && n.routes[|m.routes|].file == RouteName(n.generation)
       && last.walStart == m.sealedEnd && last.walEnd == n.sealedEnd
       && last.checkpointStart == m.checkpointCount && last.checkpointEnd == target
  }

  /** No file but the two of generation `g` has come, gone or changed. */
  predicate OnlyNew(before: Files, after: Files, g: nat) {
    && NoOther(before, after, g)
    && (forall name :: name in before && name != SegmentName(g) && name != RouteName(g) ==> name in after)
  }

  /** The route file of generation `g` is as it was: a segment is put first. */
  predicate RouteUntouched(before: Files, after: Files, g: nat) {
    && (RouteName(g) in after <==> RouteName(g) in before)
    && (RouteName(g) in before ==> after[RouteName(g)] == before[RouteName(g)])
  }

  /** No file but those two has come or changed. */
  predicate NoOther(before: Files, after: Files, g: nat) {
    forall name :: name in after && name != SegmentName(g) && name != RouteName(g) ==>
      name in before && after[name] == before[name]
  }

  lemma NothingNew(files: Files, g: nat)
    ensures RouteUntouched(files, files, g)
    ensures OnlyNew(files, files, g)
  {
  }

  lemma NextExtends(m: Manifest, bytes: nat, file: nat, target: nat, versions: nat, ends: seq<nat>, route: RouteMeta,
                    threads: nat)
    requires route.file == RouteName(m.generation + 1)
    ensures var segment := NextSegment(m, file, m.sealedEnd + bytes, target, versions, ends);
      Extended(m, NextManifest(m, segment, route, threads), bytes, target)
  {
  }

  /** The two new files do not touch any file the old manifest names. */
  lemma NewFilesUnreferenced(m: Manifest, files: Files, a: Artifact, b: Artifact)
    requires NamedByGeneration(m) && FilesTyped(m, files)
    ensures var g := m.generation + 1;
      && SameReferenced(m, files, files[SegmentName(g) := a])
      && SameReferenced(m, files, files[SegmentName(g) := a][RouteName(g) := b])
  {
  }

  lemma NewRouteUnreferenced(m: Manifest, files: Files, b: Artifact)
    requires NamedByGeneration(m) && FilesTyped(m, files)
    ensures SameReferenced(m, files, files[RouteName(m.generation + 1) := b])
  {
  }

  function MarkOf(m: Manifest): Mark {
    Mark(m.generation, m.sealedEnd, m.checkpointCount, m.versionCount, m.sizes)
  }

  lemma NextValid(m: Manifest, files: Files, segment: SegmentMeta, route: RouteMeta, threads: nat)
    requires ManifestValid(m, files) && EntryValid(MarkOf(m), segment, route, files)
    requires segment.checkpointEnd == m.checkpointCount + route.checkpointCount
    requires threads == m.threadCount + route.threadCount
    ensures ManifestValid(NextManifest(m, segment, route, threads), files)
  {
    hide EntryValid;
    var n := NextManifest(m, segment, route, threads);
    var k := |m.segments|;
    forall j | 0 <= j <= k
      ensures ContinuesAt(n, files, j)
    {
      assert MarkAt(n.segments, j) == MarkAt(m.segments, j);
      if j < k { assert ContinuesAt(m, files, j); }
    }
    assert n.routes[..k] == m.routes;
    ShapeOfEntry(MarkOf(m), segment, route, files);
  }

  lemma ShapeOfEntry(mark: Mark, segment: SegmentMeta, route: RouteMeta, files: Files)
    requires EntryValid(mark, segment, route, files)
    ensures |segment.ends| == STREAMS && segment.file in files && route.file in files
    ensures route.generation == segment.generation && files[route.file].RouteArtifact?
  {
  }

  lemma NextSegments(m: Manifest, files: Files, f: SegmentFile, segment: SegmentMeta, route: RouteMeta, threads: nat)
    requires FilesTyped(m, files) && segment.file in files && files[segment.file] == SegmentArtifact(f)
    requires route.file in files && files[route.file].RouteArtifact?
    requires MarkAt(m.segments, |m.segments|).streams == m.sizes
    ensures var n := NextManifest(m, segment, route, threads);
      && FilesTyped(n, files)
      && SegmentFiles(n, files) == SegmentFiles(m, files) + [f]
      && StartsOf(n) == StartsOf(m) + [segment.ends]
      && RouteRequests(n.routes, files) == RouteRequests(m.routes, files) + files[route.file].route.requests
  {
    var n := NextManifest(m, segment, route, threads);
    assert forall j :: 0 <= j <= |m.segments| ==> MarkAt(n.segments, j) == MarkAt(m.segments, j);
    assert n.routes[..|m.routes|] == m.routes;
  }

  /** What the writer lays down for transactions sealed over `s`. */
  ghost predicate SealedOver(s: StoreState, txs: seq<Transaction>, f: SegmentFile, parts: seq<seq<byte>>,
                             ends: seq<nat>,
                             added: Additions)
    requires NamesFit(s) && Replay(s, txs).Ok?
  {
    var t := Replay(s, txs).value;
    && Inv(t) && NamesFit(t) && WidesKnown(t.wides)
    && SegmentHolds(f, Lengths(StreamsOf(s)), parts) && Continued(StreamsOf(s), parts, StreamsOf(t))
    && ends == Lengths(StreamsOf(t)) && added == AddedByAll(s, txs)
  }

  /** Publishing the manifest of one more generation: from then on the directory
      holds the longer sealed state. */
  lemma NextHolds(m: Manifest, files: Files, s: StoreState, txs: seq<Transaction>, f: SegmentFile,
                  parts: seq<seq<byte>>, added: Additions, segment: SegmentMeta, route: RouteMeta, threads: nat)
    requires Holds(m, files, s) && Replay(s, txs).Ok?
    requires SealedOver(s, txs, f, parts, segment.ends, added)
    requires EntryValid(MarkOf(m), segment, route, files) && segment.generation == m.generation + 1
    requires segment.file == SegmentName(m.generation + 1) && route.file == RouteName(m.generation + 1)
    requires files[segment.file] == SegmentArtifact(f) && files[route.file].RouteArtifact?
    requires files[route.file].route.requests == added.requests
    requires route.threadCount == |added.threads| && route.checkpointCount == |added.checkpoints|
    requires segment.checkpointEnd == m.checkpointCount + |txs| && segment.versionEnd == |Replay(s, txs).value.versions|
    requires threads == |Replay(s, txs).value.threads|
    ensures Holds(NextManifest(m, segment, route, threads), files, Replay(s, txs).value)
  {
    hide Inv, NamesFit, WidesKnown, StreamsOf, SealedAs, EntryValid, AddedByAll, RouteRequests, Replay, RetiredListed,
      RequestsListed, StreamHeld, RouteCheckpoints, RouteThreads, Lengths, Continued, SegmentHolds, ManifestValid,
      FilesTyped, SegmentFiles, StartsOf, Deletion.Lists, Built;
    var t, n := Replay(s, txs).value, NextManifest(m, segment, route, threads);
    AddedCounts(s, txs);
    NextValid(m, files, segment, route, threads);
    LastStreams(m, files);
    ShapeOfEntry(MarkOf(m), segment, route, files);
    NextSegments(m, files, f, segment, route, threads);
    StreamCount(s);
    SealedAsGrows(SegmentFiles(m, files), StartsOf(m), StreamsOf(s), f, parts, StreamsOf(t));
    ListsGrow(m, n, files, s, txs, added);
    assert NamedByGeneration(n);
  }

  /** A generation that can be read back over a state: its route gives its
      requests back, and none of them is retired. */
  ghost predicate ReadsBack(s: StoreState, added: Additions) {
    && NamesShort(added) && NameAllowsReading(added)
    && forall i :: 0 <= i < |added.requests| ==> added.requests[i].key !in s.retired
  }

  lemma ApartConcat(a: seq<RequestRecord>, b: seq<RequestRecord>, retired: seq<Retired>)
    ensures LedgerApart(a + b, retired) <==> LedgerApart(a, retired) && LedgerApart(b, retired)
  {
    assert forall i :: 0 <= i < |b| ==> (a + b)[|a| + i] == b[i];
    assert forall i :: 0 <= i < |a| ==> (a + b)[i] == a[i];
  }

  lemma ApartFromRetired(list: seq<RequestRecord>, retired: seq<Retired>, m: map<seq<byte>, seq<byte>>)
    requires RetiredListed(retired, m)
    ensures LedgerApart(list, retired) <==> forall i :: 0 <= i < |list| ==> list[i].key !in m
  {
    if i :| 0 <= i < |list| && list[i].key in m {
      var j :| 0 <= j < |retired| && retired[j].key == list[i].key;
      assert !LedgerApart(list, retired);
    }
  }

  lemma OneMoreLoadable(m: Manifest, n: Manifest, files: Files, route: RouteMeta, requests: seq<RequestRecord>)
    requires FilesTyped(m, files) && FilesTyped(n, files)
    requires n.routes == m.routes + [route] && n.retired == m.retired
    requires RouteRequests(n.routes, files) == RouteRequests(m.routes, files) + requests
    ensures Loadable(n, files) <==>
      Loadable(m, files) && Readable(files[route.file].route) && LedgerApart(requests, m.retired)
  {
    hide Readable, LedgerApart, RouteRequests, Built;
    ApartConcat(RouteRequests(m.routes, files), requests, m.retired);
    var k := |m.routes|;
    assert n.routes[k] == route && forall j :: 0 <= j < k ==> n.routes[j] == m.routes[j];
  }

  lemma HeldRetired(m: Manifest, files: Files, s: StoreState)
    requires Holds(m, files, s)
    ensures RetiredListed(m.retired, s.retired) && FilesTyped(m, files)
    ensures MarkAt(m.segments, |m.segments|).streams == m.sizes
  {
    hide SealedAs, StreamsOf, Inv, NamesFit, WidesKnown, RetiredListed, RequestsListed, FilesTyped, RouteRequests,
      EntryValid;
  }

  /** A directory with one more generation can be loaded exactly when it could
      before and the generation can be read back. */
  lemma NextLoadable(m: Manifest, before: Files, files: Files, s: StoreState, added: Additions, f: SegmentFile,
                     segment: SegmentMeta, route: RouteMeta, threads: nat)
    requires m.generation < U64_MAX && NamesShort(added) && Buildable(added)
    requires segment.file in files && files[segment.file] == SegmentArtifact(f)
    requires route.file in files && Built(RouteOf(m.generation + 1, added))
    requires files[route.file] == RouteArtifact(RouteOf(m.generation + 1, added))
    requires SameReferenced(m, before, files) && Holds(m, before, s)
    ensures Loadable(NextManifest(m, segment, route, threads), files) <==> Loadable(m, before) && ReadsBack(s, added)
  {
    hide *;
    var n := NextManifest(m, segment, route, threads);
    HeldRetired(m, before, s);
    LoadableFrames(m, before, files);
    HoldsFrames(m, before, files, s);
    HeldRetired(m, files, s);
    NextSegments(m, files, f, segment, route, threads);
    NextLists(m, segment, route, threads);
    BuildableNames(added);
    RouteKeeps(m.generation + 1, added);
    ReadableIff(m.generation + 1, added);
    OneMoreLoadable(m, n, files, route, added.requests);
    ApartFromRetired(added.requests, m.retired, s.retired);
    ReadsBackIs(s, added);
  }

  lemma NextLists(m: Manifest, segment: SegmentMeta, route: RouteMeta, threads: nat)
    ensures var n := NextManifest(m, segment, route, threads); n.routes == m.routes + [route] && n.retired == m.retired
  {
  }

  lemma RouteKeeps(generation: u64, added: Additions)
    requires NamesShort(added)
    ensures RouteOf(generation, added).requests == added.requests
  {
    hide NamesShort, Sort;
  }

  lemma ReadsBackIs(s: StoreState, added: Additions)
    requires NamesShort(added)
    ensures ReadsBack(s, added) <==>
      NameAllowsReading(added) && forall i :: 0 <= i < |added.requests| ==> added.requests[i].key !in s.retired
  {
    hide NamesShort, NameAllowsReading;
  }

  /** A checkpoint whose id ends in the footer magic: its record is admitted, its
      route file can be built, and once its generation is published the store can
      no longer be loaded. */
  lemma FooterNameUnreadable(thread: Id, id: Id) returns (tx: Transaction, record: seq<byte>)
    requires IdentifierOk(thread) && IdentifierOk(id) && EndsInFooter(id)
    ensures Admit(EMPTY_STATE, record) == Ok(tx) && Replay(EMPTY_STATE, [tx]).Ok?
    ensures Buildable(AddedByAll(EMPTY_STATE, [tx])) && !ReadsBack(EMPTY_STATE, AddedByAll(EMPTY_STATE, [tx]))
  {
    hide IdentifierOk, Inv, Prepare, Sound, EncodeTransaction, Admit, Encodable, Replay, Buildable, NameAllowsReading,
      EndsInFooter;
    assert |thread| <= MAX_IDENTIFIER_BYTES && |id| <= MAX_IDENTIFIER_BYTES by { NamesBounded(thread, id); }
    tx := FirstCommit(thread, id, [], LeafSlot(0, 0), [], None);
    record := EncodeTransaction(tx.(digest := NO_DIGEST));
    assert [tx][1..] == [];
    assert AddedByAll(EMPTY_STATE, [tx]) == Additions([(thread, 0)], [(Key(thread, id), 0)], []);
    OneNameFits(thread, id);
    OneNameIsLast(thread, id);
  }

  lemma BuildableNames(added: Additions)
    requires Buildable(added)
    ensures NamesShort(added)
  {
  }

  lemma StreamCount(s: StoreState)
    requires NamesFit(s)
    ensures |StreamsOf(s)| == STREAMS
  {
  }

  lemma LastStreams(m: Manifest, files: Files)
    requires ManifestValid(m, files)
    ensures MarkAt(m.segments, |m.segments|).streams == m.sizes
  {
  }

  lemma ListsGrow(m: Manifest, n: Manifest, files: Files, s: StoreState, txs: seq<Transaction>, added: Additions)
    requires Replay(s, txs).Ok? && added == AddedByAll(s, txs)
    requires FilesTyped(m, files) && FilesTyped(n, files)
    requires n.tombstones == m.tombstones && n.retired == m.retired
    requires RouteRequests(n.routes, files) == RouteRequests(m.routes, files) + added.requests
    requires Deletion.Lists(Lifecycle(m.tombstones, m.retired, RouteRequests(m.routes, files)), s)
    ensures Deletion.Lists(Lifecycle(n.tombstones, n.retired, RouteRequests(n.routes, files)), Replay(s, txs).value)
  {
    hide Replay, AddedByAll, RetiredListed, RequestsListed;
    RequestsListedGrows(s, txs, RouteRequests(m.routes, files));
    ReplayKeepsLedger(s, txs);
  }

  // Splitting the log at the seal target

  /** The first `n` records are sealed, the others stay: the state in between
      is exactly where the others continue. */
  lemma LogSplits(base: StoreState, records: seq<seq<byte>>, n: nat)
    requires Inv(base) && Chain(base.Watermarks(), records) && n <= |records|
    requires Replay(base, Parsed(base.Watermarks(), records)).Ok?
    ensures var g, sealed, rest := base.Watermarks(), records[..n], records[n..];
      && Chain(g, sealed) && Chain(EndOf(g, sealed), rest) && records == sealed + rest
      && Parsed(g, records) == Parsed(g, sealed) + Parsed(EndOf(g, sealed), rest)
      && Concat(records) == Concat(sealed) + Concat(rest)
      && Replay(base, Parsed(g, sealed)).Ok?
      && var t := Replay(base, Parsed(g, sealed)).value;
         Inv(t) && t.Watermarks() == EndOf(g, sealed)
         && Replay(t, Parsed(t.Watermarks(), rest)) == Replay(base, Parsed(g, records))
  {
    hide Inv, Replay, Parsed, Chain, Concat, EndOf;
    var g, sealed, rest := base.Watermarks(), records[..n], records[n..];
    assert records == sealed + rest;
    ChainSplits(g, sealed, rest);
    var txs := Parsed(g, records);
    assert txs[..n] == Parsed(g, sealed);
    ReplayPrefix(base, txs, n);
    ReplayConcat(base, Parsed(g, sealed), Parsed(EndOf(g, sealed), rest));
    ReplayWatermarks(base, sealed);
  }

  lemma {:induction false} ParsedSound(g: Geometry, records: seq<seq<byte>>)
    requires Chain(g, records)
    ensures forall t :: t in Parsed(g, records) ==> Sound(t)
    decreases |records|
  {
    hide ParseTransaction, Sound;
    if records != [] {
      ParsedIsSound(records[0], Some(g));
      ParsedSound(ParseTransaction(records[0], Some(g)).value.After(), records[1..]);
    }
  }

  lemma LaterAlike(s: StoreState, t: StoreState, u: StoreState)
    requires Later(s, t) && Alike(t, u)
    ensures Later(s, u)
  {
    hide Map;
    AlikeFields(t, u);
  }

  /** The position of the seal target among the hot transactions. */
  method FindTarget(entries: seq<HotLog.Entry>, target: nat, ghost g: Geometry, ghost records: seq<seq<byte>>)
    returns (r: Result<nat>)
    requires Chain(g, records) && entries == Entries(g, records, 0)
    requires g.checkpointCount < target <= g.checkpointCount + |records|
    ensures r == Ok(target - g.checkpointCount - 1)
  {
    hide Chain, Entries, Concat;
    for i := 0 to |entries|
      invariant i <= target - g.checkpointCount - 1
    {
      EntryAt(g, records, 0, i);
      if entries[i].tx.checkpointCount == target { return Ok(i); }
    }
    assert false;
  }

  lemma CommittedCount(base: StoreState, records: seq<seq<byte>>, state: StoreState)
    requires Inv(base) && Chain(base.Watermarks(), records)
    requires Replay(base, Parsed(base.Watermarks(), records)).Ok?
    requires Alike(Replay(base, Parsed(base.Watermarks(), records)).value, state)
    ensures |state.checkpoints| == |base.checkpoints| + |records|
  {
    hide Inv, Replay, Parsed, Chain, Alike;
    AddedCounts(base, Parsed(base.Watermarks(), records));
    AlikeMeansTheSame(Replay(base, Parsed(base.Watermarks(), records)).value, state);
  }

  /** Every stop between the segment and the manifest leaves the old store. */
  lemma StillStands(d: Image, files: Files, c: StoreState, s: StoreState, records: seq<seq<byte>>, tail: seq<byte>)
    requires Consistent(d, s, records, tail) && Alike(Replay(s, Parsed(s.Watermarks(), records)).value, c)
    requires SameReferenced(d.manifest, d.files, files)
    ensures Stands(d.(files := files), c) && Consistent(d.(files := files), s, records, tail)
  {
    hide Holds, Current, Alike, Replay, Parsed, SameReferenced;
    HoldsFrames(d.manifest, d.files, files, s);
    assert Consistent(d.(files := files), s, records, tail);
    assert StandsAs(d.(files := files), c, s, [], records, tail);
  }

  /** After the manifest, before the log: the interrupted shape. */
  lemma ManifestStands(d: Image, m: Manifest, segment: SegmentMeta, route: RouteMeta, threads: nat,
                       c: StoreState, s: StoreState, t: StoreState, sealed: seq<seq<byte>>, rest: seq<seq<byte>>,
                       tail: seq<byte>)
    requires Chain(s.Watermarks(), sealed + rest) && Chain(s.Watermarks(), sealed) && sealed != []
    requires d.wal == Concat(sealed + rest) + tail && Dead(tail)
    requires d.manifest == NextManifest(m, segment, route, threads)
    requires |m.sizes| == STREAMS && GeometryOf(m) == s.Watermarks()
    requires segment.starts == m.sizes && segment.versionStart == m.versionCount
    requires segment.checkpointStart == m.checkpointCount
    requires t.Watermarks() == EndOf(s.Watermarks(), sealed)
    requires Chain(t.Watermarks(), rest) && Replay(t, Parsed(t.Watermarks(), rest)).Ok?
    requires Alike(Replay(t, Parsed(t.Watermarks(), rest)).value, c)
    requires Holds(d.manifest, d.files, t)
    ensures Stands(d, c)
  {
    hide Holds, Alike, Replay, Parsed, Chain, Concat, Dead, EndOf;
    assert Interrupted(d.wal, PreviousGeometry(d.manifest), t.Watermarks(), sealed, rest, tail);
    assert Unrecycled(d, t, sealed, rest, tail);
    assert StandsAs(d, c, t, sealed, rest, tail);
  }

  /** What sealing the first records gives, bundled for the publication. */
  ghost predicate SealPlan(m: Manifest, files: Files, base: StoreState, records: seq<seq<byte>>, n: nat,
                           state: StoreState)
  {
    && 0 < n <= |records|
    && Holds(m, files, base) && |m.sizes| == STREAMS && GeometryOf(m) == base.Watermarks()
    && Inv(base) && NamesFit(base) && WidesKnown(base.wides)
    && Chain(base.Watermarks(), records) && Replay(base, Parsed(base.Watermarks(), records)).Ok?
    && Alike(Replay(base, Parsed(base.Watermarks(), records)).value, state)
  }

  lemma HeldFacts(m: Manifest, files: Files, s: StoreState)
    requires Holds(m, files, s)
    ensures Inv(s) && NamesFit(s) && WidesKnown(s.wides) && m.sizes == Lengths(StreamsOf(s))
    ensures m.threadCount == |s.threads| && m.checkpointCount == |s.checkpoints| && m.versionCount == |s.versions|
    ensures ManifestValid(m, files) && FilesTyped(m, files) && NamedByGeneration(m)
  {
  }

  /** Everything the writer needs about the transactions it seals. */
  lemma SealReady(m: Manifest, files: Files, base: StoreState, records: seq<seq<byte>>, n: nat, state: StoreState)
    requires SealPlan(m, files, base, records, n, state)
    ensures Chain(base.Watermarks(), records[..n])
    ensures var txs := Parsed(base.Watermarks(), records[..n]);
      && Replay(base, txs).Ok? && (forall t :: t in txs ==> Sound(t))
      && Later(Replay(base, txs).value, state) && |txs| == n
      && txs == Parsed(base.Watermarks(), records)[..n]
  {
    hide Inv, Replay, Parsed, Chain, Concat, EndOf, Alike, Later, Sound, Holds, NamesFit, WidesKnown;
    var g, rest := base.Watermarks(), records[n..];
    LogSplits(base, records, n);
    ParsedSound(g, records[..n]);
    var t := Replay(base, Parsed(g, records[..n])).value;
    ReplayIsLater(t, Parsed(t.Watermarks(), rest));
    LaterAlike(t, Replay(base, Parsed(g, records)).value, state);
  }

  /** The sealed streams, as the next manifest will claim them. */
  lemma SealDone(m: Manifest, files: Files, base: StoreState, records: seq<seq<byte>>, n: nat, state: StoreState,
                 f: SegmentFile, parts: seq<seq<byte>>, ends: seq<nat>, added: Additions)
    requires SealPlan(m, files, base, records, n, state)
    requires Chain(base.Watermarks(), records[..n]) && Replay(base, Parsed(base.Watermarks(), records[..n])).Ok?
    requires var txs := Parsed(base.Watermarks(), records[..n]);
      var t := Replay(base, txs).value;
      && NamesFit(t) && AllWidesKnown(txs) && SegmentHolds(f, Lengths(StreamsOf(base)), parts)
      && Continued(StreamsOf(base), parts, StreamsOf(t)) && ends == Lengths(StreamsOf(t))
      && added == AddedByAll(base, txs)
    ensures SealedOver(base, Parsed(base.Watermarks(), records[..n]), f, parts, ends, added)
  {
    hide Replay, Parsed, Chain, NamesFit, WidesKnown, StreamsOf, Holds, Alike, Inv, AllWidesKnown, Sound, Later;
    var txs := Parsed(base.Watermarks(), records[..n]);
    SealReady(m, files, base, records, n, state);
    ReplayKeepsInv(base, txs);
    WidesKnownAfter(base, txs);
  }

  /** Memory is what the log replays to over the sealed state. */
  ghost predicate ReplaysTo(base: StoreState, records: seq<seq<byte>>, state: StoreState) {
    && Chain(base.Watermarks(), records) && Replay(base, Parsed(base.Watermarks(), records)).Ok?
    && Alike(Replay(base, Parsed(base.Watermarks(), records)).value, state)
  }

  lemma ReplayOf(base: StoreState, records: seq<seq<byte>>, state: StoreState)
    requires ReplaysTo(base, records, state)
    ensures Chain(base.Watermarks(), records) && Replay(base, Parsed(base.Watermarks(), records)).Ok?
    ensures Alike(Replay(base, Parsed(base.Watermarks(), records)).value, state)
  {
    hide Chain, Replay, Parsed, Alike;
  }

  class Store {
    var files: Files
    var manifest: Manifest
    var wal: seq<byte>
    var state: StoreState
    var hotTail: nat
    var usable: bool
    const segment: nat
    const blockSize: u32
    ghost var base: StoreState
    ghost var records: seq<seq<byte>>
    ghost var tail: seq<byte>

    constructor (d: Image, memory: StoreState, logicalTail: nat, reserve: nat, block: u32, ghost sealed: StoreState,
                 ghost log: seq<seq<byte>>, ghost rest: seq<byte>)
      requires reserve > 0 && block > 0 && Consistent(d, sealed, log, rest)
      requires Alike(Replay(sealed, Parsed(sealed.Watermarks(), log)).value, memory)
      requires logicalTail == |Concat(log)|
      ensures Valid() && usable && Disk() == d && state == memory && files == d.files && manifest == d.manifest
    {
      hide Consistent, Alike, Replay, Parsed, Concat;
      files, manifest, wal, state, hotTail, usable := d.files, d.manifest, d.wal, memory, logicalTail, true;
      segment, blockSize := reserve, block;
      base, records, tail := sealed, log, rest;
    }

    ghost function Disk(): Image
      reads this
    {
      Image(files, manifest, wal)
    }

    /** The directory is consistent and memory is what it stands for. */
    ghost predicate Valid()
      reads this
    {
      hide Holds, Alike, Concat, Dead;
      && segment > 0 && blockSize > 0
      && Consistent(Disk(), base, records, tail)
      && Alike(Replay(base, Parsed(base.Watermarks(), records)).value, state)
      && hotTail == |Concat(records)|
    }

    /** The checks of a seal target, and the transactions it selects. A target
        ahead of the manifest and within the committed state is always found. */
    method Select(target: nat) returns (r: Result<(seq<Transaction>, nat, nat)>, ghost n: nat)
      requires Valid()
      ensures r.Ok? <==> manifest.checkpointCount < target <= |state.checkpoints|
      ensures r.Err? ==> r == Err(Format)
      ensures r.Ok? ==>
        && n == target - manifest.checkpointCount && SealPlan(manifest, files, base, records, n, state)
        && n <= |records| && Chain(base.Watermarks(), records)
        && r.value == (Parsed(base.Watermarks(), records)[..n], |Concat(records[..n])|, |Concat(records)|)
    {
      hide *;
      n := 0;
      if target <= manifest.checkpointCount { return Err(Format), n; }
      Unpack();
      ReplayOf(base, records, state);
      if target > |state.checkpoints| { return Err(Format), n; }
      var entries, logicalTail := ParseHotPrefix(wal, GeometryOf(manifest));
      ScanWhole(base.Watermarks(), records, tail);
      var found := FindTarget(entries, target, base.Watermarks(), records);
      if found.Err? { return Err(Format), n; }
      n := found.value + 1;
      PlanHolds(Disk(), base, records, tail, n, state);
      EntryAt(base.Watermarks(), records, 0, found.value);
      return Ok((TransactionsOf(entries)[..found.value + 1], entries[found.value].end, logicalTail)), n;
    }

    /** What validity says of log, manifest and memory. */
    lemma Unpack()
      requires Valid()
      ensures Inv(base) && ReplaysTo(base, records, state) && wal == Concat(records) + tail && Dead(tail)
      ensures |manifest.sizes| == STREAMS && GeometryOf(manifest) == base.Watermarks()
      ensures base.Watermarks().checkpointCount == manifest.checkpointCount
      ensures |state.checkpoints| == manifest.checkpointCount + |records|
      ensures Disk().manifest == manifest && Disk().files == files && Disk().wal == wal
      ensures segment > 0 && blockSize > 0 && hotTail == |Concat(records)|
      ensures Consistent(Disk(), base, records, tail) && Holds(manifest, files, base)
    {
      hide Holds, Current, Alike, Replay, Parsed, Concat, Chain, Dead, Inv, NamesFit, WidesKnown;
      HeldFacts(manifest, files, base);
      HeldGeometry(manifest, files, base);
      CurrentParts(wal, base.Watermarks(), records, tail);
      CommittedCount(base, records, state);
      CountIsWatermark(base);
    }

    lemma Repack()
      requires segment > 0 && blockSize > 0 && hotTail == |Concat(records)|
      requires Consistent(Image(files, manifest, wal), base, records, tail)
      requires Alike(Replay(base, Parsed(base.Watermarks(), records)).value, state)
      ensures Valid()
    {
      hide Consistent, Concat, Alike, Replay, Parsed;
    }

    /** A file no manifest names changes nothing for anyone. */
    method PutArtifact(name: Name, artifact: Artifact)
      requires Valid() && SameReferenced(manifest, files, files[name := artifact])
      modifies this`files
      ensures Valid() && files == old(files)[name := artifact]
      ensures Loadable(manifest, files) <==> Loadable(manifest, old(files))
    {
      hide *;
      Unpack();
      ReplayOf(base, records, state);
      HeldFacts(manifest, files, base);
      ghost var d0 := Disk();
      StillStands(d0, files[name := artifact], state, base, records, tail);
      LoadableFrames(manifest, files, files[name := artifact]);
      files := files[name := artifact];
      Repack();
    }

    lemma StandsNow()
      requires Valid()
      ensures Stands(Disk(), state) && NamedByGeneration(manifest) && FilesTyped(manifest, files)
    {
      hide *;
      Unpack();
      ReplayOf(base, records, state);
      HeldFacts(manifest, files, base);
      AlreadyStands(Disk(), state, base, records, tail);
    }

    /** The two artifacts of the next generation, or a stop after either. */
    method PutArtifacts(segmentFile: Artifact, routeFile: Artifact, stop: nat) returns (r: Result<()>)
      requires Valid()
      modifies this`files, this`usable
      ensures Stands(Disk(), state)
      ensures Loadable(manifest, files) <==> Loadable(manifest, old(files))
      ensures OnlyNew(old(files), files, manifest.generation + 1)
      ensures stop == 1 ==> RouteUntouched(old(files), files, manifest.generation + 1)
      ensures r.Ok? <==> stop != 1 && stop != 2
      ensures r.Ok? ==>
        && Valid() && usable == old(usable) && SameReferenced(manifest, old(files), files)
        && files == old(files)[SegmentName(manifest.generation + 1) := segmentFile][
                               RouteName(manifest.generation + 1) := routeFile]
      ensures r.Err? ==> r == Err(Io) && !usable
    {
      hide Valid, Stands, Loadable, SameReferenced, FilesTyped, NamedByGeneration, Built;
      StandsNow();
      NewFilesUnreferenced(manifest, files, segmentFile, routeFile);
      PutArtifact(SegmentName(manifest.generation + 1), segmentFile);
      StandsNow();
      if stop == 1 {
        usable := false;
        return Err(Io);
      }
      NewRouteUnreferenced(manifest, files, routeFile);
      PutArtifact(RouteName(manifest.generation + 1), routeFile);
      StandsNow();
      if stop == 2 { usable := false; return Err(Io); }
      return Ok(());
    }

    /** The publication steps. */
    method Publish(w: Written, target: nat, source: nat, logicalTail: nat, stop: nat,
                   ghost parts: seq<seq<byte>>, ghost n: nat) returns (r: Result<()>)
      requires usable && target == manifest.checkpointCount + n
      requires n <= |records| && source == |Concat(records[..n])| && logicalTail == |Concat(records)|
      requires WrittenFor(w, manifest.generation + 1, base, records, n, parts)
      requires Valid() && SealPlan(manifest, files, base, records, n, state)
      modifies this
      ensures Stands(Disk(), old(state)) && state == old(state)
      ensures Loadable(manifest, files) <==>
        Loadable(old(manifest), old(files)) && (manifest == old(manifest) || ReadsBack(old(base), w.added))
      ensures r.Ok? ==>
        && Valid() && usable && manifest.checkpointCount == target && IsSuffix(records, old(records))
      ensures r.Ok? <==> !(1 <= stop <= 4)
      ensures r.Err? ==> r == Err(Io) && !usable && (manifest == old(manifest) <==> stop < 3)
      ensures manifest != old(manifest) ==> Extended(old(manifest), manifest, source, target)
      ensures OnlyNew(old(files), files, old(manifest.generation) + 1)
      ensures stop == 1 ==> RouteUntouched(old(files), files, old(manifest.generation) + 1)
      ensures 1 <= stop <= 3 ==> wal == old(wal)
      ensures r.Ok? ==> records == old(records)[n..] && Reserves(|wal|, hotTail, segment)
      ensures hotTail <= old(hotTail)
    {
      hide Valid, Holds, Current, Alike, Replay, Parsed, Concat, Chain, SealPlan, SealedOver, Stands, WrittenFor, Dead,
        SameReferenced, FileBytes, MarkOf, Inv, NamesFit, WidesKnown, EndOf, StreamsOf, GeometryOf, FilesTyped,
        NamedByGeneration, ManifestValid, Lengths, NextManifest, Consistent, Built, RouteOf, Loadable, ReadsBack,
        Buildable, RouteBytes, AddedByAll, Extended, OnlyNew, RouteUntouched, NextSegment,
        Reserves;
      Unpack();
      ReplayOf(base, records, state);
      ghost var d0, s0, m0, rest := Disk(), base, manifest, records[n..];
      PlanFacts(manifest, files, base, records, n, state);
      WrittenRoute(w, manifest.generation + 1, base, records, n, parts);
      var generation := manifest.generation + 1;
      var segmentFile, routeFile := SegmentArtifact(w.segment), RouteArtifact(w.route);
      var meta := NextSegment(manifest, SegmentBytes(w.segment), manifest.sealedEnd + source, target, w.versions,
                              w.ends);
      var route := RouteMeta(generation, RouteName(generation), w.routeLen, |w.added.threads|, |w.added.checkpoints|,
                             w.hash);
      var next := NextManifest(manifest, meta, route, w.threads);
      MetaIs(manifest, SegmentBytes(w.segment), manifest.sealedEnd + source, target, w.versions, w.ends);
      GenerationsDiffer(manifest, meta, route, w.threads);
      NextExtends(manifest, source, SegmentBytes(w.segment), target, w.versions, w.ends, route, w.threads);

      var put := PutArtifacts(segmentFile, routeFile, stop);
      if put.Err? { return Err(Io); }

      LogSplits(base, records, n);
      PublishedHolds(m0, d0.files, files, s0, records, n, state, w, parts, meta, route);
      NextLoadable(m0, d0.files, files, s0, w.added, w.segment, meta, route, w.threads);
      manifest := next;
      CurrentParts(wal, base.Watermarks(), records, tail);
      ghost var t := Replay(base, Parsed(base.Watermarks(), records[..n])).value;
      ManifestStands(Disk(), m0, meta, route, w.threads, state, base, t, records[..n], rest, tail);
      if stop == 3 { usable := false; return Err(Io); }

      NextCount(m0, meta, route, w.threads);
      Recycle(source, logicalTail, t, n);
      if stop == 4 { usable := false; return Err(Io); }
      return Ok(());
    }

    /** The log without the records the manifest now holds: the rest of it
        continues the longer sealed state `t`. */
    method Recycle(source: nat, logicalTail: nat, ghost t: StoreState, ghost n: nat)
      requires segment > 0 && blockSize > 0 && n <= |records|
      requires source == |Concat(records[..n])| && logicalTail == |Concat(records)|
      requires records == records[..n] + records[n..]
      requires Concat(records) == Concat(records[..n]) + Concat(records[n..])
      requires wal == Concat(records) + tail && hotTail == logicalTail
      requires ReplaysTo(t, records[n..], state)
      requires Holds(manifest, files, t)
      modifies this`wal, this`hotTail, this`base, this`records, this`tail
      ensures Valid() && Stands(Disk(), state)
      ensures base == t && records == old(records)[n..] && hotTail <= old(hotTail)
      ensures Reserves(|wal|, hotTail, segment)
    {
      hide *;
      ReplayOf(t, records[n..], state);
      ghost var sealed, rest := records[..n], records[n..];
      var recycled := RecycleHotFile(wal, source, logicalTail, segment);
      RecycledIsCurrent(wal, sealed, rest, tail, recycled.value, t.Watermarks());
      wal, hotTail := recycled.value, logicalTail - source;
      base, records, tail := t, rest, recycled.value[|Concat(rest)|..];
      ConsistentIs(Image(files, manifest, wal), base, records, tail);
      Repack();
      StandsNow();
    }

    static predicate IsSuffix(a: seq<seq<byte>>, b: seq<seq<byte>>) {
      |a| <= |b| && a == b[|b| - |a|..]
    }

    /** Seals through a checkpoint count, or stops after any step: 1 segment
        file, 2 route file, 3 manifest, 4 recycled log. Wherever it stops, the
        directory stands for the committed state as it was, and loads as before
        unless the manifest names a generation that cannot be read back. A seal
        that is not stopped succeeds exactly when the store is usable, the
        target ahead of the manifest, and there is room for the generation. */
    method SealThrough(target: nat, stop: nat) returns (r: Result<()>)
      requires Valid()
      modifies this
      ensures r.Ok? <==>
        && old(usable) && old(manifest.checkpointCount) < target <= |old(state.checkpoints)|
        && RoomToSeal(old(manifest), old(base), old(records), target - old(manifest.checkpointCount), blockSize)
        && !(1 <= stop <= 4)
      ensures Stands(Disk(), old(state)) && state == old(state)
      ensures Loadable(manifest, files) <==>
        && Loadable(old(manifest), old(files))
        && (manifest == old(manifest)
            || ReadsBack(old(base), SelectedNames(old(base), old(records), target - old(manifest.checkpointCount))))
      ensures r.Ok? ==>
        && Valid() && usable && manifest.checkpointCount == target
        && target + |records| == |state.checkpoints| && IsSuffix(records, old(records))
        && Reserves(|wal|, hotTail, segment)
      ensures r == Err(RecoveryRequired) <==> !old(usable)
      ensures r == Err(Io) ==> !usable && (manifest == old(manifest) <==> stop < 3)
      ensures manifest != old(manifest) ==>
        var n := target - old(manifest.checkpointCount);
        0 <= n <= |old(records)| && Extended(old(manifest), manifest, |Concat(old(records)[..n])|, target)
      ensures OnlyNew(old(files), files, old(manifest.generation) + 1)
      ensures stop == 1 ==> RouteUntouched(old(files), files, old(manifest.generation) + 1)
      ensures 1 <= stop <= 3 ==> wal == old(wal)
      ensures r.Err? && r != Err(Io) ==> unchanged(this)
      ensures r.Err? ==> r == Err(RecoveryRequired) || r == Err(Format) || r == Err(Io)
      ensures hotTail <= old(hotTail)
    {
      hide *;
      Unpack();
      ReplayOf(base, records, state);
      AlreadyStands(Disk(), state, base, records, tail);
      NothingNew(files, manifest.generation + 1);
      if !usable { return Err(RecoveryRequired); }
      var selected;
      ghost var n;
      selected, n := Select(target);
      if selected.Err? { return Err(Format); }
      ghost var parts;
      var written;
      written, parts := WriteGeneration(manifest, selected.value.0, selected.value.1, state, blockSize,
                                        files, base, records, n);
      if written.Err? { return Err(Format); }
      SealReady(manifest, files, base, records, n, state);
      SelectedAre(manifest, base, records, n, blockSize);
      NamesOfWritten(written.value, manifest.generation + 1, base, records, n, parts);
      r := Publish(written.value, target, selected.value.1, selected.value.2, stop, parts, n);
      if r.Ok? { Unpack(); }
    }
  }

  /** The first `n` transactions of a log. */
  ghost function Selected(base: StoreState, records: seq<seq<byte>>, n: int): seq<Transaction> {
    if 0 <= n <= |records| && Chain(base.Watermarks(), records) then Parsed(base.Watermarks(), records)[..n] else []
  }

  /** The names and requests a seal of them adds. */
  ghost function SelectedNames(base: StoreState, records: seq<seq<byte>>, n: int): Additions {
    AddedByAll(base, Selected(base, records, n))
  }

  /** There is room for one more generation: the first `n` transactions go to a
      segment, their names to a route file, and the counters go on. */
  ghost predicate RoomToSeal(m: Manifest, base: StoreState, records: seq<seq<byte>>, n: int, blockSize: nat) {
    var txs := Selected(base, records, n);
    && 0 <= n <= |records| && m.generation < U64_MAX && m.sealedEnd + |Concat(records[..n])| <= U64_MAX
    && Inv(base) && (forall t :: t in txs ==> Sound(t)) && Replay(base, txs).Ok?
    && Sealable(base, txs, blockSize) && Buildable(AddedByAll(base, txs))
  }

  lemma RoomToSealIs(m: Manifest, base: StoreState, records: seq<seq<byte>>, n: nat, blockSize: nat,
                     txs: seq<Transaction>)
    requires n <= |records| && Chain(base.Watermarks(), records) && txs == Parsed(base.Watermarks(), records)[..n]
    requires Inv(base) && (forall t :: t in txs ==> Sound(t)) && Replay(base, txs).Ok?
    ensures RoomToSeal(m, base, records, n, blockSize) <==>
      && m.generation < U64_MAX && m.sealedEnd + |Concat(records[..n])| <= U64_MAX
      && Sealable(base, txs, blockSize) && Buildable(AddedByAll(base, txs))
  {
    hide Inv, Sound, Replay, Parsed, Chain, Concat, Sealable, Buildable, AddedByAll;
  }

  lemma SelectedAre(m: Manifest, base: StoreState, records: seq<seq<byte>>, n: nat, blockSize: nat)
    requires RoomToSeal(m, base, records, n, blockSize)
    ensures m.generation < U64_MAX
  {
    hide Inv, Sound, Replay, Parsed, Chain, Concat, Sealable, Buildable, AddedByAll;
  }

  lemma NamesOfWritten(w: Written, generation: nat, base: StoreState, records: seq<seq<byte>>, n: nat,
                       parts: seq<seq<byte>>)
    requires WrittenFor(w, generation, base, records, n, parts) && Chain(base.Watermarks(), records)
    requires Parsed(base.Watermarks(), records)[..n] == Parsed(base.Watermarks(), records[..n])
    ensures w.added == SelectedNames(base, records, n)
  {
    hide Replay, Parsed, Chain, NamesFit, AddedByAll, Inv, WidesKnown, StreamsOf, SegmentHolds, Continued, Lengths;
  }

  /** Segment, new thread count, stream ends and route of a generation. */
  datatype Written = Written(
    segment: SegmentFile, threads: nat, versions: nat, ends: seq<nat>, added: Additions,
    route: BuiltRoute, routeLen: nat, hash: u64)

  ghost predicate WrittenFor(w: Written, generation: nat, base: StoreState, records: seq<seq<byte>>, n: nat,
                             parts: seq<seq<byte>>)
  {
    && n <= |records| && NamesFit(base) && Chain(base.Watermarks(), records[..n])
    && RouteWritten(w, generation)
    && var txs := Parsed(base.Watermarks(), records[..n]);
       Replay(base, txs).Ok?
       && SealedOver(base, txs, w.segment, parts, w.ends, w.added)
       && w.threads == |Replay(base, txs).value.threads| && w.versions == |Replay(base, txs).value.versions|
  }

  predicate RouteWritten(w: Written, generation: nat) {
    && generation <= U64_MAX && Buildable(w.added) && w.route == RouteOf(generation, w.added)
    && w.routeLen == |RouteBytes(w.route)| && w.hash == IndexHash(Tail(w.route))
  }

  /** Writing a generation: exactly when there is room for it. */
  method WriteGeneration(m: Manifest, txs: seq<Transaction>, source: nat, state: StoreState, blockSize: u32,
                         ghost files: Files, ghost base: StoreState, ghost records: seq<seq<byte>>, ghost n: nat)
    returns (r: Result<Written>, ghost parts: seq<seq<byte>>)
    requires blockSize > 0
    requires Chain(base.Watermarks(), records) && n <= |records| && txs == Parsed(base.Watermarks(), records)[..n]
    requires source == |Concat(records[..n])|
    requires SealPlan(m, files, base, records, n, state)
    ensures r.Ok? <==> RoomToSeal(m, base, records, n, blockSize)
    ensures r.Ok? ==> WrittenFor(r.value, m.generation + 1, base, records, n, parts)
  {
    hide *;
    parts := [];
    PlanFacts(m, files, base, records, n, state);
    SealReady(m, files, base, records, n, state);
    RoomToSealIs(m, base, records, n, blockSize, txs);
    if m.generation + 1 > U64_MAX { return Err(Format), parts; }
    var sealed;
    sealed, parts := SealGeneration(txs, state, m.sizes, m.threadCount, blockSize, base);
    if sealed.Err? { return Err(Format), parts; }
    if m.sealedEnd + source > U64_MAX { return Err(Format), parts; }
    var built := BuildRouteFile(m.generation + 1, sealed.value.2);
    if built.Err? { return Err(Format), parts; }
    var ends := StreamEnds(sealed.value.0, m.sizes, parts, StreamsOf(base), StreamsOf(Replay(base, txs).value));
    SealDone(m, files, base, records, n, state, sealed.value.0, parts, ends, sealed.value.2);
    LastVersion(base, records, n);
    BuildableNames(sealed.value.2);
    var written := Written(sealed.value.0, sealed.value.1, txs[|txs| - 1].versionCount, ends, sealed.value.2,
                           RouteOf(m.generation + 1, sealed.value.2), |built.value.0|, built.value.1);
    BuiltFits(written.route);
    RouteIsWritten(written, m.generation + 1);
    WrittenIs(written, m.generation + 1, base, records, n, parts);
    return Ok(written), parts;
  }

  lemma BuiltFits(route: Route)
    requires Built(route)
    ensures RouteFits(route)
  {
    hide RouteFits, KeysLong;
  }

  lemma RouteIsWritten(w: Written, generation: u64)
    requires Buildable(w.added) && NamesShort(w.added) && w.route == RouteOf(generation, w.added)
    requires Built(RouteOf(generation, w.added)) && RouteFits(RouteOf(generation, w.added))
    requires w.routeLen == |RouteBytes(RouteOf(generation, w.added))|
    requires w.hash == IndexHash(Tail(RouteOf(generation, w.added)))
    ensures RouteWritten(w, generation)
  {
    hide Buildable, RouteOf, RouteBytes, Built, NamesShort, Tail, IndexHash, RouteFits;
  }

  /** Stopping anywhere and opening again: a working store in the same state,
      exactly when the directory can be read back and every version of the state
      has a 64-bit length. */
  method Reopen(d: Image, segment: nat, blockSize: u32, granted: bool,
                ghost c: StoreState) returns (store: Option<Store>)
    requires segment > 0 && blockSize > 0 && Stands(d, c)
    ensures store.Some? <==> Loadable(d.manifest, d.files) && RootsFit(c)
    ensures store.Some? ==>
      && fresh(store.value) && store.value.Valid() && store.value.usable
      && store.value.state.checkpoints == c.checkpoints && Alike(store.value.state, c)
      && (forall k :: CheckpointBytes(store.value.state, k) == CheckpointBytes(c, k))
      && store.value.manifest == d.manifest && Swept(d.manifest, d.files, store.value.files, granted)
  {
    hide *;
    ghost var s, records, tail;
    var loaded, after;
    loaded, after, s, records, tail := Open(d, segment, granted, 0, c);
    if loaded.Err? { return None; }
    AlikeMeansTheSame(loaded.value.0, c);
    ConsistentReplays(after, s, records, tail);
    AlikeTurns(Replay(s, Parsed(s.Watermarks(), records)).value, c, loaded.value.0);
    var reopened := new Store(after, loaded.value.0, loaded.value.1, segment, blockSize, s, records, tail);
    return Some(reopened);
  }

  lemma ConsistentReplays(d: Image, s: StoreState, records: seq<seq<byte>>, tail: seq<byte>)
    requires Consistent(d, s, records, tail)
    ensures Chain(s.Watermarks(), records) && Replay(s, Parsed(s.Watermarks(), records)).Ok?
  {
    hide Holds, Replay, Parsed, Chain, Concat, Dead;
  }

  lemma AlikeTurns(a: StoreState, b: StoreState, c: StoreState)
    requires Alike(a, b) && Alike(c, b)
    ensures Alike(a, c)
  {
  }

  lemma StateInv(store: Store)
    requires store.Valid()
    ensures Inv(store.state)
  {
    hide *;
    store.Unpack();
    ReplayOf(store.base, store.records, store.state);
    ReplayWatermarks(store.base, store.records);
    AlikeInv(Replay(store.base, Parsed(store.base.Watermarks(), store.records)).value, store.state);
  }

  lemma AlreadyStands(d: Image, c: StoreState, s: StoreState, records: seq<seq<byte>>, tail: seq<byte>)
    requires Consistent(d, s, records, tail) && Alike(Replay(s, Parsed(s.Watermarks(), records)).value, c)
    ensures Stands(d, c)
  {
    hide Holds, Current, Alike, Replay, Parsed;
    assert StandsAs(d, c, s, [], records, tail);
  }

  lemma CurrentParts(wal: seq<byte>, g: Geometry, records: seq<seq<byte>>, tail: seq<byte>)
    requires Current(wal, g, records, tail)
    ensures wal == Concat(records) + tail && Chain(g, records) && Dead(tail)
  {
  }

  lemma NextCount(m: Manifest, meta: SegmentMeta, route: RouteMeta, threads: nat)
    ensures NextManifest(m, meta, route, threads).checkpointCount == meta.checkpointEnd
  {
  }

  lemma ConsistentIs(d: Image, s: StoreState, records: seq<seq<byte>>, tail: seq<byte>)
    requires Holds(d.manifest, d.files, s) && Current(d.wal, s.Watermarks(), records, tail)
    requires Chain(s.Watermarks(), records) && Replay(s, Parsed(s.Watermarks(), records)).Ok?
    ensures Consistent(d, s, records, tail)
  {
    hide Holds, Current, Replay, Parsed, Chain;
  }

  lemma CountIsWatermark(s: StoreState)
    requires Inv(s)
    ensures s.Watermarks().checkpointCount == |s.checkpoints|
  {
  }

  lemma PlanHolds(d: Image, base: StoreState, records: seq<seq<byte>>, tail: seq<byte>, n: nat, state: StoreState)
    requires Consistent(d, base, records, tail) && 0 < n <= |records|
    requires Alike(Replay(base, Parsed(base.Watermarks(), records)).value, state)
    ensures SealPlan(d.manifest, d.files, base, records, n, state)
  {
    hide Holds, Current, Alike, Replay, Parsed, Chain, Inv, NamesFit, WidesKnown;
    HeldFacts(d.manifest, d.files, base);
    HeldGeometry(d.manifest, d.files, base);
    CurrentParts(d.wal, base.Watermarks(), records, tail);
  }

  lemma PlanFacts(m: Manifest, files: Files, base: StoreState, records: seq<seq<byte>>, n: nat, state: StoreState)
    requires SealPlan(m, files, base, records, n, state)
    ensures Inv(base) && NamesFit(base) && m.sizes == Lengths(StreamsOf(base)) && |m.sizes| == STREAMS
    ensures m.threadCount == |base.threads| && m.versionCount == |base.versions|
    ensures m.checkpointCount == |base.checkpoints|
    ensures Chain(base.Watermarks(), records) && Replay(base, Parsed(base.Watermarks(), records)).Ok?
    ensures GeometryOf(m) == base.Watermarks() && 0 < n <= |records|
    ensures FilesTyped(m, files) && NamedByGeneration(m) && ManifestValid(m, files) && Holds(m, files, base)
  {
    hide Alike, Replay, Parsed, Chain, Inv, NamesFit, WidesKnown, StreamsOf, Holds;
    HeldFacts(m, files, base);
  }

  lemma {:induction false} EndIsLast(g: Geometry, records: seq<seq<byte>>)
    requires Chain(g, records) && records != []
    ensures EndOf(g, records) == Parsed(g, records)[|records| - 1].After()
    decreases |records|
  {
    hide ParseTransaction;
    if |records| > 1 { EndIsLast(ParseTransaction(records[0], Some(g)).value.After(), records[1..]); }
  }

  /** The last sealed transaction states the version count of the result. */
  lemma LastVersion(base: StoreState, records: seq<seq<byte>>, n: nat)
    requires Inv(base) && Chain(base.Watermarks(), records) && 0 < n <= |records|
    requires Replay(base, Parsed(base.Watermarks(), records)).Ok?
    requires Chain(base.Watermarks(), records[..n])
    ensures var txs := Parsed(base.Watermarks(), records[..n]);
      Replay(base, txs).Ok? && txs[n - 1].versionCount == |Replay(base, txs).value.versions|
  {
    hide Inv, Chain, Replay, Parsed, EndOf;
    LogSplits(base, records, n);
    EndIsLast(base.Watermarks(), records[..n]);
  }

  lemma EntryForNew(m: Manifest, files: Files, w: Written, meta: SegmentMeta, route: RouteMeta)
    requires m.generation < U64_MAX && RouteWritten(w, m.generation + 1)
    requires meta == SegmentMeta(m.generation + 1, SegmentName(m.generation + 1), SegmentBytes(w.segment), m.sealedEnd,
                                 meta.walEnd, m.checkpointCount, meta.checkpointEnd, m.versionCount, meta.versionEnd,
                                 m.sizes, meta.ends)
    requires |meta.ends| == STREAMS
    requires route == RouteMeta(m.generation + 1, RouteName(m.generation + 1), w.routeLen,
                                |w.added.threads|, |w.added.checkpoints|, w.hash)
    requires meta.file in files && files[meta.file] == SegmentArtifact(w.segment)
    requires route.file in files && files[route.file] == RouteArtifact(w.route)
    ensures EntryValid(MarkOf(m), meta, route, files) && w.route.requests == w.added.requests
  {
    hide RouteBytes, RouteFileValid, IndexHash, Tail, Sort, KeysFit;
    CountsKept(w.added);
    BuiltIsValid(w.route, route.generation, route.threadCount, route.checkpointCount, route.hash);
  }

  lemma PublishedHolds(m: Manifest, before: Files, files: Files, base: StoreState, records: seq<seq<byte>>, n: nat,
                       state: StoreState, w: Written, parts: seq<seq<byte>>, meta: SegmentMeta, route: RouteMeta)
    requires m.generation < U64_MAX && n <= |records| && Chain(base.Watermarks(), records[..n])
    requires Replay(base, Parsed(base.Watermarks(), records[..n])).Ok?
    requires meta == NextSegment(m, SegmentBytes(w.segment), meta.walEnd, m.checkpointCount + n, w.versions, w.ends)
    requires route == RouteMeta(m.generation + 1, RouteName(m.generation + 1), w.routeLen,
                                |w.added.threads|, |w.added.checkpoints|, w.hash)
    requires files == before[meta.file := SegmentArtifact(w.segment)][route.file := RouteArtifact(w.route)]
    requires WrittenFor(w, m.generation + 1, base, records, n, parts)
    requires SealPlan(m, before, base, records, n, state)
    ensures Holds(NextManifest(m, meta, route, w.threads), files,
                  Replay(base, Parsed(base.Watermarks(), records[..n])).value)
  {
    hide *;
    PlanFacts(m, before, base, records, n, state);
    WrittenFacts(w, m.generation + 1, base, records, n, parts);
    MetaIs(m, SegmentBytes(w.segment), meta.walEnd, m.checkpointCount + n, w.versions, w.ends);
    NewFilesUnreferenced(m, before, SegmentArtifact(w.segment), RouteArtifact(w.route));
    HoldsFrames(m, before, files, base);
    var txs := Parsed(base.Watermarks(), records[..n]);
    EndsCounted(base, txs, w, parts);
    EntryForNew(m, files, w, meta, route);
    assert SegmentName(m.generation + 1) != RouteName(m.generation + 1);
    NextHolds(m, files, base, txs, w.segment, parts, w.added, meta, route, w.threads);
  }

  /** What a written generation says of its route. */
  lemma WrittenRoute(w: Written, generation: nat, base: StoreState, records: seq<seq<byte>>, n: nat,
                     parts: seq<seq<byte>>)
    requires WrittenFor(w, generation, base, records, n, parts)
    ensures generation <= U64_MAX && Buildable(w.added) && NamesShort(w.added)
    ensures w.route == RouteOf(generation, w.added)
    ensures Built(RouteOf(generation, w.added))
  {
    hide SealedOver, Replay, Parsed, Chain, NamesFit, RouteOf, RouteBytes, Tail, NamesShort, KeysFit, RecordsOk, Built;
  }

  lemma GenerationsDiffer(m: Manifest, meta: SegmentMeta, route: RouteMeta, threads: nat)
    requires meta.generation == m.generation + 1
    ensures NextManifest(m, meta, route, threads) != m
  {
  }

  lemma MetaIs(m: Manifest, bytes: nat, walEnd: nat, target: nat, versions: nat, ends: seq<nat>)
    ensures NextSegment(m, bytes, walEnd, target, versions, ends)
         == SegmentMeta(m.generation + 1, SegmentName(m.generation + 1), bytes, m.sealedEnd, walEnd,
                        m.checkpointCount, target, m.versionCount, versions, m.sizes, ends)
  {
  }

  lemma WrittenFacts(w: Written, generation: nat, base: StoreState, records: seq<seq<byte>>, n: nat,
                     parts: seq<seq<byte>>)
    requires WrittenFor(w, generation, base, records, n, parts)
    ensures n <= |records| && NamesFit(base) && Chain(base.Watermarks(), records[..n]) && RouteWritten(w, generation)
    ensures var txs := Parsed(base.Watermarks(), records[..n]);
      && |txs| == n && Replay(base, txs).Ok? && SealedOver(base, txs, w.segment, parts, w.ends, w.added)
      && w.threads == |Replay(base, txs).value.threads| && w.versions == |Replay(base, txs).value.versions|
  {
    hide SealedOver, Replay, Parsed, Chain, NamesFit, RouteWritten;
  }

  lemma WrittenIs(w: Written, generation: nat, base: StoreState, records: seq<seq<byte>>, n: nat, parts: seq<seq<byte>>)
    requires n <= |records| && NamesFit(base) && Chain(base.Watermarks(), records[..n]) && RouteWritten(w, generation)
    requires var txs := Parsed(base.Watermarks(), records[..n]);
      && Replay(base, txs).Ok? && SealedOver(base, txs, w.segment, parts, w.ends, w.added)
      && w.threads == |Replay(base, txs).value.threads| && w.versions == |Replay(base, txs).value.versions|
    ensures WrittenFor(w, generation, base, records, n, parts)
  {
    hide SealedOver, Replay, Parsed, Chain, NamesFit, RouteWritten;
  }

  lemma EndsCounted(base: StoreState, txs: seq<Transaction>, w: Written, parts: seq<seq<byte>>)
    requires NamesFit(base) && Replay(base, txs).Ok? && SealedOver(base, txs, w.segment, parts, w.ends, w.added)
    ensures |w.ends| == STREAMS
  {
  }
}