/** The manifest: which segment and route files are the store, and the checks
    a loaded manifest must pass against the files on disk. */
module Manifests {
  import opened Wrappers
  import opened Bytes
  import opened Format
  import opened Model
  import opened Segment
  import opened Columns
  import opened BlockReader
  import opened RouteFile
  import opened Sealing
  import opened Pruning
  import opened Deletion
  import opened Transactions
  import opened Materialize

  /** Artifacts are named after the generation that wrote them. */
  datatype Name = SegmentName(generation: nat) | RouteName(generation: nat)

  datatype Artifact = SegmentArtifact(segment: SegmentFile) | RouteArtifact(route: BuiltRoute)

  /** Length in bytes of a segment file. */
  const SegmentBytes: SegmentFile -> nat

  function FileBytes(a: Artifact): nat {
    match a
    case SegmentArtifact(f) => SegmentBytes(f)
    case RouteArtifact(route) => |RouteBytes(route)|
  }

  datatype SegmentMeta = SegmentMeta(
    generation: nat, file: Name, bytes: nat, walStart: nat, walEnd: nat,
    checkpointStart: nat, checkpointEnd: nat, versionStart: nat, versionEnd: nat,
    starts: seq<nat>, ends: seq<nat>)

  datatype RouteMeta = RouteMeta(
    generation: nat, file: Name, bytes: nat, threadCount: nat, checkpointCount: nat, hash: u64)

  datatype Manifest = Manifest(
    generation: nat, sealedEnd: nat, checkpointCount: nat, versionCount: nat, threadCount: nat, sizes: seq<nat>,
    segments: seq<SegmentMeta>, routes: seq<RouteMeta>,
    tombstones: seq<Key>, retired: seq<Retired>)

  type Files = map<Name, Artifact>

  function Zeros(): (r: seq<nat>)
    ensures |r| == STREAMS && forall id :: 0 <= id < STREAMS ==> r[id] == 0
  {
    seq(STREAMS, _ => 0)
  }

  /** Running totals at the boundary before segment `j`. */
  datatype Mark = Mark(generation: nat, wal: nat, checkpoints: nat, versions: nat, streams: seq<nat>)

  function MarkAt(segments: seq<SegmentMeta>, j: nat): Mark
    requires j <= |segments|
  {
    if j == 0 then Mark(0, 0, 0, 0, Zeros()) else MarkAfter(segments[j - 1])
  }

  function MarkAfter(s: SegmentMeta): Mark {
    Mark(s.generation, s.walEnd, s.checkpointEnd, s.versionEnd, s.ends)
  }

  /** One segment and its route continue what is before them and are on disk. */
  predicate EntryValid(before: Mark, segment: SegmentMeta, route: RouteMeta, files: Files) {
    && segment.generation > before.generation && segment.generation == route.generation
    && segment.walStart == before.wal && segment.checkpointStart == before.checkpoints
    && segment.versionStart == before.versions && segment.starts == before.streams && |segment.ends| == STREAMS
    && segment.file in files && FileBytes(files[segment.file]) == segment.bytes
    && route.file in files && FileBytes(files[route.file]) == route.bytes
    && RouteValid(route, files[route.file])
  }

  /** The route file says of itself what the manifest says of it. */
  predicate RouteValid(route: RouteMeta, file: Artifact) {
    && file.RouteArtifact?
    && RouteFileValid(RouteBytes(file.route), route.generation, route.threadCount, route.checkpointCount, route.hash)
  }

  function RouteCheckpoints(routes: seq<RouteMeta>): nat {
    if routes == [] then 0 else RouteCheckpoints(routes[..|routes| - 1]) + routes[|routes| - 1].checkpointCount
  }

  function RouteThreads(routes: seq<RouteMeta>): nat {
    if routes == [] then 0 else RouteThreads(routes[..|routes| - 1]) + routes[|routes| - 1].threadCount
  }

  predicate ContinuesAt(m: Manifest, files: Files, j: nat)
    requires j < |m.segments| == |m.routes|
  {
    EntryValid(MarkAt(m.segments, j), m.segments[j], m.routes[j], files)
  }

  predicate ManifestValid(m: Manifest, files: Files) {
    && |m.sizes| == STREAMS && |m.segments| == |m.routes|
    && (forall j :: 0 <= j < |m.segments| ==> ContinuesAt(m, files, j))
    && MarkAt(m.segments, |m.segments|) == Mark(m.generation, m.sealedEnd, m.checkpointCount, m.versionCount, m.sizes)
    && m.checkpointCount == RouteCheckpoints(m.routes) && m.threadCount == RouteThreads(m.routes)
  }

  method ValidateEntry(before: Mark, segment: SegmentMeta, route: RouteMeta, files: Files) returns (r: Result<Mark>)
    ensures r.Ok? <==> EntryValid(before, segment, route, files)
    ensures r.Ok? ==> r.value == MarkAfter(segment)
  {
    hide RouteFileValid, RouteBytes, RouteFits, KeysLong;
    if segment.generation <= before.generation || segment.generation != route.generation { return Err(Format); }
    if segment.walStart != before.wal || segment.checkpointStart != before.checkpoints
       || segment.versionStart != before.versions || segment.starts != before.streams || |segment.ends| != STREAMS {
      return Err(Format);
    }
    if segment.file !in files || route.file !in files { return Err(Format); }
    if FileBytes(files[segment.file]) != segment.bytes || FileBytes(files[route.file]) != route.bytes {
      return Err(Format);
    }
    if !files[route.file].RouteArtifact? { return Err(Format); }
    var bytes := RouteBytes(files[route.file].route);
    var valid := ValidateRouteFile(bytes, route.generation, route.threadCount, route.checkpointCount, route.hash);
    if valid.Err? { return Err(Format); }
    return Ok(MarkAfter(segment));
  }

  lemma NoRoutes(routes: seq<RouteMeta>)
    ensures RouteCheckpoints(routes[..0]) == 0 && RouteThreads(routes[..0]) == 0
  {
  }

  lemma RoutesStep(routes: seq<RouteMeta>, j: nat)
    requires j < |routes|
    ensures RouteCheckpoints(routes[..j + 1]) == RouteCheckpoints(routes[..j]) + routes[j].checkpointCount
    ensures RouteThreads(routes[..j + 1]) == RouteThreads(routes[..j]) + routes[j].threadCount
  {
    assert routes[..j + 1][..j] == routes[..j];
  }

  /** The checks of a loaded manifest against the directory. */
  method ValidateManifest(m: Manifest, files: Files) returns (r: Result<()>)
    ensures r.Ok? <==> ManifestValid(m, files)
  {
    hide EntryValid, MarkAfter, RouteCheckpoints, RouteThreads;
    if |m.sizes| != STREAMS || |m.segments| != |m.routes| { return Err(Format); }
    var mark := Mark(0, 0, 0, 0, Zeros());
    var routeCheckpoints, routeThreads := 0, 0;
    NoRoutes(m.routes);
    for j := 0 to |m.segments|
      invariant mark == MarkAt(m.segments, j)
      invariant forall i :: 0 <= i < j ==> ContinuesAt(m, files, i)
      invariant routeCheckpoints == RouteCheckpoints(m.routes[..j]) && routeThreads == RouteThreads(m.routes[..j])
    {
      RoutesStep(m.routes, j);
      var next := ValidateEntry(mark, m.segments[j], m.routes[j], files);
      assert next.Ok? <==> ContinuesAt(m, files, j);
      if next.Err? { return Err(Format); }
      mark := next.value;
      routeCheckpoints := routeCheckpoints + m.routes[j].checkpointCount;
      routeThreads := routeThreads + m.routes[j].threadCount;
    }
    assert m.routes[..|m.segments|] == m.routes;
    return Check(mark == Mark(m.generation, m.sealedEnd, m.checkpointCount, m.versionCount, m.sizes)
                 && m.checkpointCount == routeCheckpoints && m.threadCount == routeThreads);
  }

  // What a manifest with its files stands for

  predicate FilesTyped(m: Manifest, files: Files) {
    && (forall j :: 0 <= j < |m.segments| ==> m.segments[j].file in files && files[m.segments[j].file].SegmentArtifact?)
    && (forall j :: 0 <= j < |m.routes| ==> m.routes[j].file in files && files[m.routes[j].file].RouteArtifact?)
  }

  function SegmentFiles(m: Manifest, files: Files): (r: seq<SegmentFile>)
    requires FilesTyped(m, files)
    ensures |r| == |m.segments|
  {
    seq(|m.segments|, j requires 0 <= j < |m.segments| => files[m.segments[j].file].segment)
  }

  function StartsOf(m: Manifest): (r: seq<seq<nat>>)
    ensures |r| == |m.segments| + 1
  {
    seq(|m.segments| + 1, j requires 0 <= j <= |m.segments| => MarkAt(m.segments, j).streams)
  }

  /** Request records of all routes in order. */
  function RouteRequests(routes: seq<RouteMeta>, files: Files): seq<RequestRecord>
    requires forall j :: 0 <= j < |routes| ==> routes[j].file in files && files[routes[j].file].RouteArtifact?
  {
    if routes == [] then []
    else RouteRequests(routes[..|routes| - 1], files) + files[routes[|routes| - 1].file].route.requests
  }

  function GeometryOf(m: Manifest): Geometry
    requires |m.sizes| == STREAMS
  {
    Geometry(m.sizes[PAYLOAD], m.sizes[NODE_KIND], m.sizes[WIDE_KIND], m.versionCount, m.checkpointCount)
  }

  /** Where the last seal began; none before the first. */
  function PreviousGeometry(m: Manifest): Option<Geometry>
    requires m.segments != [] ==> |m.segments[|m.segments| - 1].starts| == STREAMS
  {
    if m.segments == [] then None
    else
      var last := m.segments[|m.segments| - 1];
      Some(Geometry(last.starts[PAYLOAD], last.starts[NODE_KIND], last.starts[WIDE_KIND],
                    last.versionStart, last.checkpointStart))
  }

  /** Files are named after their generation, and none is from the future. */
  predicate NamedByGeneration(m: Manifest) {
    && (forall j :: 0 <= j < |m.segments| ==>
          m.segments[j].file == SegmentName(m.segments[j].generation) && m.segments[j].generation <= m.generation)
    && (forall j :: 0 <= j < |m.routes| ==>
          m.routes[j].file == RouteName(m.routes[j].generation) && m.routes[j].generation <= m.generation)
  }

  /** Every route file gives its requests back, and no request is listed as
      retired: what can be told from the directory alone. */
  predicate Loadable(m: Manifest, files: Files) {
    && FilesTyped(m, files)
    && (forall j :: 0 <= j < |m.routes| ==> Readable(files[m.routes[j].file].route))
    && LedgerApart(RouteRequests(m.routes, files), m.retired)
  }

  predicate LedgerApart(requests: seq<RequestRecord>, retired: seq<Retired>) {
    forall i, j :: 0 <= i < |requests| && 0 <= j < |retired| ==> requests[i].key != retired[j].key
  }

  /** Manifest and files hold exactly the state `s`. */
  ghost predicate Holds(m: Manifest, files: Files, s: StoreState) {
    hide ManifestValid, Inv, WidesKnown, TableFits;
    && ManifestValid(m, files) && FilesTyped(m, files) && NamedByGeneration(m)
    && Inv(s) && NamesFit(s) && WidesKnown(s.wides)
    && SealedAs(SegmentFiles(m, files), StartsOf(m), StreamsOf(s))
    && m.sizes == Lengths(StreamsOf(s))
    && m.versionCount == |s.versions| && m.threadCount == |s.threads| && m.checkpointCount == |s.checkpoints|
    && Lists(Lifecycle(m.tombstones, m.retired, RouteRequests(m.routes, files)), s)
  }

  lemma HeldGeometry(m: Manifest, files: Files, s: StoreState)
    requires Holds(m, files, s)
    ensures |m.sizes| == STREAMS && GeometryOf(m) == s.Watermarks()
  {
    hide SealedAs, ManifestValid, Lists, StreamsOf, Map, Inv, Loadable;
    NodeColumns(s);
    Base(s);
  }

  /** The ledger of a held state can be told from the lists. */
  lemma HeldLedger(m: Manifest, files: Files, s: StoreState)
    requires Holds(m, files, s)
    ensures LedgerApart(RouteRequests(m.routes, files), m.retired) <==> Disjoint(s)
  {
    hide SealedAs, ManifestValid, StreamsOf, Inv, NamesFit, WidesKnown;
    var requests := RouteRequests(m.routes, files);
    if !Disjoint(s) {
      var k :| k in s.requests && k in s.retired;
      var i :| 0 <= i < |requests| && requests[i].key == k;
      var j :| 0 <= j < |m.retired| && m.retired[j].key == k;
    }
  }

  lemma Base(s: StoreState)
    requires Inv(s)
    ensures s.base == EMPTY_GEOMETRY
  {
  }

  // Reclaiming and adding files

  /** Files the manifest names. */
  predicate Referenced(m: Manifest, name: Name) {
    || (exists j :: 0 <= j < |m.segments| && m.segments[j].file == name)
    || (exists j :: 0 <= j < |m.routes| && m.routes[j].file == name)
  }

  /** The two directories agree on every file the manifest names. */
  ghost predicate SameReferenced(m: Manifest, a: Files, b: Files) {
    forall name :: Referenced(m, name) ==> name in a && name in b && a[name] == b[name]
  }

  lemma {:induction false} SameRequests(m: Manifest, a: Files, b: Files, n: nat)
    requires n <= |m.routes| && SameReferenced(m, a, b)
    requires forall j :: 0 <= j < n ==> m.routes[j].file in a && a[m.routes[j].file].RouteArtifact?
    ensures forall j :: 0 <= j < n ==> m.routes[j].file in b && b[m.routes[j].file] == a[m.routes[j].file]
    ensures RouteRequests(m.routes[..n], a) == RouteRequests(m.routes[..n], b)
  {
    forall j | 0 <= j < n
      ensures m.routes[j].file in b && b[m.routes[j].file] == a[m.routes[j].file]
    {
      assert Referenced(m, m.routes[j].file);
    }
    if n > 0 {
      SameRequests(m, a, b, n - 1);
      assert m.routes[..n][..n - 1] == m.routes[..n - 1];
    }
  }

  /** Files the manifest does not name do not matter. */
  lemma HoldsFrames(m: Manifest, a: Files, b: Files, s: StoreState)
    requires Holds(m, a, s) && SameReferenced(m, a, b)
    ensures Holds(m, b, s)
  {
    hide SealedAs, Inv, NamesFit, WidesKnown, StreamsOf, Lists, MarkAt, RouteCheckpoints, RouteThreads, RouteValid,
      FileBytes, Built;
    forall j | 0 <= j < |m.segments|
      ensures ContinuesAt(m, b, j)
      ensures m.segments[j].file in b && b[m.segments[j].file] == a[m.segments[j].file]
    {
      assert ContinuesAt(m, a, j);
      assert Referenced(m, m.segments[j].file) && Referenced(m, m.routes[j].file);
    }
    SameRequests(m, a, b, |m.routes|);
    assert m.routes[..|m.routes|] == m.routes;
    assert SegmentFiles(m, a) == SegmentFiles(m, b);
  }

  /** Nor do they matter to whether it can be loaded. */
  lemma LoadableFrames(m: Manifest, a: Files, b: Files)
    requires FilesTyped(m, a) && SameReferenced(m, a, b)
    ensures Loadable(m, a) <==> Loadable(m, b)
  {
    hide Readable, LedgerApart, RouteRequests;
    forall j | 0 <= j < |m.segments|
      ensures m.segments[j].file in b && b[m.segments[j].file] == a[m.segments[j].file]
    {
      assert Referenced(m, m.segments[j].file);
    }
    SameRequests(m, a, b, |m.routes|);
    assert m.routes[..|m.routes|] == m.routes;
  }
}
