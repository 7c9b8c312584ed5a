/** Reading checkpoints straight from sealed columns, and a writable store whose
    sealed base is lazy and whose later commits lie in an overlay. */
module LazyStore {
  import opened Wrappers
  import opened Bytes
  import opened Format
  import opened Dag
  import opened Model
  import opened TransactionFormat
  import opened Transactions
  import opened Segment
  import opened Columns
  import opened ColumnReader
  import opened BlockReader
  import opened Materialize
  import opened Compaction
  import opened HotLog
  import opened Writer

  /** The reader's streams are those of a sealed state. */
  ghost predicate Reads(r: LazyReader, s: StoreState)
    reads r
  {
    r.Valid() && NamesFit(s) && r.streams == StreamsOf(s) && s.base == EMPTY_GEOMETRY
  }

  method ReadRange(r: LazyReader, id: nat, start: nat, length: nat, ghost s: StoreState) returns (bytes: seq<byte>)
    requires Reads(r, s) && id < STREAMS && start + length <= |StreamsOf(s)[id]|
    modifies r`cache, r`order, r`entries, r`entryOrder
    ensures Reads(r, s) && bytes == StreamsOf(s)[id][start..start + length]
  {
    hide NamesFit, StreamsOf, LazyReader.Valid;
    var read := r.AppendStreamRange(id, start, length, []);
    bytes := read.value;
    assert [] + StreamsOf(s)[id][start..start + length] == StreamsOf(s)[id][start..start + length];
  }

  /** One 64-bit column value. */
  method ReadU64(r: LazyReader, id: nat, index: nat, ghost s: StoreState, ghost column: seq<u64>) returns (value: u64)
    requires Reads(r, s) && id < STREAMS && StreamsOf(s)[id] == Col64(column) && index < |column|
    modifies r`cache, r`order, r`entries, r`entryOrder
    ensures Reads(r, s) && value == column[index]
  {
    hide NamesFit, StreamsOf, LazyReader.Valid, Num64, Col64;
    var bytes := ReadRange(r, id, index * 8, 8, s);
    Col64At(column, index);
    assert bytes[0..8] == Col64(column)[8 * index..8 * index + 8];
    value := U64At(bytes, 0);
  }

  method ReadU32(r: LazyReader, id: nat, index: nat, ghost s: StoreState, ghost column: seq<u32>) returns (value: u32)
    requires Reads(r, s) && id < STREAMS && StreamsOf(s)[id] == Col32(column) && index < |column|
    modifies r`cache, r`order, r`entries, r`entryOrder
    ensures Reads(r, s) && value == column[index]
  {
    hide NamesFit, StreamsOf, LazyReader.Valid, Num32, Col32;
    var bytes := ReadRange(r, id, index * 4, 4, s);
    Col32At(column, index);
    assert bytes[0..4] == Col32(column)[4 * index..4 * index + 4];
    value := U32At(bytes, 0);
  }

  lemma ReaderSizes(r: LazyReader, s: StoreState)
    requires Reads(r, s)
    ensures |r.sizes| == STREAMS && r.sizes[NODE_KIND] == |s.nodes| && r.sizes[WIDE_KIND] == |s.wides|
  {
    NodeColumns(s);
    hide StreamsOf, SealedAs;
  }

  method DecodeWideLazy(r: LazyReader, index: nat, id: nat, ghost s: StoreState) returns (node: Option<Node>)
    requires Reads(r, s)
    modifies r`cache, r`order, r`entries, r`entryOrder
    ensures Reads(r, s)
    ensures node == if index < |s.wides| then DecodeWide(s.wides[index], id) else None
  {
    hide NamesFit, StreamsOf, LazyReader.Valid, Map, Col64;
    NodeColumns(s);
    ReaderSizes(r, s);
    if index >= r.sizes[WIDE_KIND] { return None; }
    var kind := ReadRange(r, WIDE_KIND, index, 1, s);
    assert kind[0] == Map(WideCode, s.wides)[index];
    var a := ReadU64(r, WIDE_A, index, s, Map(FieldA, s.wides));
    var b := ReadU64(r, WIDE_B, index, s, Map(FieldB, s.wides));
    if kind[0] == 0 {
      return Some(Leaf(a, b));
    } else if kind[0] == 1 {
      if a >= id || b >= id { return None; }
      return Some(Binary(a, b));
    }
    return None;
  }

  /** A node decoded from its columns is the node. */
  method DecodeNodeLazy(r: LazyReader, id: nat, ghost s: StoreState) returns (node: Option<Node>)
    requires Reads(r, s)
    modifies r`cache, r`order, r`entries, r`entryOrder
    ensures Reads(r, s) && node == DecodeNode(s, id)
  {
    hide NamesFit, StreamsOf, LazyReader.Valid, Map, Col64, Col32, DecodeWide, DecodeBinary;
    NodeColumns(s);
    ReaderSizes(r, s);
    if id >= r.sizes[NODE_KIND] { return None; }
    var kind := ReadRange(r, NODE_KIND, id, 1, s);
    assert kind[0] == Map(KindCode, s.nodes)[id];
    if kind[0] > 2 { return None; }
    var field0 := ReadU64(r, NODE_FIELD0, id, s, Map(Field0, s.nodes));
    if kind[0] == 0 {
      var field1 := ReadU32(r, NODE_FIELD1, id, s, Map(Field1, s.nodes));
      return Some(Leaf(field0, field1));
    } else if kind[0] == 1 {
      return DecodeBinary(field0, id);
    }
    node := DecodeWideLazy(r, field0, id, s);
  }

  // A sealed base with an overlay

  /** The state an overlay stands for on top of its base. */
  function Flat(base: StoreState, over: StoreState): StoreState {
    over.(base := EMPTY_GEOMETRY, arena := base.arena + over.arena, nodes := base.nodes + over.nodes,
          wides := base.wides + over.wides)
  }

  ghost predicate OnBase(base: StoreState, over: StoreState) {
    && base.base == EMPTY_GEOMETRY
    && over.base.byteLen == |base.arena| && over.base.nodeCount == |base.nodes| && over.base.wideCount == |base.wides|
  }

  function DecodeOver(base: StoreState, over: StoreState, id: nat): Option<Node> {
    if id < over.base.nodeCount then DecodeNode(base, id) else DecodeNode(over, id)
  }

  /** Payload across the boundary is not readable. */
  predicate Straddles(byteLen: nat, node: Option<Node>) {
    node.Some? && node.value.Leaf? && node.value.offset < byteLen < node.value.offset + node.value.length
  }

  /** What the split store can read: a straddling leaf reads as nothing. */
  function OverView(base: StoreState, over: StoreState): (v: View)
    ensures |v.nodes| == |base.nodes| + |over.nodes|
  {
    View(base.arena + over.arena,
         seq(|base.nodes| + |over.nodes|, id requires 0 <= id =>
           var node := DecodeOver(base, over, id);
           if Straddles(over.base.byteLen, node) then None else node))
  }

  /** A wide slot of the overlay that names a record of the base. */
  predicate NamesBaseWide(over: StoreState, id: nat) {
    && id >= over.base.nodeCount && id - over.base.nodeCount < |over.nodes|
    && over.nodes[id - over.base.nodeCount].kind == KIND_WIDE
    && over.nodes[id - over.base.nodeCount].field0 < over.base.wideCount
  }

  /** A node the split store cannot read although the flat one can. */
  predicate Crosses(base: StoreState, over: StoreState, id: nat) {
    NamesBaseWide(over, id) || Straddles(over.base.byteLen, DecodeNode(Flat(base, over), id))
  }

  lemma OverNode(base: StoreState, over: StoreState, id: nat)
    requires OnBase(base, over) && id < |base.nodes| + |over.nodes| && WellFormed(ViewOf(base))
    ensures OverView(base, over).nodes[id]
         == if Crosses(base, over, id) then None else ViewOf(Flat(base, over)).nodes[id]
  {
    var flat := Flat(base, over);
    assert OverView(base, over).nodes[id]
        == (var node := DecodeOver(base, over, id); if Straddles(over.base.byteLen, node) then None else node);
    if id < |base.nodes| {
      assert flat.nodes[id] == base.nodes[id];
      assert NodeOk(ViewOf(base), id) && ViewOf(base).nodes[id] == DecodeNode(base, id);
    } else {
      assert flat.nodes[id] == over.nodes[id - |base.nodes|];
    }
  }

  /** The split store reads a root as the flat store does if and only if no node
      below it crosses the boundary; otherwise it reads nothing. */
  lemma {:induction false} OverlayExactIff(base: StoreState, over: StoreState, root: nat)
    requires OnBase(base, over) && WellFormed(ViewOf(base)) && WellFormed(ViewOf(Flat(base, over)))
    requires root < |base.nodes| + |over.nodes|
    ensures Extract(OverView(base, over), root) == Extract(ViewOf(Flat(base, over)), root)
      <==> (forall id :: id in Reach(ViewOf(Flat(base, over)), root) ==> !Crosses(base, over, id))
    ensures Extract(OverView(base, over), root).None?
      <==> (exists id :: id in Reach(ViewOf(Flat(base, over)), root) && Crosses(base, over, id))
    decreases root
  {
    hide Flat, Crosses, OnBase, DecodeNode, ViewOf, OverView;
    var flat, split := ViewOf(Flat(base, over)), OverView(base, over);
    OverNode(base, over, root);
    FlatSize(base, over);
    ExtractTotal(flat, root);
    assert NodeOk(flat, root);
    assert split.arena == flat.arena by { SameArena(base, over); }
    if Crosses(base, over, root) {
      assert root in Reach(flat, root);
    } else {
      match flat.nodes[root]
      case Some(Leaf(_, _)) =>
      case Some(Binary(left, right)) =>
        OverlayExactIff(base, over, left);
        OverlayExactIff(base, over, right);
        ExtractTotal(flat, left);
        ExtractTotal(flat, right);
    }
  }

  lemma FlatSize(base: StoreState, over: StoreState)
    ensures |ViewOf(Flat(base, over)).nodes| == |base.nodes| + |over.nodes|
  {
  }

  lemma SameArena(base: StoreState, over: StoreState)
    ensures OverView(base, over).arena == ViewOf(Flat(base, over)).arena
  {
  }

  /** Reading a root over base and overlay with a work stack. */
  method ExtractRootLazy(r: LazyReader, over: StoreState, root: nat,
                         ghost base: StoreState) returns (bytes: Option<seq<byte>>)
    requires Reads(r, base) && OnBase(base, over)
    modifies r`cache, r`order, r`entries, r`entryOrder
    ensures Reads(r, base) && bytes == Extract(OverView(base, over), root)
  {
    hide NamesFit, StreamsOf, LazyReader.Valid, DecodeNode, OverView, Extract, Join, StackBytes, StackWeight;
    ghost var v := OverView(base, over);
    var out: seq<byte> := [];
    var stack: seq<nat> := [root];
    StackStart(v, root);
    while stack != []
      invariant Reads(r, base)
      invariant Join(Some(out), StackBytes(v, stack)) == Extract(v, root)
      decreases StackWeight(v, stack)
    {
      var id: nat := stack[|stack| - 1];
      var rest: seq<nat> := stack[..|stack| - 1];
      assert stack == rest + [id];
      var node: Option<Node>;
      if id < over.base.nodeCount { node := DecodeNodeLazy(r, id, base); } else { node := DecodeNode(over, id); }
      OverExtract(base, over, id);
      TopOfStack(v, rest, id, out);
      if node.None? { return None; }
      match node.value {
        case Leaf(offset, length) =>
          if offset < over.base.byteLen {
            if offset + length > over.base.byteLen { return None; }
            PayloadColumn(base);
            var part := ReadRange(r, PAYLOAD, offset, length, base);
            out, stack := out + part, rest;
          } else {
            var start := offset - over.base.byteLen;
            if start + length > |over.arena| { return None; }
            out, stack := out + over.arena[start..start + length], rest;
          }
        case Binary(left, right) =>
          BranchStep(v, rest, id, left, right);
          stack := rest + [right] + [left];
      }
    }
    NothingLeft(v, out);
    return Some(out);
  }

  /** What the top of the stack adds, and that it can fail the whole. */
  lemma TopOfStack(v: View, rest: seq<nat>, id: nat, out: seq<byte>)
    ensures Extract(v, id).None? ==> Join(Some(out), StackBytes(v, rest + [id])) == None
    ensures Extract(v, id).Some? ==>
      Join(Some(out), StackBytes(v, rest + [id])) == Join(Some(out + Extract(v, id).value), StackBytes(v, rest))
    ensures StackWeight(v, rest) < StackWeight(v, rest + [id])
  {
    hide Extract;
    assert (rest + [id])[..|rest|] == rest;
    if Extract(v, id).Some? { LeafStep(v, rest, id, out); }
  }

  lemma NothingLeft(v: View, out: seq<byte>)
    ensures Join(Some(out), StackBytes(v, [])) == Some(out)
  {
    assert out + [] == out;
  }

  /** What a node of the split store extracts to, case by case. */
  lemma OverExtract(base: StoreState, over: StoreState, id: nat)
    requires OnBase(base, over)
    ensures var v, node, split := OverView(base, over), DecodeOver(base, over, id), over.base.byteLen;
      && (node.None? ==> Extract(v, id) == None)
      && (node.Some? && node.value.Leaf? ==>
            var offset, length := node.value.offset, node.value.length;
            Extract(v, id) ==
            if offset < split then
              (if offset + length > split then None else Some(base.arena[offset..offset + length]))
            else if offset - split + length > |over.arena| then None
            else Some(over.arena[offset - split..offset - split + length]))
      && (node.Some? && node.value.Binary? ==>
            id < |v.nodes| && v.nodes[id] == node && node.value.left < id && node.value.right < id)
  {
    hide DecodeNode;
    OverDecodes(base, over, id);
    DecodedBelow(base, over, id);
    var v, node, split := OverView(base, over), DecodeOver(base, over, id), over.base.byteLen;
    if node.Some? && node.value.Leaf? {
      var offset, end := node.value.offset, node.value.offset + node.value.length;
      if offset < split && end <= split {
        assert v.arena[offset..end] == base.arena[offset..end];
      } else if split <= offset && end <= split + |over.arena| {
        assert v.arena[offset..end] == over.arena[offset - split..end - split];
      }
    }
  }

  lemma PayloadColumn(s: StoreState)
    requires NamesFit(s)
    ensures StreamsOf(s)[PAYLOAD] == s.arena
  {
    NodeColumns(s);
  }

  lemma OverDecodes(base: StoreState, over: StoreState, id: nat)
    requires OnBase(base, over)
    ensures var node := DecodeOver(base, over, id);
      && (id >= |OverView(base, over).nodes| ==> node.None?)
      && (id < |OverView(base, over).nodes| ==>
            OverView(base, over).nodes[id] == if Straddles(over.base.byteLen, node) then None else node)
  {
  }

  lemma DecodedBelow(base: StoreState, over: StoreState, id: nat)
    ensures var node := DecodeOver(base, over, id);
      node.Some? && node.value.Binary? ==> node.value.left < id && node.value.right < id
  {
  }

  /** No node of the split store crosses the boundary. */
  ghost predicate Uncrossed(base: StoreState, over: StoreState) {
    forall id: nat :: id < |base.nodes| + |over.nodes| ==> !Crosses(base, over, id)
  }

  /** Without crossings the split store means what the flat state means. */
  lemma UncrossedMeansFlat(base: StoreState, over: StoreState)
    requires OnBase(base, over) && WellFormed(ViewOf(base)) && Uncrossed(base, over)
    ensures OverView(base, over) == ViewOf(Flat(base, over))
  {
    hide Crosses, OnBase, Flat;
    FlatSize(base, over);
    forall id: nat | id < |base.nodes| + |over.nodes|
      ensures OverView(base, over).nodes[id] == ViewOf(Flat(base, over)).nodes[id]
    {
      OverNode(base, over, id);
    }
    SameArena(base, over);
    FlatSize(base, over);
    assert OverView(base, over).nodes == ViewOf(Flat(base, over)).nodes;
  }

  method ExtractVersionLazy(r: LazyReader, over: StoreState, version: nat, ghost base: StoreState)
    returns (bytes: Option<seq<byte>>)
    requires Reads(r, base) && OnBase(base, over)
    modifies r`cache, r`order, r`entries, r`entryOrder
    ensures Reads(r, base) && bytes == ExtractVersion(OverView(base, over), over.versions, version)
  {
    hide NamesFit, StreamsOf, LazyReader.Valid, OverView;
    if version >= |over.versions| || over.versions[version].None? { return None; }
    bytes := ExtractRootLazy(r, over, over.versions[version].value, base);
  }

  /** Lazy reconstruction over base and overlay, for every cache state. */
  method ReconstructCheckpointLazy(r: LazyReader, over: StoreState, c: Checkpoint, ghost base: StoreState)
    returns (bytes: Option<seq<byte>>)
    requires Reads(r, base) && OnBase(base, over)
    modifies r`cache, r`order, r`entries, r`entryOrder
    ensures Reads(r, base) && bytes == Reconstruct(OverView(base, over), over.versions, c)
  {
    hide NamesFit, StreamsOf, LazyReader.Valid, OverView, ExtractVersion;
    var identity := ExtractVersionLazy(r, over, c.identityVersion, base);
    if identity.None? { return None; }
    var messages: Option<seq<byte>> := Some([]);
    if c.messagesVersion.Some? {
      messages := ExtractVersionLazy(r, over, c.messagesVersion.value, base);
      if messages.None? { return None; }
    }
    var result: Option<seq<byte>> := None;
    if c.resultVersion.Some? {
      result := ExtractVersionLazy(r, over, c.resultVersion.value, base);
      if result.None? { return None; }
    }
    var out := IDENTITY_FRAME + identity.value + MESSAGES_FRAME + messages.value + MESSAGES_END;
    if result.Some? {
      out := out + (RESULT_FRAME + result.value);
    } else {
      assert out + [] == out;
    }
    return Some(out + STATE_END);
  }

  /** An overlay with nothing in it. */
  function BareOver(s: StoreState): StoreState {
    s.(base := s.Watermarks(), arena := [], nodes := [], wides := [])
  }

  lemma BareIsFlat(s: StoreState)
    requires Inv(s)
    ensures OnBase(s, BareOver(s)) && Flat(s, BareOver(s)) == s && Uncrossed(s, BareOver(s))
  {
    hide VersionsOk, CheckpointOk, CheckpointsIndexed, ThreadsIndexed, RequestsOk;
    forall id: nat | id < |s.nodes|
      ensures !Straddles(|s.arena|, DecodeNode(s, id))
    {
      assert NodeOk(ViewOf(s), id) && ViewOf(s).nodes[id] == DecodeNode(s, id);
    }
  }

  /** Lazy equals eager: reading a sealed store through its columns gives the
      bytes the eager state gives, for every checkpoint and every cache state. */
  method ReadSealedLazily(r: LazyReader, c: Checkpoint, over: StoreState,
                          ghost s: StoreState) returns (bytes: Option<seq<byte>>)
    requires Reads(r, s) && Inv(s) && over == BareOver(s)
    modifies r`cache, r`order, r`entries, r`entryOrder
    ensures Reads(r, s) && bytes == CheckpointBytes(s, c)
  {
    hide NamesFit, StreamsOf, LazyReader.Valid, Inv;
    BareIsFlat(s);
    Formed(s);
    UncrossedMeansFlat(s, over);
    bytes := ReconstructCheckpointLazy(r, over, c, s);
  }

  lemma Formed(s: StoreState)
    requires Inv(s)
    ensures WellFormed(ViewOf(s))
  {
  }

  // Metadata of the lazy store

  method ReadAll(r: LazyReader, id: nat, ghost s: StoreState) returns (bytes: seq<byte>)
    requires Reads(r, s) && id < STREAMS
    modifies r`cache, r`order, r`entries, r`entryOrder
    ensures Reads(r, s) && bytes == StreamsOf(s)[id]
  {
    hide NamesFit, StreamsOf;
    bytes := ReadRange(r, id, 0, r.sizes[id], s);
    assert StreamsOf(s)[id][0..|StreamsOf(s)[id]|] == StreamsOf(s)[id];
  }

  method LoadNames(r: LazyReader, offsets: nat, bytes: nat, ghost names: seq<Id>, ghost s: StoreState)
    returns (loaded: Result<seq<Id>>)
    requires Reads(r, s) && offsets < STREAMS && bytes < STREAMS
    requires TableRead(StreamsOf(s)[offsets], StreamsOf(s)[bytes], names)
    modifies r`cache, r`order, r`entries, r`entryOrder
    ensures Reads(r, s) && loaded == Ok(names)
  {
    hide NamesFit, StreamsOf, TableRead, LazyReader.Valid;
    var offsetColumn := ReadAll(r, offsets, s);
    var byteColumn := ReadAll(r, bytes, s);
    loaded := DecodeStringTable(offsetColumn, byteColumn);
    if loaded.Ok? { TableOnce(offsetColumn, byteColumn, loaded.value, names); }
  }

  method LoadColumns(r: LazyReader, ghost s: StoreState) returns (columns: CheckpointColumns)
    requires Reads(r, s)
    modifies r`cache, r`order, r`entries, r`entryOrder
    ensures Reads(r, s) && columns == ColumnsOf(s)
  {
    hide Reads, NamesFit, StreamsOf, ColumnsOf, Col32, Col64, OffsetBytes, Joined, TableFits, Map, ThreadColumn,
      ParentColumn;
    var thread := ReadAll(r, CP_THREAD, s);
    var number := ReadAll(r, CP_NO, s);
    var parent := ReadAll(r, CP_PARENT_ORDINAL, s);
    var identity := ReadAll(r, CP_IDENTITY_VERSION, s);
    var messages := ReadAll(r, CP_MESSAGES_VERSION, s);
    var result := ReadAll(r, CP_RESULT_VERSION, s);
    var len := ReadAll(r, CP_LOGICAL_LEN, s);
    var hash := ReadAll(r, CP_STATE_HASH, s);
    columns := CheckpointColumns(thread, number, parent, identity, messages, result, len, hash);
    FitsFromReads(r, s);
    StreamsAre(s);
  }

  lemma FitsFromReads(r: LazyReader, s: StoreState)
    requires Reads(r, s)
    ensures NamesFit(s)
  {
  }

  /** Versions, threads and checkpoints of a sealed state, read by column. The
      overlay they start is bare. */
  method LoadMetadata(r: LazyReader, versionCount: nat, threadCount: nat, checkpointCount: nat, ghost s: StoreState)
    returns (loaded: Result<StoreState>)
    requires Reads(r, s) && Inv(s)
    requires versionCount == |s.versions| && threadCount == |s.threads| && checkpointCount == |s.checkpoints|
    modifies r`cache, r`order, r`entries, r`entryOrder
    ensures Reads(r, s) && loaded == Ok(BareOver(s).(requests := map[], deleted := {}, retired := map[]))
  {
    hide Inv, NamesFit, Map, ThreadsIndexed, VersionsOk, StreamsOf, LazyReader.Valid, Reads, ColumnsOf, TableRead,
      VersionsRead, CheckpointsRead, LastPlaces, NamesOf;
    FitsFromReads(r, s);
    Parts(s);
    NamesRead(s);
    VersionsKnown(s);
    RowsRead(s);
    PlacesKnown(s);
    var roots := ReadAll(r, VERSION_ROOT, s);
    var links := ReadAll(r, VERSION_PARENT, s);
    var versions := ReadVersions(roots, links);
    if versions.Err? { return Err(Format); }
    VersionsOnce(roots, links, versions.value.0, versions.value.1, s.versions, s.parents);
    if |versions.value.0| != versionCount { return Err(Format); }
    var threads := LoadNames(r, THREAD_OFFSETS, THREAD_BYTES, s.threads, s);
    if threads.Err? { return Err(Format); }
    if |threads.value| != threadCount { return Err(Format); }
    var threadOrdinals := IndexThreads(threads.value);
    if threadOrdinals.Err? { return Err(Format); }
    PlacesOnce(threads.value, threadOrdinals.value, s.threadOrdinals);
    var ids := LoadNames(r, CP_ID_OFFSETS, CP_ID_BYTES, Map(IdOf, s.checkpoints), s);
    if ids.Err? { return Err(Format); }
    var columns := LoadColumns(r, s);
    var cps := ReadCheckpoints(columns, threads.value, ids.value, checkpointCount);
    if cps.Err? { return Err(Format); }
    CheckpointsOnce(columns, threads.value, ids.value, checkpointCount, cps.value.0, s.checkpoints);
    PlacesOnce(NamesOf(s.checkpoints), cps.value.1, s.checkpointOrdinals);
    ReaderSizes(r, s);
    PayloadSize(r, s);
    var base := Geometry(r.sizes[PAYLOAD], r.sizes[NODE_KIND], r.sizes[WIDE_KIND], versionCount, checkpointCount);
    return Ok(StoreState(base, [], [], [], versions.value.0, versions.value.1, cps.value.0, threads.value,
                         threadOrdinals.value, cps.value.1, map[], {}, map[]));
  }

  lemma PayloadSize(r: LazyReader, s: StoreState)
    requires Reads(r, s)
    ensures |r.sizes| == STREAMS && r.sizes[PAYLOAD] == |s.arena|
    ensures forall id :: 0 <= id < STREAMS ==> r.sizes[id] == |StreamsOf(s)[id]|
  {
    NodeColumns(s);
    hide StreamsOf, SealedAs;
  }

  // Committing on top of a lazy base

  lemma FlatWatermarks(base: StoreState, over: StoreState)
    requires OnBase(base, over)
    ensures Flat(base, over).Watermarks() == over.Watermarks()
  {
  }

  lemma FlatApply(base: StoreState, over: StoreState, tx: Transaction)
    requires OnBase(base, over)
    ensures Flat(base, Apply(over, tx)) == Apply(Flat(base, over), tx) && OnBase(base, Apply(over, tx))
  {
    assert base.arena + (over.arena + tx.payload) == (base.arena + over.arena) + tx.payload;
    assert base.nodes + (over.nodes + tx.nodes) == (base.nodes + over.nodes) + tx.nodes;
    assert base.wides + (over.wides + tx.wides) == (base.wides + over.wides) + tx.wides;
  }

  /** No new node names a wide record of the lazy base. */
  predicate NewWidesOnly(over: StoreState, tx: Transaction) {
    forall i :: 0 <= i < |tx.nodes| && tx.nodes[i].kind == KIND_WIDE ==> tx.nodes[i].field0 >= over.base.wideCount
  }

  /** The split store admits what the flat store admits; where no new node names
      a wide record of the base, it admits nothing else and fails alike. */
  lemma PrepareRefines(base: StoreState, over: StoreState, tx: Transaction)
    requires OnBase(base, over)
    ensures Prepare(Flat(base, over), tx).Ok? ==> Prepare(over, tx).Ok?
    ensures NewWidesOnly(over, tx) ==> Prepare(over, tx) == Prepare(Flat(base, over), tx)
  {
    var flat := Flat(base, over);
    FlatWatermarks(base, over);
    forall i | 0 <= i < |tx.nodes|
      ensures var id := over.Watermarks().nodeCount + i;
        && (SlotValid(flat, tx, tx.nodes[i], id) ==> SlotValid(over, tx, tx.nodes[i], id))
        && (NewWidesOnly(over, tx) && SlotValid(over, tx, tx.nodes[i], id) ==> SlotValid(flat, tx, tx.nodes[i], id))
    {
      SlotRefines(base, over, tx, tx.nodes[i], over.Watermarks().nodeCount + i);
    }
  }

  lemma SlotRefines(base: StoreState, over: StoreState, tx: Transaction, slot: Slot, id: nat)
    requires OnBase(base, over)
    ensures SlotValid(Flat(base, over), tx, slot, id) ==> SlotValid(over, tx, slot, id)
    ensures !(slot.kind == KIND_WIDE && slot.field0 < over.base.wideCount) && SlotValid(over, tx, slot, id) ==>
      SlotValid(Flat(base, over), tx, slot, id)
  {
    if slot.kind == KIND_WIDE && slot.field0 >= over.base.wideCount {
      var index := slot.field0 - over.base.wideCount;
      var flat := Flat(base, over);
      assert index < |over.wides| ==> flat.wides[slot.field0] == over.wides[index];
    }
  }
}