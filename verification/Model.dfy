/** The committed state of a store and the exact bytes of each checkpoint. */
module Model {
  import opened Wrappers
  import opened Bytes
  import opened Format
  import opened Dag

  type Id = seq<byte>

  datatype Key = Key(thread: Id, checkpoint: Id)

  /** Watermarks of everything committed so far. */
  datatype Geometry = Geometry(
    byteLen: nat, nodeCount: nat, wideCount: nat, versionCount: nat, checkpointCount: nat)

  const EMPTY_GEOMETRY := Geometry(0, 0, 0, 0, 0)

  datatype Checkpoint = Checkpoint(
    ordinal: u32, thread: Id, number: u32, id: Id, parent: Option<Id>,
    identityVersion: u32, messagesVersion: Option<u32>, resultVersion: Option<u32>,
    logicalLen: u64, stateHash: u64)
  {
    function Name(): Key { Key(thread, id) }
  }

  datatype RequestRecord = RequestRecord(key: seq<byte>, digest: Digest, ordinal: u32)

  datatype Transaction = Transaction(
    versionStart: u32, versionCount: u32, checkpointCount: u32,
    byteStart: u64, payload: seq<byte>,
    nodeStart: u64, nodes: seq<Slot>,
    wideStart: u64, wides: seq<WideRecord>,
    roots: seq<Option<u64>>, parents: seq<Option<u32>>,
    checkpoint: Checkpoint, request: Option<seq<byte>>, digest: Digest)
  {
    /** The watermarks a state must show for this transaction to continue it. */
    function Before(): Geometry
      requires checkpointCount > 0
    {
      Geometry(byteStart, nodeStart, wideStart, versionStart, checkpointCount - 1)
    }

    function After(): Geometry {
      Geometry(byteStart + |payload|, nodeStart + |nodes|, wideStart + |wides|,
               versionCount, checkpointCount)
    }
  }

  /** `base` is what a lazy sealed base already represents; arena, nodes and
      wides hold only what comes after it. */
  datatype StoreState = StoreState(
    base: Geometry,
    arena: seq<byte>, nodes: seq<Slot>, wides: seq<WideRecord>,
    versions: seq<Option<u64>>, parents: seq<Option<u32>>,
    checkpoints: seq<Checkpoint>,
    threads: seq<Id>, threadOrdinals: map<Id, nat>,
    checkpointOrdinals: map<Key, nat>,
    requests: map<seq<byte>, RequestRecord>,
    deleted: set<Key>, retired: map<seq<byte>, seq<byte>>)
  {
    function Watermarks(): Geometry {
      Geometry(base.byteLen + |arena|, base.nodeCount + |nodes|,
               base.wideCount + |wides|, |versions|, |checkpoints|)
    }
  }

  const EMPTY_STATE :=
    StoreState(EMPTY_GEOMETRY, [], [], [], [], [], [], [], map[], map[], map[], {}, map[])

  // Decoding nodes

  function DecodeWide(record: WideRecord, id: nat): Option<Node> {
    if record.kind == WIDE_KIND_LEAF then Some(Leaf(record.a, record.b))
    else if record.kind == WIDE_KIND_BINARY then
      if record.a >= id || record.b >= id then None else Some(Binary(record.a, record.b))
    else None
  }

  function DecodeBinary(field0: u64, id: nat): Option<Node> {
    var leftDelta, rightDelta := field0 % 0x1_0000_0000, field0 / 0x1_0000_0000;
    if leftDelta == 0 || rightDelta == 0 || leftDelta > id || rightDelta > id then None
    else Some(Binary(id - leftDelta, id - rightDelta))
  }

  function DecodeNode(s: StoreState, id: nat): Option<Node> {
    if id < s.base.nodeCount || id - s.base.nodeCount >= |s.nodes| then None
    else
      var slot := s.nodes[id - s.base.nodeCount];
      if slot.kind == KIND_LEAF then Some(Leaf(slot.field0, slot.field1))
      else if slot.kind == KIND_BINARY then DecodeBinary(slot.field0, id)
      else if slot.kind == KIND_WIDE then
        if slot.field0 < s.base.wideCount || slot.field0 - s.base.wideCount >= |s.wides| then None
        else DecodeWide(s.wides[slot.field0 - s.base.wideCount], id)
      else None
  }

  /** The meaning of a state that has no lazy base. */
  function ViewOf(s: StoreState): (v: View)
    ensures |v.nodes| == |s.nodes|
  {
    View(s.arena, seq(|s.nodes|, id requires 0 <= id < |s.nodes| => DecodeNode(s, id)))
  }

  // Reconstruction

  const IDENTITY_FRAME: seq<byte> :=
    [0x7B, 0x22, 0x69, 0x64, 0x65, 0x6E, 0x74, 0x69, 0x74, 0x79, 0x22, 0x3A]
  const MESSAGES_FRAME: seq<byte> :=
    [0x2C, 0x22, 0x6D, 0x65, 0x73, 0x73, 0x61, 0x67, 0x65, 0x73, 0x22, 0x3A, 0x5B]
  const MESSAGES_END: seq<byte> := [0x5D]
  const RESULT_FRAME: seq<byte> := [0x2C, 0x22, 0x72, 0x65, 0x73, 0x75, 0x6C, 0x74, 0x22, 0x3A]
  const STATE_END: seq<byte> := [0x7D]

  /** Canonical JSON framing of the three channels. */
  function Frame(identity: seq<byte>, messages: seq<byte>, result: Option<seq<byte>>): seq<byte> {
    IDENTITY_FRAME + identity + MESSAGES_FRAME + messages + MESSAGES_END
    + (if result.Some? then RESULT_FRAME + result.value else [])
    + STATE_END
  }

  function ExtractVersion(v: View, versions: seq<Option<u64>>, version: nat): Option<seq<byte>> {
    if version >= |versions| || versions[version].None? then None
    else Extract(v, versions[version].value)
  }

  /** An absent channel is the empty byte string; a present one must extract. */
  function Channel(v: View, versions: seq<Option<u64>>, version: Option<u32>): Option<seq<byte>> {
    if version.None? then Some([]) else ExtractVersion(v, versions, version.value)
  }

  function Reconstruct(v: View, versions: seq<Option<u64>>, c: Checkpoint): Option<seq<byte>> {
    var identity :- ExtractVersion(v, versions, c.identityVersion);
    var messages :- Channel(v, versions, c.messagesVersion);
    var result :- Channel(v, versions, c.resultVersion);
    Some(Frame(identity, messages, if c.resultVersion.None? then None else Some(result)))
  }

  /** The bytes of a checkpoint in a state without a lazy base. */
  function CheckpointBytes(s: StoreState, c: Checkpoint): Option<seq<byte>> {
    Reconstruct(ViewOf(s), s.versions, c)
  }

  /** The eager work-stack reader computes the meaning of every root. */
  method ExtractRoot(s: StoreState, root: nat) returns (r: Option<seq<byte>>)
    requires s.base == EMPTY_GEOMETRY
    ensures r == Extract(ViewOf(s), root)
  {
    ghost var v := ViewOf(s);
    var out: seq<byte> := [];
    var stack: seq<nat> := [root];
    StackStart(v, root);
    while stack != []
      invariant Join(Some(out), StackBytes(v, stack)) == Extract(v, root)
      decreases StackWeight(v, stack)
    {
      var id: nat := stack[|stack| - 1];
      var rest: seq<nat> := stack[..|stack| - 1];
      assert stack == rest + [id];
      assert id < |v.nodes| ==> v.nodes[id] == DecodeNode(s, id);
      var node := DecodeNode(s, id);
      if node.None? { return None; }
      match node.value {
        case Leaf(offset, length) =>
          if offset + length > |s.arena| { return None; }
          LeafStep(v, rest, id, out);
          out, stack := out + s.arena[offset..offset + length], rest;
        case Binary(left, right) =>
          BranchStep(v, rest, id, left, right);
          stack := rest + [right] + [left];
      }
    }
    assert out + [] == out;
    return Some(out);
  }

  method ReconstructCheckpoint(s: StoreState, c: Checkpoint) returns (r: Option<seq<byte>>)
    requires s.base == EMPTY_GEOMETRY
    ensures r == CheckpointBytes(s, c)
  {
    var identity := ExtractVersionEager(s, c.identityVersion);
    if identity.None? { return None; }
    var messages: Option<seq<byte>> := Some([]);
    if c.messagesVersion.Some? {
      messages := ExtractVersionEager(s, c.messagesVersion.value);
      if messages.None? { return None; }
    }
    var out := IDENTITY_FRAME + identity.value + MESSAGES_FRAME + messages.value + MESSAGES_END;
    if c.resultVersion.Some? {
      var result := ExtractVersionEager(s, c.resultVersion.value);
      if result.None? { return None; }
      out := out + (RESULT_FRAME + result.value);
    } else {
      assert out + [] == out;
    }
    return Some(out + STATE_END);
  }

  method ExtractVersionEager(s: StoreState, version: u32) returns (r: Option<seq<byte>>)
    requires s.base == EMPTY_GEOMETRY
    ensures r == ExtractVersion(ViewOf(s), s.versions, version)
  {
    if version >= |s.versions| || s.versions[version].None? { return None; }
    r := ExtractRoot(s, s.versions[version].value);
  }

  // What every committed state keeps

  /** Thread names in order of first use. */
  function Threads(cps: seq<Checkpoint>): (r: seq<Id>)
    ensures |r| <= |cps|
  {
    if cps == [] then []
    else
      var before := Threads(cps[..|cps| - 1]);
      var thread := cps[|cps| - 1].thread;
      if thread in before then before else before + [thread]
  }

  predicate IdentifierOk(id: Id) {
    0 < |id| <= MAX_IDENTIFIER_BYTES && IsUtf8(id)
  }

  lemma NamesBounded(a: Id, b: Id)
    requires IdentifierOk(a) && IdentifierOk(b)
    ensures |a| <= MAX_IDENTIFIER_BYTES && |b| <= MAX_IDENTIFIER_BYTES
  {
  }

  ghost predicate ThreadsIndexed(s: StoreState) {
    && s.threads == Threads(s.checkpoints)
    && (forall t :: t in s.threadOrdinals <==> t in s.threads)
    && (forall i :: 0 <= i < |s.threads| ==> s.threadOrdinals[s.threads[i]] == i)
  }

  ghost predicate CheckpointsIndexed(s: StoreState) {
    && (forall i :: 0 <= i < |s.checkpoints| ==>
          var c := s.checkpoints[i];
          c.Name() in s.checkpointOrdinals && s.checkpointOrdinals[c.Name()] == i)
    && (forall k :: k in s.checkpointOrdinals ==>
          s.checkpointOrdinals[k] < |s.checkpoints| && s.checkpoints[s.checkpointOrdinals[k]].Name() == k)
  }

  predicate VersionOk(version: Option<u32>, count: nat) {
    version.None? || version.value < count
  }

  /** A checkpoint record that may stand at place `i`. */
  ghost predicate CheckpointOk(s: StoreState, i: nat)
    requires i < |s.checkpoints|
  {
    var c := s.checkpoints[i];
    && c.ordinal == i
    && IdentifierOk(c.thread) && IdentifierOk(c.id)
    && c.identityVersion < |s.versions|
    && VersionOk(c.messagesVersion, |s.versions|)
    && VersionOk(c.resultVersion, |s.versions|)
    && (c.parent.Some? ==>
          var parent := Key(c.thread, c.parent.value);
          parent in s.checkpointOrdinals && s.checkpointOrdinals[parent] < i)
  }

  ghost predicate VersionsOk(s: StoreState) {
    && |s.versions| == |s.parents| <= U32_MAX
    && (forall i :: 0 <= i < |s.versions| && s.versions[i].Some? ==> s.versions[i].value < |s.nodes|)
    && (forall i :: 0 <= i < |s.parents| && s.parents[i].Some? ==> s.parents[i].value < i)
  }

  ghost predicate RequestsOk(s: StoreState) {
    forall k :: k in s.requests ==>
      && s.requests[k].key == k && s.requests[k].ordinal < |s.checkpoints|
      && 0 < |k| <= MAX_REQUEST_ID_BYTES
  }

  /** The invariant of every committed state without a lazy base. */
  ghost predicate Inv(s: StoreState) {
    && s.base == EMPTY_GEOMETRY
    && |s.arena| <= U64_MAX && |s.nodes| <= U64_MAX && |s.wides| <= U64_MAX
    && WellFormed(ViewOf(s))
    && VersionsOk(s)
    && |s.checkpoints| <= U32_MAX
    && (forall i :: 0 <= i < |s.checkpoints| ==> CheckpointOk(s, i))
    && CheckpointsIndexed(s)
    && ThreadsIndexed(s)
    && RequestsOk(s)
    && (forall k :: k in s.deleted ==> k !in s.checkpointOrdinals)
  }
}
