/** The T2W1 transaction record: one header, the appended bytes and nodes, the
    new version roots, one checkpoint, each part checksummed. */
module TransactionFormat {
  import opened Wrappers
  import opened Bytes
  import opened Format
  import opened Model

  function U32At(data: seq<byte>, offset: nat): u32
    requires offset + 4 <= |data|
  {
    Num32(data[offset..offset + 4])
  }

  function U64At(data: seq<byte>, offset: nat): u64
    requires offset + 8 <= |data|
  {
    Num64(data[offset..offset + 8])
  }

  /** Bytes followed by their hash. */
  function Sealed(body: seq<byte>): (record: seq<byte>)
    ensures |record| == |body| + TX_CHECKSUM_SIZE
  {
    body + U64(Xxh3(body))
  }

  /** The bytes in front of a correct hash. */
  function Unsealed(record: seq<byte>): Result<seq<byte>> {
    if |record| < TX_CHECKSUM_SIZE then Err(Format)
    else
      var body := record[..|record| - TX_CHECKSUM_SIZE];
      if Num64(record[|body|..]) == Xxh3(body) then Ok(body) else Err(Format)
  }

  /** The last eight bytes are the hash of all before them. */
  predicate Intact(record: seq<byte>) {
    |record| >= 8 && U64At(record, |record| - 8) == Xxh3(record[..|record| - 8])
  }

  /** What is sealed is intact, and only what is intact is unsealed. */
  lemma SealRoundTrip(body: seq<byte>)
    ensures Unsealed(Sealed(body)) == Ok(body) && Intact(Sealed(body))
    ensures Unsealed(body).Ok? <==> Intact(body)
  {
    var record := Sealed(body);
    assert record[..|body|] == body && record[|body|..] == U64(Xxh3(body));
    assert record[|body|..] == record[|body|..|body| + 8];
    if |body| >= 8 { assert body[|body| - 8..] == body[|body| - 8..|body|]; }
  }

  // Version roots

  function OptionU32(v: Option<u32>, none: u32): u32 {
    if v.Some? then v.value else none
  }

  /** The last word in front of the hash is reserved: written as zero, not read. */
  function RootBytes(id: u32, root: Option<u64>, parent: Option<u32>, reserved: u32): (r: seq<byte>)
    ensures |r| == ROOT_RECORD_SIZE
  {
    Sealed(ROOT_MAGIC + (U32(id) + (U64(if root.Some? then root.value else NONE_ROOT)
           + (U32(OptionU32(parent, NONE_PARENT)) + U32(reserved)))))
  }

  function ParseRoot(record: seq<byte>, expected: nat): Result<(Option<u64>, Option<u32>)>
    requires |record| == ROOT_RECORD_SIZE
  {
    var body :- Unsealed(record);
    var _ :- Check(body[..4] == ROOT_MAGIC && U32At(body, 4) == expected);
    var root, parent := U64At(body, 8), U32At(body, 16);
    var _ :- Check(parent == NONE_PARENT || parent < expected);
    Ok((if root == NONE_ROOT then None else Some(root),
        if parent == NONE_PARENT then None else Some(parent)))
  }

  function RootsBytes(first: nat, roots: seq<Option<u64>>, parents: seq<Option<u32>>, reserved: seq<u32>)
    : (r: seq<byte>)
    requires |roots| == |parents| == |reserved| && first + |roots| <= U32_MAX
    ensures |r| == ROOT_RECORD_SIZE * |roots|
    decreases |roots|
  {
    if roots == [] then []
    else
      RootBytes(first, roots[0], parents[0], reserved[0])
      + RootsBytes(first + 1, roots[1..], parents[1..], reserved[1..])
  }

  function ParseRoots(r: seq<byte>, first: nat, count: nat)
    : Result<(seq<Option<u64>>, seq<Option<u32>>)>
    requires |r| == ROOT_RECORD_SIZE * count
    decreases count
  {
    if count == 0 then Ok(([], []))
    else
      var head :- ParseRoot(r[..ROOT_RECORD_SIZE], first);
      var tail :- ParseRoots(r[ROOT_RECORD_SIZE..], first + 1, count - 1);
      Ok(([head.0] + tail.0, [head.1] + tail.1))
  }

  /** Roots and parents that survive their sentinels. */
  predicate RootsOk(first: nat, roots: seq<Option<u64>>, parents: seq<Option<u32>>) {
    && (forall i :: 0 <= i < |roots| && roots[i].Some? ==> roots[i].value != NONE_ROOT)
    && (forall i :: 0 <= i < |parents| && parents[i].Some? ==> parents[i].value < first + i)
  }

  lemma RootsOkTail(first: nat, roots: seq<Option<u64>>, parents: seq<Option<u32>>)
    requires |roots| == |parents| && RootsOk(first, roots, parents) && roots != []
    ensures RootsOk(first + 1, roots[1..], parents[1..])
  {
    var restRoots, restParents := roots[1..], parents[1..];
    assert forall i :: 0 <= i < |restRoots| ==> restRoots[i] == roots[i + 1];
    assert forall i :: 0 <= i < |restParents| ==> restParents[i] == parents[i + 1];
  }

  lemma RootRoundTrip(id: u32, root: Option<u64>, parent: Option<u32>, reserved: u32)
    requires root != Some(NONE_ROOT) && (parent.Some? ==> parent.value < id)
    ensures ParseRoot(RootBytes(id, root, parent, reserved), id) == Ok((root, parent))
  {
    hide U32, U64;
    var raw := if root.Some? then root.value else NONE_ROOT;
    var rawParent := OptionU32(parent, NONE_PARENT);
    var t4 := U32(rawParent) + U32(reserved);
    var t3 := U64(raw) + t4;
    var t2 := U32(id) + t3;
    var body := ROOT_MAGIC + t2;
    SealRoundTrip(body);
    Peel(body, 0, ROOT_MAGIC, t2);
    Peel(body, 4, U32(id), t3);
    Peel(body, 8, U64(raw), t4);
    Peel(body, 16, U32(rawParent), U32(reserved));
  }

  lemma {:induction false} RootsRoundTrip(first: nat, roots: seq<Option<u64>>, parents: seq<Option<u32>>,
                                          reserved: seq<u32>)
    requires |roots| == |parents| == |reserved| && RootsOk(first, roots, parents) && first + |roots| <= U32_MAX
    ensures ParseRoots(RootsBytes(first, roots, parents, reserved), first, |roots|) == Ok((roots, parents))
    decreases |roots|
  {
    hide U32, U64, Num32, Num64;
    if roots != [] {
      var r := RootsBytes(first, roots, parents, reserved);
      RootRoundTrip(first, roots[0], parents[0], reserved[0]);
      RootsOkTail(first, roots, parents);
      RootsRoundTrip(first + 1, roots[1..], parents[1..], reserved[1..]);
      assert r[..ROOT_RECORD_SIZE] == RootBytes(first, roots[0], parents[0], reserved[0]);
      assert r[ROOT_RECORD_SIZE..] == RootsBytes(first + 1, roots[1..], parents[1..], reserved[1..]);
      assert roots == [roots[0]] + roots[1..] && parents == [parents[0]] + parents[1..];
    }
  }

  lemma {:induction false} ParsedRootsOk(r: seq<byte>, first: nat, count: nat)
    requires |r| == ROOT_RECORD_SIZE * count && ParseRoots(r, first, count).Ok?
    ensures var p := ParseRoots(r, first, count).value;
      |p.0| == |p.1| == count && RootsOk(first, p.0, p.1)
    decreases count
  {
    hide Unsealed, U32, U64, Num32, Num64;
    if count > 0 {
      ParsedRootsOk(r[ROOT_RECORD_SIZE..], first + 1, count - 1);
    }
  }

  // Checkpoint records

  function OptionId(id: Option<Id>): Id {
    if id.Some? then id.value else []
  }

  function CheckpointSize(c: Checkpoint): nat {
    CHECKPOINT_PREFIX_SIZE + |c.thread| + |c.id| + |OptionId(c.parent)| + TX_CHECKSUM_SIZE
  }

  /** Identifiers of a checkpoint within the format's limits. */
  predicate NamesOk(c: Checkpoint) {
    && IdentifierOk(c.thread) && IdentifierOk(c.id)
    && (c.parent.Some? ==> IdentifierOk(c.parent.value))
  }

  predicate ChannelsOk(c: Checkpoint, versionCount: nat) {
    && c.identityVersion < versionCount
    && VersionOk(c.messagesVersion, versionCount)
    && VersionOk(c.resultVersion, versionCount)
  }

  datatype CheckpointHead = CheckpointHead(
    size: u32, number: u32, identity: u32, messages: u32, result: u32,
    threadLen: u32, idLen: u32, parentLen: u32, logicalLen: u64, stateHash: u64)

  /** The fixed fields, followed by `rest`. */
  function HeadThen(h: CheckpointHead, rest: seq<byte>): (r: seq<byte>)
    ensures |r| == CHECKPOINT_PREFIX_SIZE + |rest|
  {
    CHECKPOINT_MAGIC + (U32(h.size) + (U32(h.number) + (U32(h.identity) + (U32(h.messages)
    + (U32(h.result) + (U32(h.threadLen) + (U32(h.idLen) + (U32(h.parentLen)
    + (U64(h.logicalLen) + (U64(h.stateHash) + rest))))))))))
  }

  function HeadAt(r: seq<byte>): CheckpointHead
    requires |r| >= CHECKPOINT_PREFIX_SIZE
  {
    CheckpointHead(U32At(r, 4), U32At(r, 8), U32At(r, 12), U32At(r, 16), U32At(r, 20),
                   U32At(r, 24), U32At(r, 28), U32At(r, 32), U64At(r, 36), U64At(r, 44))
  }

  lemma HeadRoundTrip(h: CheckpointHead, rest: seq<byte>)
    ensures var r := HeadThen(h, rest);
      HeadAt(r) == h && r[..4] == CHECKPOINT_MAGIC && r[CHECKPOINT_PREFIX_SIZE..] == rest
  {
    hide U32, U64;
    var t10 := U64(h.stateHash) + rest;
    var t9 := U64(h.logicalLen) + t10;
    var t8 := U32(h.parentLen) + t9;
    var t7 := U32(h.idLen) + t8;
    var t6 := U32(h.threadLen) + t7;
    var t5 := U32(h.result) + t6;
    var t4 := U32(h.messages) + t5;
    var t3 := U32(h.identity) + t4;
    var t2 := U32(h.number) + t3;
    var t1 := U32(h.size) + t2;
    var r := CHECKPOINT_MAGIC + t1;
    Peel(r, 0, CHECKPOINT_MAGIC, t1);
    Peel(r, 4, U32(h.size), t2);
    Peel(r, 8, U32(h.number), t3);
    Peel(r, 12, U32(h.identity), t4);
    Peel(r, 16, U32(h.messages), t5);
    Peel(r, 20, U32(h.result), t6);
    Peel(r, 24, U32(h.threadLen), t7);
    Peel(r, 28, U32(h.idLen), t8);
    Peel(r, 32, U32(h.parentLen), t9);
    Peel(r, 36, U64(h.logicalLen), t10);
    Peel(r, 44, U64(h.stateHash), rest);
  }

  function HeadOf(c: Checkpoint): CheckpointHead
    requires NamesOk(c)
  {
    CheckpointHead(CheckpointSize(c), c.number, c.identityVersion,
                   OptionU32(c.messagesVersion, NONE_VERSION), OptionU32(c.resultVersion, NONE_VERSION),
                   |c.thread|, |c.id|, |OptionId(c.parent)|, c.logicalLen, c.stateHash)
  }

  function CheckpointRecord(c: Checkpoint): (r: seq<byte>)
    requires NamesOk(c)
    ensures |r| == CheckpointSize(c)
  {
    Sealed(HeadThen(HeadOf(c), c.thread + (c.id + OptionId(c.parent))))
  }

  function ParseOptionalVersion(raw: u32, versionCount: nat): Result<Option<u32>> {
    if raw == NONE_VERSION then Ok(None)
    else if raw < versionCount then Ok(Some(raw))
    else Err(Format)
  }

  function ParseCheckpoint(record: seq<byte>, versionCount: nat, ordinal: u32): Result<Checkpoint> {
    var _ :- Check(|record| >= CHECKPOINT_PREFIX_SIZE + TX_CHECKSUM_SIZE);
    var body :- Unsealed(record);
    var h := HeadAt(body);
    var _ :- Check(body[..4] == CHECKPOINT_MAGIC && h.size == |record| && h.identity < versionCount);
    var _ :- Check(0 < h.threadLen <= MAX_IDENTIFIER_BYTES && 0 < h.idLen <= MAX_IDENTIFIER_BYTES
                   && h.parentLen <= MAX_IDENTIFIER_BYTES);
    var threadEnd := CHECKPOINT_PREFIX_SIZE + h.threadLen;
    var idEnd := threadEnd + h.idLen;
    var parentEnd := idEnd + h.parentLen;
    var _ :- Check(parentEnd == |body|);
    var thread := body[CHECKPOINT_PREFIX_SIZE..threadEnd];
    var id := body[threadEnd..idEnd];
    var parent := body[idEnd..parentEnd];
    var _ :- Check(IsUtf8(thread) && IsUtf8(id) && (parent == [] || IsUtf8(parent)));
    var messages :- ParseOptionalVersion(h.messages, versionCount);
    var result :- ParseOptionalVersion(h.result, versionCount);
    Ok(Checkpoint(ordinal, thread, h.number, id, if parent == [] then None else Some(parent),
                  h.identity, messages, result, h.logicalLen, h.stateHash))
  }

  lemma ParsedRecordOk(record: seq<byte>, versionCount: nat, ordinal: u32)
    requires ParseCheckpoint(record, versionCount, ordinal).Ok?
    ensures var c := ParseCheckpoint(record, versionCount, ordinal).value;
      NamesOk(c) && ChannelsOk(c, versionCount) && c.ordinal == ordinal
  {
  }

  lemma CheckpointRoundTrip(c: Checkpoint, versionCount: nat)
    requires NamesOk(c) && ChannelsOk(c, versionCount) && versionCount <= U32_MAX
    ensures ParseCheckpoint(CheckpointRecord(c), versionCount, c.ordinal) == Ok(c)
  {
    hide HeadThen, HeadAt, Sealed, Unsealed;
    var parent := OptionId(c.parent);
    var t1 := c.id + parent;
    var body := HeadThen(HeadOf(c), c.thread + t1);
    SealRoundTrip(body);
    HeadRoundTrip(HeadOf(c), c.thread + t1);
    Peel(body, CHECKPOINT_PREFIX_SIZE, c.thread, t1);
    Peel(body, CHECKPOINT_PREFIX_SIZE + |c.thread|, c.id, parent);
    assert parent == parent + [];
    Peel(body, CHECKPOINT_PREFIX_SIZE + |c.thread| + |c.id|, parent, []);
  }

  // Whole transactions

  datatype Header = Header(
    total: u32, versionStart: u32, versionCount: u32, checkpointCount: u32, newVersions: u32,
    byteStart: u64, payloadLen: u64, nodeStart: u64, nodeCount: u32, wideCount: u32,
    wideStart: u64, checkpointLen: u32, requestLen: u32)

  /** The 72 header bytes, followed by `rest`. */
  function HeaderThen(h: Header, rest: seq<byte>): (r: seq<byte>)
    ensures |r| == TX_HEADER_SIZE + |rest|
  {
    TX_MAGIC + (U32(h.total) + (U32(h.versionStart) + (U32(h.versionCount)
    + (U32(h.checkpointCount) + (U32(h.newVersions) + (U64(h.byteStart) + (U64(h.payloadLen)
    + (U64(h.nodeStart) + (U32(h.nodeCount) + (U32(h.wideCount) + (U64(h.wideStart)
    + (U32(h.checkpointLen) + (U32(h.requestLen) + rest)))))))))))))
  }

  function HeaderAt(r: seq<byte>): Header
    requires |r| >= TX_HEADER_SIZE
  {
    Header(U32At(r, 4), U32At(r, 8), U32At(r, 12), U32At(r, 16), U32At(r, 20), U64At(r, 24),
           U64At(r, 32), U64At(r, 40), U32At(r, 48), U32At(r, 52), U64At(r, 56), U32At(r, 64),
           U32At(r, 68))
  }

  lemma HeaderRoundTrip(h: Header, rest: seq<byte>)
    ensures var r := HeaderThen(h, rest);
      HeaderAt(r) == h && r[..4] == TX_MAGIC && r[TX_HEADER_SIZE..] == rest
  {
    hide U32, U64;
    var t13 := U32(h.requestLen) + rest;
    var t12 := U32(h.checkpointLen) + t13;
    var t11 := U64(h.wideStart) + t12;
    var t10 := U32(h.wideCount) + t11;
    var t9 := U32(h.nodeCount) + t10;
    var t8 := U64(h.nodeStart) + t9;
    var t7 := U64(h.payloadLen) + t8;
    var t6 := U64(h.byteStart) + t7;
    var t5 := U32(h.newVersions) + t6;
    var t4 := U32(h.checkpointCount) + t5;
    var t3 := U32(h.versionCount) + t4;
    var t2 := U32(h.versionStart) + t3;
    var t1 := U32(h.total) + t2;
    var r := TX_MAGIC + t1;
    Peel(r, 0, TX_MAGIC, t1);
    Peel(r, 4, U32(h.total), t2);
    Peel(r, 8, U32(h.versionStart), t3);
    Peel(r, 12, U32(h.versionCount), t4);
    Peel(r, 16, U32(h.checkpointCount), t5);
    Peel(r, 20, U32(h.newVersions), t6);
    Peel(r, 24, U64(h.byteStart), t7);
    Peel(r, 32, U64(h.payloadLen), t8);
    Peel(r, 40, U64(h.nodeStart), t9);
    Peel(r, 48, U32(h.nodeCount), t10);
    Peel(r, 52, U32(h.wideCount), t11);
    Peel(r, 56, U64(h.wideStart), t12);
    Peel(r, 64, U32(h.checkpointLen), t13);
    Peel(r, 68, U32(h.requestLen), rest);
  }

  function RequestBytes(t: Transaction): seq<byte> {
    if t.request.Some? then t.request.value else []
  }

  function TransactionSize(t: Transaction): nat {
    TX_HEADER_SIZE + |RequestBytes(t)| + |t.payload| + COMPACT_NODE_SIZE * |t.nodes|
    + WIDE_RECORD_SIZE * |t.wides| + ROOT_RECORD_SIZE * |t.roots| + CheckpointSize(t.checkpoint)
    + TX_CHECKSUM_SIZE
  }

  /** What parsing guarantees of every transaction it accepts. */
  predicate Sound(t: Transaction) {
    && t.checkpointCount > 0
    && t.checkpoint.ordinal == t.checkpointCount - 1
    && t.versionStart + |t.roots| == t.versionCount
    && |t.roots| == |t.parents| && RootsOk(t.versionStart, t.roots, t.parents)
    && NamesOk(t.checkpoint) && ChannelsOk(t.checkpoint, t.versionCount)
    && (t.request.Some? ==> 0 < |t.request.value| <= MAX_REQUEST_ID_BYTES)
    && t.byteStart + |t.payload| <= U64_MAX
    && t.nodeStart + |t.nodes| <= U64_MAX
    && t.wideStart + |t.wides| <= U64_MAX
  }

  predicate Encodable(t: Transaction) {
    Sound(t) && TransactionSize(t) <= U32_MAX
  }

  function TransactionHeader(t: Transaction): Header
    requires Encodable(t)
  {
    Header(TransactionSize(t), t.versionStart, t.versionCount, t.checkpointCount, |t.roots|,
           t.byteStart, |t.payload|, t.nodeStart, |t.nodes|, |t.wides|, t.wideStart,
           CheckpointSize(t.checkpoint), |RequestBytes(t)|)
  }

  /** Everything between the header and the checksum. */
  function TransactionParts(t: Transaction, reserved: seq<u32>): (r: seq<byte>)
    requires Encodable(t) && |reserved| == |t.roots|
    ensures TX_HEADER_SIZE + |r| + TX_CHECKSUM_SIZE == TransactionSize(t)
  {
    RequestBytes(t) + (t.payload + (SlotsBytes(t.nodes) + (WidesBytes(t.wides)
    + (RootsBytes(t.versionStart, t.roots, t.parents, reserved) + CheckpointRecord(t.checkpoint)))))
  }

  /** The record of a transaction, with anything in the reserved words. */
  function EncodeReserved(t: Transaction, reserved: seq<u32>): (r: seq<byte>)
    requires Encodable(t) && |reserved| == |t.roots|
    ensures |r| == TransactionSize(t)
  {
    Sealed(HeaderThen(TransactionHeader(t), TransactionParts(t, reserved)))
  }

  function EncodeTransaction(t: Transaction): (r: seq<byte>)
    requires Encodable(t)
    ensures |r| == TransactionSize(t)
  {
    EncodeReserved(t, seq(|t.roots|, _ => 0))
  }

  /** The watermarks a record claims to continue. */
  function HeaderGeometry(h: Header): Geometry
    requires h.checkpointCount > 0
  {
    Geometry(h.byteStart, h.nodeStart, h.wideStart, h.versionStart, h.checkpointCount - 1)
  }

  /** The meaning of the six parts of a record whose header is known. */
  function DecodeParts(h: Header, request: seq<byte>, payload: seq<byte>, nodes: seq<byte>,
                       wides: seq<byte>, roots: seq<byte>, checkpoint: seq<byte>, digest: Digest)
    : Result<Transaction>
    requires h.checkpointCount > 0 && |roots| == ROOT_RECORD_SIZE * h.newVersions
  {
    var roots :- ParseRoots(roots, h.versionStart, h.newVersions);
    var checkpoint :- ParseCheckpoint(checkpoint, h.versionCount, h.checkpointCount - 1);
    var _ :- Check(h.byteStart + h.payloadLen <= U64_MAX && h.nodeStart + h.nodeCount <= U64_MAX
                   && h.wideStart + h.wideCount <= U64_MAX);
    Ok(Transaction(
      h.versionStart, h.versionCount, h.checkpointCount, h.byteStart, payload,
      h.nodeStart, SlotsOf(nodes), h.wideStart, WidesOf(wides), roots.0, roots.1, checkpoint,
      if request == [] then None else Some(request), digest))
  }

  /** Cuts a body at the lengths its header gives. */
  function ParseParts(h: Header, body: seq<byte>, digest: Digest): Result<Transaction>
    requires |body| >= TX_HEADER_SIZE && h.checkpointCount > 0
  {
    var requestEnd := TX_HEADER_SIZE + h.requestLen;
    var payloadEnd := requestEnd + h.payloadLen;
    var nodesEnd := payloadEnd + COMPACT_NODE_SIZE * h.nodeCount;
    var widesEnd := nodesEnd + WIDE_RECORD_SIZE * h.wideCount;
    var rootsEnd := widesEnd + ROOT_RECORD_SIZE * h.newVersions;
    var _ :- Check(rootsEnd + h.checkpointLen == |body|);
    DecodeParts(h, body[TX_HEADER_SIZE..requestEnd], body[requestEnd..payloadEnd],
                body[payloadEnd..nodesEnd], body[nodesEnd..widesEnd], body[widesEnd..rootsEnd],
                body[rootsEnd..], digest)
  }

  /** With no geometry the record is only checked against itself. */
  function ParseTransaction(record: seq<byte>, geometry: Option<Geometry>): Result<Transaction> {
    var _ :- Check(|record| >= MIN_TX_SIZE);
    var body :- Unsealed(record);
    var h := HeaderAt(body);
    var _ :- Check(body[..4] == TX_MAGIC && h.total == |record|);
    var _ :- Check(h.requestLen <= MAX_REQUEST_ID_BYTES && h.checkpointCount > 0
                   && h.versionStart + h.newVersions == h.versionCount);
    var _ :- Check(geometry.Some? ==> HeaderGeometry(h) == geometry.value);
    ParseParts(h, body, Sha256(record))
  }

  lemma DecodedIsSound(h: Header, request: seq<byte>, payload: seq<byte>, nodes: seq<byte>,
                       wides: seq<byte>, roots: seq<byte>, checkpoint: seq<byte>, digest: Digest)
    requires h.checkpointCount > 0 && |roots| == ROOT_RECORD_SIZE * h.newVersions
    requires h.versionStart + h.newVersions == h.versionCount
    requires |request| <= MAX_REQUEST_ID_BYTES && |payload| == h.payloadLen
    requires |nodes| == COMPACT_NODE_SIZE * h.nodeCount && |wides| == WIDE_RECORD_SIZE * h.wideCount
    requires DecodeParts(h, request, payload, nodes, wides, roots, checkpoint, digest).Ok?
    ensures var t := DecodeParts(h, request, payload, nodes, wides, roots, checkpoint, digest).value;
      Sound(t) && t.digest == digest && t.Before() == HeaderGeometry(h)
  {
    hide ParseRoots, ParseCheckpoint, SlotsOf, WidesOf, RootsOk, ChannelsOk, NamesOk;
    ParsedRootsOk(roots, h.versionStart, h.newVersions);
    ParsedRecordOk(checkpoint, h.versionCount, h.checkpointCount - 1);
  }

  lemma PartsAreSound(h: Header, body: seq<byte>, digest: Digest)
    requires |body| >= TX_HEADER_SIZE && h.checkpointCount > 0
    requires h.requestLen <= MAX_REQUEST_ID_BYTES && h.versionStart + h.newVersions == h.versionCount
    requires ParseParts(h, body, digest).Ok?
    ensures var t := ParseParts(h, body, digest).value;
      Sound(t) && t.digest == digest && t.Before() == HeaderGeometry(h)
  {
    hide DecodeParts, Sound;
    var requestEnd := TX_HEADER_SIZE + h.requestLen;
    var payloadEnd := requestEnd + h.payloadLen;
    var nodesEnd := payloadEnd + COMPACT_NODE_SIZE * h.nodeCount;
    var widesEnd := nodesEnd + WIDE_RECORD_SIZE * h.wideCount;
    var rootsEnd := widesEnd + ROOT_RECORD_SIZE * h.newVersions;
    DecodedIsSound(h, body[TX_HEADER_SIZE..requestEnd], body[requestEnd..payloadEnd],
                   body[payloadEnd..nodesEnd], body[nodesEnd..widesEnd], body[widesEnd..rootsEnd],
                   body[rootsEnd..], digest);
  }

  /** Every accepted record is sound, carries its own length, and continues the
      geometry it was checked against. */
  ghost predicate Accepted(record: seq<byte>, geometry: Option<Geometry>, t: Transaction) {
    && Sound(t) && t.digest == Sha256(record)
    && MIN_TX_SIZE <= |record| && record[..4] == TX_MAGIC && U32At(record, 4) == |record| && Intact(record)
    && (geometry.Some? ==> t.Before() == geometry.value)
  }

  lemma ParsedIsSound(record: seq<byte>, geometry: Option<Geometry>)
    requires ParseTransaction(record, geometry).Ok?
    ensures Accepted(record, geometry, ParseTransaction(record, geometry).value)
  {
    hide ParseParts, Sound, Num32, Num64, HeaderGeometry;
    var body := record[..|record| - TX_CHECKSUM_SIZE];
    assert body[..4] == record[..4] && body[4..8] == record[4..8];
    SealRoundTrip(record);
    PartsAreSound(HeaderAt(body), body, Sha256(record));
  }

  predicate ContinuesFrom(t: Transaction, g: Geometry) {
    t.checkpointCount > 0 && t.Before() == g
  }

  /** Knowing the geometry only removes records; it changes no result. */
  lemma GeometryOnlyFilters(record: seq<byte>, g: Geometry)
    ensures var plain, checked := ParseTransaction(record, None), ParseTransaction(record, Some(g));
      && (checked.Ok? ==> plain == checked)
      && (plain.Ok? ==> (checked.Ok? <==> ContinuesFrom(plain.value, g)))
  {
    hide ParseParts, Sound, Num32, Num64;
    if ParseTransaction(record, None).Ok? {
      var body := record[..|record| - TX_CHECKSUM_SIZE];
      PartsAreSound(HeaderAt(body), body, Sha256(record));
    }
  }

  lemma SixParts(r: seq<byte>, o: nat, a: seq<byte>, b: seq<byte>, c: seq<byte>, d: seq<byte>,
                 e: seq<byte>, f: seq<byte>)
    requires o <= |r| && r[o..] == a + (b + (c + (d + (e + f))))
    ensures var oa := o + |a|; var ob := oa + |b|; var oc := ob + |c|; var od := oc + |d|;
      var oe := od + |e|;
      && oe + |f| == |r|
      && r[o..oa] == a && r[oa..ob] == b && r[ob..oc] == c && r[oc..od] == d && r[od..oe] == e
      && r[oe..] == f
  {
    var oa: nat := o + |a|; var ob: nat := oa + |b|; var oc: nat := ob + |c|; var od: nat := oc + |d|;
    Peel(r, o, a, b + (c + (d + (e + f))));
    Peel(r, oa, b, c + (d + (e + f)));
    Peel(r, ob, c, d + (e + f));
    Peel(r, oc, d, e + f);
    Peel(r, od, e, f);
  }

  lemma DecodeRoundTrip(t: Transaction, reserved: seq<u32>, digest: Digest)
    requires Encodable(t) && |reserved| == |t.roots|
    ensures DecodeParts(TransactionHeader(t), RequestBytes(t), t.payload, SlotsBytes(t.nodes),
                        WidesBytes(t.wides), RootsBytes(t.versionStart, t.roots, t.parents, reserved),
                        CheckpointRecord(t.checkpoint), digest) == Ok(t.(digest := digest))
  {
    hide RootsBytes, ParseRoots, CheckpointRecord, ParseCheckpoint, SlotsBytes, SlotsOf, WidesBytes, WidesOf, RootsOk,
      ChannelsOk, NamesOk;
    SlotsRoundTrip(t.nodes);
    WidesRoundTrip(t.wides);
    RootsRoundTrip(t.versionStart, t.roots, t.parents, reserved);
    CheckpointRoundTrip(t.checkpoint, t.versionCount);
  }

  lemma PartsRoundTrip(t: Transaction, reserved: seq<u32>, digest: Digest)
    requires Encodable(t) && |reserved| == |t.roots|
    ensures ParseParts(TransactionHeader(t), HeaderThen(TransactionHeader(t), TransactionParts(t, reserved)), digest)
         == Ok(t.(digest := digest))
  {
    hide DecodeParts, HeaderThen, HeaderAt, RootsBytes, CheckpointRecord, SlotsBytes, WidesBytes, RootsOk, ChannelsOk,
      NamesOk;
    DecodeRoundTrip(t, reserved, digest);
    HeaderRoundTrip(TransactionHeader(t), TransactionParts(t, reserved));
    SixParts(HeaderThen(TransactionHeader(t), TransactionParts(t, reserved)), TX_HEADER_SIZE,
             RequestBytes(t), t.payload, SlotsBytes(t.nodes), WidesBytes(t.wides),
             RootsBytes(t.versionStart, t.roots, t.parents, reserved), CheckpointRecord(t.checkpoint));
  }

  lemma ReservedRoundTrip(t: Transaction, reserved: seq<u32>)
    requires Encodable(t) && |reserved| == |t.roots|
    ensures var record := EncodeReserved(t, reserved);
      ParseTransaction(record, Some(t.Before())) == Ok(t.(digest := Sha256(record)))
  {
    hide HeaderThen, HeaderAt, TransactionParts, ParseParts, Sealed, Unsealed;
    var h := TransactionHeader(t);
    SealRoundTrip(HeaderThen(h, TransactionParts(t, reserved)));
    HeaderRoundTrip(h, TransactionParts(t, reserved));
    PartsRoundTrip(t, reserved, Sha256(EncodeReserved(t, reserved)));
  }

  /** An encoded transaction parses, at the geometry it was built for, back to
      itself with the digest of its own bytes. */
  lemma TransactionRoundTrip(t: Transaction)
    requires Encodable(t)
    ensures ParseTransaction(EncodeTransaction(t), Some(t.Before()))
         == Ok(t.(digest := Sha256(EncodeTransaction(t))))
  {
    hide EncodeReserved, ParseTransaction, Encodable, TransactionSize;
    ReservedRoundTrip(t, seq(|t.roots|, _ => 0));
  }

  // Nothing else parses

  lemma UnsealedIsSealed(record: seq<byte>)
    requires Unsealed(record).Ok?
    ensures record == Sealed(Unsealed(record).value)
  {
    var body := record[..|record| - TX_CHECKSUM_SIZE];
    assert record == body + record[|body|..];
  }

  /** The fields in front of a word at `offset`, and what follows it. */
  lemma Unpeel(r: seq<byte>, offset: nat, width: nat)
    requires offset + width <= |r|
    ensures r[offset..] == r[offset..offset + width] + r[offset + width..]
  {
  }

  lemma ParsedRootIs(record: seq<byte>, id: nat) returns (reserved: u32)
    requires |record| == ROOT_RECORD_SIZE && ParseRoot(record, id).Ok?
    ensures id <= U32_MAX
    ensures record == RootBytes(id, ParseRoot(record, id).value.0, ParseRoot(record, id).value.1, reserved)
  {
    hide Sealed, Unsealed, U32, U64, Num32, Num64;
    UnsealedIsSealed(record);
    var body := Unsealed(record).value;
    assert |body| == 24;
    reserved := U32At(body, 20);
    Unpeel(body, 0, 4);
    Unpeel(body, 4, 4);
    Unpeel(body, 8, 8);
    Unpeel(body, 16, 4);
    assert body[..4] == body[0..4] && body == body[0..] && body[20..24] == body[20..];
  }

  lemma {:induction false} ParsedRootsAre(r: seq<byte>, first: nat, count: nat) returns (reserved: seq<u32>)
    requires |r| == ROOT_RECORD_SIZE * count && ParseRoots(r, first, count).Ok? && first + count <= U32_MAX
    ensures var p := ParseRoots(r, first, count).value;
      |p.0| == |p.1| == |reserved| == count && r == RootsBytes(first, p.0, p.1, reserved)
    decreases count
  {
    hide ParseRoot, RootBytes, U32, U64, Num32, Num64;
    reserved := [];
    if count > 0 {
      var one := ParsedRootIs(r[..ROOT_RECORD_SIZE], first);
      var rest := ParsedRootsAre(r[ROOT_RECORD_SIZE..], first + 1, count - 1);
      reserved := [one] + rest;
      var p := ParseRoots(r, first, count).value;
      var tail := ParseRoots(r[ROOT_RECORD_SIZE..], first + 1, count - 1).value;
      assert p.0[1..] == tail.0 && p.1[1..] == tail.1 && reserved[1..] == rest;
      assert r == r[..ROOT_RECORD_SIZE] + r[ROOT_RECORD_SIZE..];
    }
  }

  lemma HeadIs(r: seq<byte>)
    requires |r| >= CHECKPOINT_PREFIX_SIZE && r[..4] == CHECKPOINT_MAGIC
    ensures r == HeadThen(HeadAt(r), r[CHECKPOINT_PREFIX_SIZE..])
  {
    hide U32, U64, Num32, Num64;
    Unpeel(r, 0, 4);
    Unpeel(r, 4, 4);
    Unpeel(r, 8, 4);
    Unpeel(r, 12, 4);
    Unpeel(r, 16, 4);
    Unpeel(r, 20, 4);
    Unpeel(r, 24, 4);
    Unpeel(r, 28, 4);
    Unpeel(r, 32, 4);
    Unpeel(r, 36, 8);
    Unpeel(r, 44, 8);
    assert r[..4] == r[0..4] && r == r[0..];
  }

  lemma ParsedCheckpointIs(record: seq<byte>, versionCount: nat, ordinal: u32)
    requires ParseCheckpoint(record, versionCount, ordinal).Ok? && versionCount <= U32_MAX
    ensures var c := ParseCheckpoint(record, versionCount, ordinal).value;
      NamesOk(c) && record == CheckpointRecord(c)
  {
    hide Sealed, Unsealed, HeadThen, HeadAt;
    UnsealedIsSealed(record);
    var body, c := Unsealed(record).value, ParseCheckpoint(record, versionCount, ordinal).value;
    HeadIs(body);
    var h := HeadAt(body);
    var threadEnd := CHECKPOINT_PREFIX_SIZE + h.threadLen;
    Unpeel(body, CHECKPOINT_PREFIX_SIZE, h.threadLen);
    Unpeel(body, threadEnd, h.idLen);
    assert OptionId(c.parent) == body[threadEnd + h.idLen..];
    assert HeadOf(c) == h;
  }

  lemma {:induction false} ParsedSlotsAre(r: seq<byte>, count: nat)
    requires |r| == COMPACT_NODE_SIZE * count
    ensures SlotsBytes(SlotsOf(r)) == r
    decreases count
  {
    hide U32, U64, Num32, Num64;
    if count > 0 {
      ParsedSlotsAre(r[COMPACT_NODE_SIZE..], count - 1);
      var one := r[..COMPACT_NODE_SIZE];
      assert one == one[..8] + one[8..12] + one[12..16];
      assert SlotsOf(r)[1..] == SlotsOf(r[COMPACT_NODE_SIZE..]);
      assert r == one + r[COMPACT_NODE_SIZE..];
    }
  }

  lemma {:induction false} ParsedWidesAre(r: seq<byte>, count: nat)
    requires |r| == WIDE_RECORD_SIZE * count
    ensures WidesBytes(WidesOf(r)) == r
    decreases count
  {
    hide U32, U64, Num32, Num64;
    if count > 0 {
      ParsedWidesAre(r[WIDE_RECORD_SIZE..], count - 1);
      var one := r[..WIDE_RECORD_SIZE];
      assert one == one[..4] + one[4..8] + one[8..16] + one[16..24] + one[24..32];
      assert WidesOf(r)[1..] == WidesOf(r[WIDE_RECORD_SIZE..]);
      assert r == one + r[WIDE_RECORD_SIZE..];
    }
  }

  lemma HeaderIs(r: seq<byte>)
    requires |r| >= TX_HEADER_SIZE && r[..4] == TX_MAGIC
    ensures r == HeaderThen(HeaderAt(r), r[TX_HEADER_SIZE..])
  {
    hide U32, U64, Num32, Num64;
    Unpeel(r, 0, 4);
    Unpeel(r, 4, 4);
    Unpeel(r, 8, 4);
    Unpeel(r, 12, 4);
    Unpeel(r, 16, 4);
    Unpeel(r, 20, 4);
    Unpeel(r, 24, 8);
    Unpeel(r, 32, 8);
    Unpeel(r, 40, 8);
    Unpeel(r, 48, 4);
    Unpeel(r, 52, 4);
    Unpeel(r, 56, 8);
    Unpeel(r, 64, 4);
    Unpeel(r, 68, 4);
    assert r[..4] == r[0..4] && r == r[0..];
  }

  /** The parts of a record are those of the transaction they decode to. */
  ghost predicate PartsOf(t: Transaction, reserved: seq<u32>, h: Header, request: seq<byte>, payload: seq<byte>,
                          nodes: seq<byte>, wides: seq<byte>, roots: seq<byte>, checkpoint: seq<byte>)
  {
    && Sound(t) && h.checkpointCount > 0 && t.Before() == HeaderGeometry(h) && t.versionCount == h.versionCount
    && RequestBytes(t) == request && t.payload == payload
    && SlotsBytes(t.nodes) == nodes && WidesBytes(t.wides) == wides
    && |reserved| == |t.roots| && RootsBytes(t.versionStart, t.roots, t.parents, reserved) == roots
    && CheckpointRecord(t.checkpoint) == checkpoint
  }

  lemma DecodedPartsAre(h: Header, request: seq<byte>, payload: seq<byte>, nodes: seq<byte>, wides: seq<byte>,
                        roots: seq<byte>, checkpoint: seq<byte>, digest: Digest) returns (reserved: seq<u32>)
    requires h.checkpointCount > 0 && |roots| == ROOT_RECORD_SIZE * h.newVersions
    requires h.versionStart + h.newVersions == h.versionCount
    requires |request| == h.requestLen <= MAX_REQUEST_ID_BYTES && |payload| == h.payloadLen
    requires |nodes| == COMPACT_NODE_SIZE * h.nodeCount && |wides| == WIDE_RECORD_SIZE * h.wideCount
    requires DecodeParts(h, request, payload, nodes, wides, roots, checkpoint, digest).Ok?
    ensures var t := DecodeParts(h, request, payload, nodes, wides, roots, checkpoint, digest).value;
      && PartsOf(t, reserved, h, request, payload, nodes, wides, roots, checkpoint) && t.digest == digest
      && |reserved| == |t.roots| == h.newVersions
  {
    hide ParseRoots, ParseCheckpoint, RootsBytes, CheckpointRecord, RootsOk, ChannelsOk, NamesOk, SlotsBytes, SlotsOf,
      WidesBytes, WidesOf, Sound;
    DecodedIsSound(h, request, payload, nodes, wides, roots, checkpoint, digest);
    reserved := ParsedRootsAre(roots, h.versionStart, h.newVersions);
    ParsedSlotsAre(nodes, h.nodeCount);
    ParsedWidesAre(wides, h.wideCount);
    ParsedCheckpointIs(checkpoint, h.versionCount, h.checkpointCount - 1);
  }

  lemma HeaderOfParts(t: Transaction, reserved: seq<u32>, h: Header, request: seq<byte>, payload: seq<byte>,
                      nodes: seq<byte>, wides: seq<byte>, roots: seq<byte>, checkpoint: seq<byte>)
    requires PartsOf(t, reserved, h, request, payload, nodes, wides, roots, checkpoint)
    requires |request| == h.requestLen && |payload| == h.payloadLen && |checkpoint| == h.checkpointLen
    requires |nodes| == COMPACT_NODE_SIZE * h.nodeCount && |wides| == WIDE_RECORD_SIZE * h.wideCount
    requires |roots| == ROOT_RECORD_SIZE * h.newVersions
    requires h.total == TX_HEADER_SIZE + |request| + |payload| + |nodes| + |wides| + |roots| + |checkpoint|
                        + TX_CHECKSUM_SIZE
    ensures Encodable(t) && TransactionHeader(t) == h
    ensures TransactionParts(t, reserved) == request + (payload + (nodes + (wides + (roots + checkpoint))))
  {
    hide RootsBytes, CheckpointRecord, RootsOk, ChannelsOk, NamesOk, SlotsBytes, WidesBytes;
  }

  lemma ParsedPartsAre(h: Header, body: seq<byte>, digest: Digest) returns (reserved: seq<u32>)
    requires |body| >= TX_HEADER_SIZE && h.checkpointCount > 0 && body[..4] == TX_MAGIC && HeaderAt(body) == h
    requires h.requestLen <= MAX_REQUEST_ID_BYTES && h.versionStart + h.newVersions == h.versionCount
    requires h.total == |body| + TX_CHECKSUM_SIZE && ParseParts(h, body, digest).Ok?
    ensures var t := ParseParts(h, body, digest).value;
      && Encodable(t) && t.digest == digest && |reserved| == |t.roots|
      && body == HeaderThen(TransactionHeader(t), TransactionParts(t, reserved))
  {
    hide DecodeParts, HeaderThen, HeaderAt, PartsOf, Encodable, TransactionHeader, TransactionParts;
    var a := TX_HEADER_SIZE + h.requestLen;
    var b := a + h.payloadLen;
    var c := b + COMPACT_NODE_SIZE * h.nodeCount;
    var d := c + WIDE_RECORD_SIZE * h.wideCount;
    var e := d + ROOT_RECORD_SIZE * h.newVersions;
    var t := ParseParts(h, body, digest).value;
    reserved := DecodedPartsAre(h, body[TX_HEADER_SIZE..a], body[a..b], body[b..c], body[c..d], body[d..e], body[e..],
                                digest);
    HeaderOfParts(t, reserved, h, body[TX_HEADER_SIZE..a], body[a..b], body[b..c], body[c..d], body[d..e], body[e..]);
    Unpeel(body, TX_HEADER_SIZE, h.requestLen);
    Unpeel(body, a, h.payloadLen);
    Unpeel(body, b, COMPACT_NODE_SIZE * h.nodeCount);
    Unpeel(body, c, WIDE_RECORD_SIZE * h.wideCount);
    Unpeel(body, d, ROOT_RECORD_SIZE * h.newVersions);
    HeaderIs(body);
  }

  lemma ParsedIsRecord(record: seq<byte>) returns (reserved: seq<u32>)
    requires ParseTransaction(record, None).Ok?
    ensures var t := ParseTransaction(record, None).value;
      && Encodable(t) && t.digest == Sha256(record) && |reserved| == |t.roots|
      && record == EncodeReserved(t, reserved)
  {
    hide ParseParts, HeaderThen, HeaderAt, Encodable, TransactionHeader, TransactionParts, Sealed, Num32, Num64;
    UnsealedIsSealed(record);
    var body := Unsealed(record).value;
    reserved := ParsedPartsAre(HeaderAt(body), body, Sha256(record));
  }

  /** A record of the transaction: its encoding, with anything in the reserved
      words of its roots, and its digest that of the record. */
  ghost predicate IsRecordOf(record: seq<byte>, t: Transaction) {
    && Encodable(t) && t.digest == Sha256(record)
    && exists reserved: seq<u32> :: |reserved| == |t.roots| && record == EncodeReserved(t, reserved)
  }

  /** The parser accepts the records of encodable transactions that continue the
      given watermarks, each as its transaction, and nothing else. */
  lemma ParsesIff(record: seq<byte>, geometry: Option<Geometry>, t: Transaction)
    ensures ParseTransaction(record, geometry) == Ok(t) <==>
      IsRecordOf(record, t) && (geometry.Some? ==> t.Before() == geometry.value)
  {
    hide ParseTransaction, Encodable, EncodeReserved;
    if geometry.Some? { GeometryOnlyFilters(record, geometry.value); }
    if ParseTransaction(record, geometry) == Ok(t) {
      var reserved := ParsedIsRecord(record);
    }
    if IsRecordOf(record, t) {
      var reserved: seq<u32> :| |reserved| == |t.roots| && record == EncodeReserved(t, reserved);
      ReservedRoundTrip(t, reserved);
      GeometryOnlyFilters(record, t.Before());
      assert Sound(t) by { EncodableIsSound(t); }
    }
  }

  lemma EncodableIsSound(t: Transaction)
    requires Encodable(t)
    ensures Sound(t)
  {
  }
}
