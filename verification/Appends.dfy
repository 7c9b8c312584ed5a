/** Building the record of one new checkpoint and admitting it. */
module Appends {
  import opened Wrappers
  import opened Bytes
  import opened Format
  import opened Dag
  import opened Model
  import opened TransactionFormat
  import opened Transactions
  import opened Ranges

  const COMMA: seq<byte> := [0x2C]
  const NULL: seq<byte> := [0x6E, 0x75, 0x6C, 0x6C]
  const NULL_PREFIX: seq<byte> := IDENTITY_FRAME + NULL + COMMA
  const MESSAGE_PREFIX: seq<byte> := IDENTITY_FRAME + NULL + MESSAGES_FRAME
  const MESSAGE_SUFFIX: seq<byte> := MESSAGES_END + STATE_END

  /** Room for `bytes` more bytes, `nodes` nodes and `versions` versions. */
  predicate Room(g: Geometry, bytes: nat, nodes: nat, versions: nat) {
    && g.byteLen + bytes <= U64_MAX && g.nodeCount + nodes <= U64_MAX && g.wideCount <= U64_MAX
    && g.versionCount + versions <= U32_MAX && g.checkpointCount < U32_MAX
    && bytes <= U32_MAX
  }

  predicate NewNamesOk(thread: Id, id: Id, parent: Option<Id>) {
    IdentifierOk(thread) && IdentifierOk(id) && (parent.Some? ==> IdentifierOk(parent.value))
  }

  /** Bytes of the record of a checkpoint under these names, without a request
      and without wide nodes. */
  function RecordSize(thread: Id, id: Id, parent: Option<Id>, bytes: nat, nodes: nat, versions: nat): nat {
    TX_HEADER_SIZE + bytes + COMPACT_NODE_SIZE * nodes + ROOT_RECORD_SIZE * versions
    + CHECKPOINT_PREFIX_SIZE + |thread| + |id| + |OptionId(parent)| + 2 * TX_CHECKSUM_SIZE
  }

  // One identity leaf

  function IdentityTransaction(g: Geometry, thread: Id, id: Id, number: u32, parent: Option<Id>,
                               identity: seq<byte>): Result<Transaction>
  {
    var _ :- Check(NewNamesOk(thread, id, parent) && Room(g, |identity|, 1, 1));
    var _ :- Check(RecordSize(thread, id, parent, |identity|, 1, 1) <= U32_MAX);
    var canonical := Frame(identity, [], None);
    Ok(Transaction(
      g.versionCount, g.versionCount + 1, g.checkpointCount + 1,
      g.byteLen, identity, g.nodeCount, [LeafSlot(g.byteLen, |identity|)], g.wideCount, [],
      [Some(g.nodeCount)], [if g.versionCount == 0 then None else Some(g.versionCount - 1)],
      Checkpoint(g.checkpointCount, thread, number, id, parent, g.versionCount, None, None,
                 |canonical|, Xxh3(canonical)),
      None, NO_DIGEST))
  }

  // Messages appended under a parent's root

  datatype MessageParent = MessageParent(identityVersion: u32, root: u64, messagesVersion: u32)

  /** The nodes and versions one message delta adds. */
  datatype MessageDelta = MessageDelta(
    payload: seq<byte>, nodes: seq<Slot>, roots: seq<Option<u64>>, parents: seq<Option<u32>>,
    identityVersion: u32, messagesVersion: u32)

  function DeltaFor(g: Geometry, first: Option<Checkpoint>, parentId: Option<Id>,
                    parent: Option<MessageParent>, body: seq<byte>): (r: Result<MessageDelta>)
    ensures r.Err? ==> r == Err(Format)
  {
    if g.checkpointCount == 0 then
      var _ :- Check(parent.None? && parentId.None? && first.None? && Room(g, 4 + |body|, 2, 2));
      Ok(MessageDelta(NULL + body, [LeafSlot(g.byteLen, 4), LeafSlot(g.byteLen + 4, |body|)],
                      [Some(g.nodeCount), Some(g.nodeCount + 1)], [None, None],
                      g.versionCount, g.versionCount + 1))
    else if parent.Some? then
      var root := g.nodeCount + 1;
      var _ :- Check(parentId.Some? && Room(g, 1 + |body|, 2, 1));
      var _ :- Check(parent.value.root <= root && root - parent.value.root <= U32_MAX);
      Ok(MessageDelta(COMMA + body,
                      [LeafSlot(g.byteLen, 1 + |body|), BinarySlot(root - parent.value.root, 1)],
                      [Some(root)], [Some(parent.value.messagesVersion)],
                      parent.value.identityVersion, g.versionCount))
    else
      var _ :- Check(parentId.None? && first.Some? && Room(g, |body|, 1, 1));
      Ok(MessageDelta(body, [LeafSlot(g.byteLen, |body|)], [Some(g.nodeCount)], [None],
                      first.value.identityVersion, g.versionCount))
  }

  function MessageTransaction(g: Geometry, first: Option<Checkpoint>, thread: Id, id: Id, number: u32,
                              parentId: Option<Id>, parent: Option<MessageParent>, body: seq<byte>,
                              len: u64, hash: u64): (r: Result<Transaction>)
    ensures r.Err? ==> r == Err(Format)
  {
    var _ :- Check(NewNamesOk(thread, id, parentId) && body != []);
    var d :- DeltaFor(g, first, parentId, parent, body);
    var _ :- Check(RecordSize(thread, id, parentId, |d.payload|, |d.nodes|, |d.roots|) <= U32_MAX);
    Ok(Transaction(
      g.versionCount, g.versionCount + |d.roots|, g.checkpointCount + 1,
      g.byteLen, d.payload, g.nodeCount, d.nodes, g.wideCount, [], d.roots, d.parents,
      Checkpoint(g.checkpointCount, thread, number, id, parentId, d.identityVersion,
                 Some(d.messagesVersion), None, len, hash),
      None, NO_DIGEST))
  }

  /** Encoded message values, comma separated. */
  function JoinValues(values: seq<seq<byte>>): seq<byte> {
    if values == [] then []
    else if |values| == 1 then values[0]
    else values[0] + COMMA + JoinValues(values[1..])
  }

  function RootMetadata(body: seq<byte>): (r: Result<(u64, u64)>)
    ensures r.Err? ==> r == Err(Format)
  {
    var canonical := MESSAGE_PREFIX + body + MESSAGE_SUFFIX;
    if |canonical| > U64_MAX then Err(Format) else Ok((|canonical|, Xxh3(canonical)))
  }

  /** The child's length and hash, read off the parent's canonical bytes. */
  function ChildMetadata(s: StoreState, parent: Checkpoint, body: seq<byte>): (r: Result<(u64, u64)>)
    ensures r.Err? ==> r == Err(Format)
  {
    var v := ViewOf(s);
    var _ :- Check(parent.logicalLen >= |MESSAGE_PREFIX| + |MESSAGE_SUFFIX|);
    var keep := parent.logicalLen - |MESSAGE_SUFFIX|;
    var prefix :- RangeOf(v, s.versions, parent, 0, |MESSAGE_PREFIX|);
    var suffix :- RangeOf(v, s.versions, parent, keep, |MESSAGE_SUFFIX|);
    var _ :- Check(prefix == MESSAGE_PREFIX && suffix == MESSAGE_SUFFIX);
    var _ :- Check(parent.logicalLen + 1 + |body| <= U64_MAX);
    var streamed :- RangeOf(v, s.versions, parent, 0, keep);
    Ok((parent.logicalLen + 1 + |body|, Xxh3(streamed + COMMA + body + MESSAGE_SUFFIX)))
  }

  function FindParent(s: StoreState, thread: Id, parentId: Id): Result<(Checkpoint, MessageParent)> {
    var key := Key(thread, parentId);
    if key !in s.checkpointOrdinals then Err(CheckpointNotFound)
    else if s.checkpointOrdinals[key] >= |s.checkpoints| then Err(Format)
    else
      var info := s.checkpoints[s.checkpointOrdinals[key]];
      var _ :- Check(info.messagesVersion.Some? && HasRoot(s.versions, info.messagesVersion.value));
      Ok((info, MessageParent(info.identityVersion, s.versions[info.messagesVersion.value].value,
                              info.messagesVersion.value)))
  }

  /** The root-message check: the first checkpoint must start with a null
      identity; only the prefix is compared. */
  function FirstIsNull(s: StoreState): Result<()> {
    if s.checkpoints == [] then Ok(())
    else
      var prefix :- RangeOf(ViewOf(s), s.versions, s.checkpoints[0], 0, |NULL_PREFIX|);
      Check(prefix == NULL_PREFIX)
  }

  function AppendMessages(s: StoreState, thread: Id, id: Id, number: u32, parentId: Option<Id>,
                          values: seq<seq<byte>>): Result<Transaction>
  {
    var _ :- Check(values != []);
    var body := JoinValues(values);
    var first := if s.checkpoints == [] then None else Some(s.checkpoints[0]);
    if parentId.Some? then
      var parent :- FindParent(s, thread, parentId.value);
      var metadata :- ChildMetadata(s, parent.0, body);
      MessageTransaction(s.Watermarks(), first, thread, id, number, parentId, Some(parent.1), body,
                         metadata.0, metadata.1)
    else
      var _ :- FirstIsNull(s);
      var metadata :- RootMetadata(body);
      MessageTransaction(s.Watermarks(), first, thread, id, number, None, None, body,
                         metadata.0, metadata.1)
  }

  /** As the encoders build them: leaves in the new payload, no wide slots. */
  predicate SlotsLocal(slots: seq<Slot>, byteStart: nat) {
    forall i :: 0 <= i < |slots| ==>
      slots[i].kind != KIND_WIDE && (slots[i].kind == KIND_LEAF ==> slots[i].field0 >= byteStart)
  }

  predicate Local(tx: Transaction) { SlotsLocal(tx.nodes, tx.byteStart) }

  // Admission of a record

  /** The record as a transaction that continues the state; a deleted name is
      refused even when the record does not continue it. */
  function Receive(s: StoreState, record: seq<byte>): Result<Transaction> {
    var plain :- ParseTransaction(record, None);
    if plain.checkpoint.Name() in s.deleted then Err(CheckpointDeleted)
    else ParseTransaction(record, Some(s.Watermarks()))
  }

  function Admit(s: StoreState, record: seq<byte>): Result<Transaction> {
    var tx :- Receive(s, record);
    var _ :- Prepare(s, tx);
    Ok(tx)
  }

  /** What a record is refused for, in the order of the checks: it is no record;
      its name is deleted, whether it continues the state or not; it does not
      continue the state; or it is refused as a commit. */
  lemma AdmitExactly(s: StoreState, record: seq<byte>)
    ensures var r, plain := Admit(s, record), ParseTransaction(record, None);
      && (plain.Err? ==> r == Err(plain.error))
      && (plain.Ok? && plain.value.checkpoint.Name() in s.deleted ==> r == Err(CheckpointDeleted))
      && (plain.Ok? && plain.value.checkpoint.Name() !in s.deleted ==>
            && (!ContinuesFrom(plain.value, s.Watermarks()) ==> r.Err?)
            && (ContinuesFrom(plain.value, s.Watermarks()) ==>
                  r == if Prepare(s, plain.value).Ok? then plain else Err(Prepare(s, plain.value).error)))
  {
    hide Prepare, Sound;
    GeometryOnlyFilters(record, s.Watermarks());
  }

  /** The stored length and hash are those of the reconstructed bytes. */
  ghost predicate Verified(s: StoreState, c: Checkpoint) {
    var bytes := CheckpointBytes(s, c);
    bytes.Some? && |bytes.value| == c.logicalLen && Xxh3(bytes.value) == c.stateHash
  }

  /** Whether the names a transaction uses are free and its parent exists. */
  predicate NamesFree(s: StoreState, c: Checkpoint) { Free(s, c.thread, c.id, c.parent) }

  predicate Free(s: StoreState, thread: Id, id: Id, parent: Option<Id>) {
    && Key(thread, id) !in s.checkpointOrdinals && Key(thread, id) !in s.deleted
    && (parent.Some? ==> Key(thread, parent.value) in s.checkpointOrdinals)
  }

  /** A transaction built at the current watermarks is encoded, parsed and
      admitted exactly when its names allow it and its nodes are valid. */
  lemma AdmitEncoded(s: StoreState, t: Transaction)
    requires Inv(s) && Encodable(t) && t.Before() == s.Watermarks() && t.request.None?
    requires NewNodesValid(s, t)
    ensures var r := Admit(s, EncodeTransaction(t));
      && (r.Ok? <==> NamesFree(s, t.checkpoint))
      && (r.Ok? ==> r.value == t.(digest := Sha256(EncodeTransaction(t))) && Admitted(s, r.value))
      && (t.checkpoint.Name() in s.deleted ==> r == Err(CheckpointDeleted))
  {
    hide ParseTransaction, EncodeTransaction, NewNodesValid, WellFormed, VersionsOk, CheckpointOk, RootsOk, ChannelsOk,
      NamesOk, ThreadsIndexed, RequestsOk;
    var record := EncodeTransaction(t);
    TransactionRoundTrip(t);
    GeometryOnlyFilters(record, s.Watermarks());
    DigestIrrelevant(s, t, Sha256(record));
    var c := t.checkpoint;
    if c.parent.Some? && Key(c.thread, c.parent.value) in s.checkpointOrdinals {
      assert s.checkpointOrdinals[Key(c.thread, c.parent.value)] < |s.checkpoints|;
    }
  }

  /** A transaction that can be prepared is admitted from its record. */
  lemma AdmitPrepared(s: StoreState, t: Transaction)
    requires Encodable(t) && Prepare(s, t).Ok?
    ensures var tx := t.(digest := Sha256(EncodeTransaction(t)));
      Admit(s, EncodeTransaction(t)) == Ok(tx) && Prepare(s, tx).Ok?
  {
    hide ParseTransaction, EncodeTransaction, NewNodesValid, RootsOk, ChannelsOk, NamesOk;
    var record := EncodeTransaction(t);
    TransactionRoundTrip(t);
    GeometryOnlyFilters(record, s.Watermarks());
    DigestIrrelevant(s, t, Sha256(record));
  }

  lemma DigestIrrelevant(s: StoreState, t: Transaction, digest: Digest)
    requires NewNodesValid(s, t)
    ensures NewNodesValid(s, t.(digest := digest))
  {
  }

  /** A binary slot decodes to the children its distances point at. */
  lemma BinaryDecodes(id: nat, left: nat, right: nat)
    requires left < id && right < id && id - left <= U32_MAX && id - right <= U32_MAX
    ensures DecodeBinary(BinarySlot(id - left, id - right).field0, id) == Some(Binary(left, right))
  {
  }

  /** The bytes of a leaf slot that lies inside the arena. */
  lemma LeafExtracts(s: StoreState, id: nat, offset: u64, length: u32)
    requires s.base == EMPTY_GEOMETRY && id < |s.nodes| && s.nodes[id] == LeafSlot(offset, length)
    requires offset + length <= |s.arena|
    ensures Extract(ViewOf(s), id) == Some(s.arena[offset..offset + length])
  {
    assert ViewOf(s).nodes[id] == DecodeNode(s, id);
  }

  lemma BinaryExtracts(s: StoreState, id: nat, left: nat, right: nat)
    requires s.base == EMPTY_GEOMETRY && id < |s.nodes| && left < id && right < id
    requires id - left <= U32_MAX && id - right <= U32_MAX
    requires s.nodes[id] == BinarySlot(id - left, id - right)
    ensures Extract(ViewOf(s), id) == Join(Extract(ViewOf(s), left), Extract(ViewOf(s), right))
  {
    BinaryDecodes(id, left, right);
    assert ViewOf(s).nodes[id] == DecodeNode(s, id);
  }

  /** What an identity append asks of its arguments, free names aside. */
  predicate IdentityFits(s: StoreState, thread: Id, id: Id, parent: Option<Id>, length: nat) {
    && NewNamesOk(thread, id, parent)
    && |s.arena| + length <= U64_MAX && |s.nodes| < U64_MAX
    && |s.versions| < U32_MAX && |s.checkpoints| < U32_MAX
    && 188 + length + |thread| + |id| + |OptionId(parent)| <= U32_MAX
  }

  /** The latest version of a state. */
  function LatestVersion(s: StoreState): Option<nat> {
    if s.versions == [] then None else Some(|s.versions| - 1)
  }

  /** What one identity append leaves behind: one leaf and one version whose
      parent is the version before it, a checkpoint that reads as the framed
      identity, and every earlier one as it was. */
  ghost predicate IdentityOutcome(s: StoreState, thread: Id, id: Id, number: u32, parent: Option<Id>,
                                  identity: seq<byte>, tx: Transaction)
  {
    var after, frame := Apply(s, tx), Frame(identity, [], None);
    && Admitted(s, tx) && |tx.nodes| == |tx.roots| == 1 && tx.wides == [] && tx.request.None?
    && tx.parents == [LatestVersion(s)] && |frame| <= U64_MAX
    && tx.checkpoint == Checkpoint(|s.checkpoints|, thread, number, id, parent, |s.versions|, None, None,
                                   |frame|, Xxh3(frame))
    && CheckpointBytes(after, tx.checkpoint) == Some(frame)
    && (forall i :: 0 <= i < |s.checkpoints| ==>
          CheckpointBytes(after, s.checkpoints[i]) == CheckpointBytes(s, s.checkpoints[i]))
  }

  lemma IdentityLeafReads(s: StoreState, tx: Transaction, identity: seq<byte>)
    requires Inv(s) && |s.arena| + |identity| <= U64_MAX && |identity| <= U32_MAX
    requires tx.payload == identity && tx.nodes == [LeafSlot(|s.arena|, |identity|)] && |s.nodes| <= U64_MAX
    requires tx.roots == [Some(|s.nodes|)] && tx.checkpoint.identityVersion == |s.versions|
    requires tx.checkpoint.messagesVersion.None? && tx.checkpoint.resultVersion.None?
    ensures CheckpointBytes(Apply(s, tx), tx.checkpoint) == Some(Frame(identity, [], None))
  {
    hide WellFormed, VersionsOk, CheckpointOk, CheckpointsIndexed, ThreadsIndexed, RequestsOk, Frame, Extract, ViewOf;
    var after := Apply(s, tx);
    LeafExtracts(after, |s.nodes|, |s.arena|, |identity|);
    assert after.arena[|s.arena|..|s.arena| + |identity|] == identity;
    assert after.versions[|s.versions|] == Some(|s.nodes|);
  }

  lemma IdentityBuilt(s: StoreState, thread: Id, id: Id, number: u32, parent: Option<Id>, identity: seq<byte>)
    requires Inv(s)
    ensures var r := IdentityTransaction(s.Watermarks(), thread, id, number, parent, identity);
      && (r.Ok? <==> IdentityFits(s, thread, id, parent, |identity|))
      && (r.Ok? ==> Encodable(r.value) && NewNodesValid(s, r.value) && r.value.Before() == s.Watermarks())
  {
    hide WellFormed, CheckpointOk, ThreadsIndexed, CheckpointsIndexed, VersionsOk, RequestsOk, Frame, IdentifierOk;
  }

  /** An identity append is built exactly when names and numbers fit and admitted
      exactly when its names are free besides. It then adds exactly one
      checkpoint, whose bytes are the framed identity and whose stored length and
      hash are theirs, and changes the bytes of no earlier one. */
  lemma IdentityAppendExact(s: StoreState, thread: Id, id: Id, number: u32, parent: Option<Id>,
                            identity: seq<byte>)
    requires Inv(s)
    ensures var r := IdentityTransaction(s.Watermarks(), thread, id, number, parent, identity);
      && (r.Ok? <==> IdentityFits(s, thread, id, parent, |identity|))
      && (r.Ok? ==>
            && Encodable(r.value)
            && var admitted := Admit(s, EncodeTransaction(r.value));
               (admitted.Ok? <==> Free(s, thread, id, parent))
               && (admitted.Ok? ==> admitted.value == r.value.(digest := admitted.value.digest)
                                    && IdentityOutcome(s, thread, id, number, parent, identity, admitted.value)))
  {
    hide EncodeTransaction, Admit, Frame, WellFormed, CheckpointOk, ThreadsIndexed, CheckpointsIndexed, VersionsOk,
      RequestsOk, Extract, Encodable, NewNodesValid, IdentifierOk;
    IdentityBuilt(s, thread, id, number, parent, identity);
    var r := IdentityTransaction(s.Watermarks(), thread, id, number, parent, identity);
    if r.Ok? {
      AdmitEncoded(s, r.value);
      var admitted := Admit(s, EncodeTransaction(r.value));
      if admitted.Ok? {
        IdentityLeafReads(s, admitted.value, identity);
        forall i | 0 <= i < |s.checkpoints|
          ensures CheckpointBytes(Apply(s, admitted.value), s.checkpoints[i]) == CheckpointBytes(s, s.checkpoints[i])
        {
          EarlierBytesStay(s, admitted.value, i);
        }
      }
    }
  }

  // Records that carry one node

  /** A raw commit of one node and its version, without parent or messages. */
  function OneNodeCommit(g: Geometry, thread: Id, id: Id, payload: seq<byte>, slot: Slot, wides: seq<WideRecord>,
                         request: Option<seq<byte>>): Transaction
    requires Room(g, |payload|, 1, 1)
  {
    Transaction(g.versionCount, g.versionCount + 1, g.checkpointCount + 1, g.byteLen, payload, g.nodeCount, [slot],
                g.wideCount, wides, [Some(g.nodeCount)], [None],
                Checkpoint(g.checkpointCount, thread, 0, id, None, g.versionCount, None, None, 0, 0),
                request, NO_DIGEST)
  }

  /** It is admitted wherever its name and request are free and its node is
      valid. */
  lemma OneNodeAdmitted(s: StoreState, thread: Id, id: Id, payload: seq<byte>, slot: Slot, wides: seq<WideRecord>,
                        request: Option<seq<byte>>)
    requires Room(s.Watermarks(), |payload|, 1, 1) && s.Watermarks().nodeCount < U64_MAX
    requires |payload| <= 1000 && |wides| <= 1 && s.Watermarks().wideCount + |wides| <= U64_MAX
    requires IdentifierOk(thread) && IdentifierOk(id)
    requires request.Some? ==> 0 < |request.value| <= MAX_REQUEST_ID_BYTES && request.value !in s.requests
    requires Key(thread, id) !in s.checkpointOrdinals && Key(thread, id) !in s.deleted
    requires SlotValid(s, OneNodeCommit(s.Watermarks(), thread, id, payload, slot, wides, request), slot,
                       s.Watermarks().nodeCount)
    ensures var t := OneNodeCommit(s.Watermarks(), thread, id, payload, slot, wides, request);
      && Encodable(t)
      && Admit(s, EncodeTransaction(t)) == Ok(t.(digest := Sha256(EncodeTransaction(t))))
      && Sound(t.(digest := Sha256(EncodeTransaction(t))))
      && Prepare(s, t.(digest := Sha256(EncodeTransaction(t)))).Ok?
  {
    hide IdentifierOk, SlotValid, EncodeTransaction, ParseTransaction;
    var t := OneNodeCommit(s.Watermarks(), thread, id, payload, slot, wides, request);
    OneNodeEncodable(t);
    OneNodeValid(s, t, slot);
    AdmitPrepared(s, t);
  }

  lemma OneNodeEncodable(t: Transaction)
    requires Sound(t) && |t.payload| <= 1000 && |t.nodes| == 1 && |t.roots| == 1 && |t.wides| <= 1
    requires t.checkpoint.parent.None?
    ensures Encodable(t)
  {
  }

  lemma OneNodeValid(s: StoreState, t: Transaction, slot: Slot)
    requires t.nodes == [slot] && SlotValid(s, t, slot, s.Watermarks().nodeCount)
    requires t.nodeStart == s.Watermarks().nodeCount && t.roots == [Some(t.nodeStart)]
    ensures NewNodesValid(s, t)
  {
    hide SlotValid;
  }

  /** The first commit of a store. */
  lemma FirstCommit(thread: Id, id: Id, payload: seq<byte>, slot: Slot, wides: seq<WideRecord>,
                    request: Option<seq<byte>>)
    returns (first: Transaction)
    requires |payload| <= 1000 && |wides| <= 1 && IdentifierOk(thread) && IdentifierOk(id)
    requires request.Some? ==> 0 < |request.value| <= MAX_REQUEST_ID_BYTES
    requires SlotValid(EMPTY_STATE, OneNodeCommit(EMPTY_GEOMETRY, thread, id, payload, slot, wides, request), slot, 0)
    ensures first == OneNodeCommit(EMPTY_GEOMETRY, thread, id, payload, slot, wides, request).(digest := first.digest)
    ensures Encodable(first.(digest := NO_DIGEST))
    ensures Admit(EMPTY_STATE, EncodeTransaction(first.(digest := NO_DIGEST))) == Ok(first)
    ensures Sound(first) && Prepare(EMPTY_STATE, first).Ok?
    ensures Replay(EMPTY_STATE, [first]) == Ok(Apply(EMPTY_STATE, first)) && Inv(Apply(EMPTY_STATE, first))
  {
    hide IdentifierOk, SlotValid, EncodeTransaction, ParseTransaction, Prepare, Sound, Inv, Apply, Admit, Encodable;
    EmptyStateInv();
    OneNodeAdmitted(EMPTY_STATE, thread, id, payload, slot, wides, request);
    var t := OneNodeCommit(EMPTY_GEOMETRY, thread, id, payload, slot, wides, request);
    first := t.(digest := Sha256(EncodeTransaction(t)));
    assert first.(digest := NO_DIGEST) == t;
    ApplyKeepsInv(EMPTY_STATE, first);
    ReplayOne(EMPTY_STATE, first);
  }
}
