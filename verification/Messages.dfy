/** Appending messages shares the parent's root; the child's canonical bytes
    are the parent's with the new messages in front of the closing brackets. */
module Messages {
  import opened Wrappers
  import opened Bytes
  import opened Format
  import opened Dag
  import opened Model
  import opened TransactionFormat
  import opened Transactions
  import opened Ranges
  import opened Appends

  /** A checkpoint of the append-only message schema, stored correctly. */
  ghost predicate IsMessage(s: StoreState, c: Checkpoint) {
    && ExtractVersion(ViewOf(s), s.versions, c.identityVersion) == Some(NULL)
    && c.messagesVersion.Some? && c.resultVersion.None?
    && Channel(ViewOf(s), s.versions, c.messagesVersion).Some?
    && Verified(s, c)
  }

  /** A store that holds nothing but message checkpoints. */
  ghost predicate MessageStore(s: StoreState) {
    Inv(s) && forall i :: 0 <= i < |s.checkpoints| ==> IsMessage(s, s.checkpoints[i])
  }

  ghost function MessagesOf(s: StoreState, c: Checkpoint): seq<byte>
    requires Channel(ViewOf(s), s.versions, c.messagesVersion).Some?
  {
    Channel(ViewOf(s), s.versions, c.messagesVersion).value
  }

  /** The canonical bytes of a message checkpoint around its messages. */
  function Framed(messages: seq<byte>): seq<byte> {
    MESSAGE_PREFIX + messages + MESSAGE_SUFFIX
  }

  lemma FramedIsFrame(messages: seq<byte>)
    ensures Frame(NULL, messages, None) == Framed(messages)
  {
  }

  /** Taking the suffix off and putting a delta in front of it. */
  lemma FramedGrows(messages: seq<byte>, body: seq<byte>)
    ensures var f := Framed(messages);
      f[..|f| - |MESSAGE_SUFFIX|] + COMMA + body + MESSAGE_SUFFIX == Framed(messages + (COMMA + body))
  {
    var f := Framed(messages);
    assert f[..|f| - |MESSAGE_SUFFIX|] == MESSAGE_PREFIX + messages;
  }

  lemma MessageBytes(s: StoreState, c: Checkpoint)
    requires ExtractVersion(ViewOf(s), s.versions, c.identityVersion) == Some(NULL)
    requires c.messagesVersion.Some? && c.resultVersion.None?
    requires Channel(ViewOf(s), s.versions, c.messagesVersion).Some?
    ensures CheckpointBytes(s, c) == Some(Framed(MessagesOf(s, c)))
  {
    FramedIsFrame(MessagesOf(s, c));
  }

  /** In a message store the parent's framing checks pass and the child's
      metadata are the length and hash of the grown frame. */
  lemma ChildMetadataExact(s: StoreState, parent: Checkpoint, body: seq<byte>)
    requires IsMessage(s, parent)
    ensures var grown := Framed(MessagesOf(s, parent) + (COMMA + body));
      ChildMetadata(s, parent, body) ==
        if |grown| <= U64_MAX then Ok((|grown|, Xxh3(grown))) else Err(Format)
  {
    hide ExtractVersion, ViewOf, Xxh3;
    MessageBytes(s, parent);
    var m := MessagesOf(s, parent);
    var f := Framed(m);
    FramedGrows(m, body);
    var v := ViewOf(s);
    RangeIsSlice(v, s.versions, parent, 0, |MESSAGE_PREFIX|);
    RangeIsSlice(v, s.versions, parent, |f| - |MESSAGE_SUFFIX|, |MESSAGE_SUFFIX|);
    RangeIsSlice(v, s.versions, parent, 0, |f| - |MESSAGE_SUFFIX|);
    assert f[..|MESSAGE_PREFIX|] == MESSAGE_PREFIX;
    assert f[|f| - |MESSAGE_SUFFIX|..] == MESSAGE_SUFFIX;
    hide RangeOf, Framed;
  }

  /** A parent reference that names a live version with a root. */
  ghost predicate ParentFits(s: StoreState, parent: MessageParent) {
    && parent.identityVersion < |s.versions|
    && parent.messagesVersion < |s.versions|
    && s.versions[parent.messagesVersion] == Some(parent.root)
  }

  ghost predicate Inputs(s: StoreState, first: Option<Checkpoint>, parent: Option<MessageParent>) {
    && Inv(s)
    && first == (if s.checkpoints == [] then None else Some(s.checkpoints[0]))
    && (parent.Some? ==> ParentFits(s, parent.value))
  }

  /** Whatever branch built it, a message transaction is sound and its nodes
      are valid at the watermarks it was built for. */
  lemma MessageTransactionFits(s: StoreState, first: Option<Checkpoint>, thread: Id, id: Id, number: u32,
                               parentId: Option<Id>, parent: Option<MessageParent>, body: seq<byte>,
                               len: u64, hash: u64)
    requires Inputs(s, first, parent)
    requires MessageTransaction(s.Watermarks(), first, thread, id, number, parentId, parent, body, len, hash).Ok?
    ensures var t := MessageTransaction(s.Watermarks(), first, thread, id, number, parentId, parent,
                                        body, len, hash).value;
      Encodable(t) && t.Before() == s.Watermarks() && NewNodesValid(s, t)
  {
    hide WellFormed, CheckpointsIndexed, ThreadsIndexed, RequestsOk;
    var g := s.Watermarks();
    if g.checkpointCount > 0 && parent.None? {
      assert CheckpointOk(s, 0);
    }
    if g.checkpointCount > 0 && parent.Some? {
      assert parent.value.root < |s.nodes|;
      BinaryDecodes(g.nodeCount + 1, parent.value.root, g.nodeCount);
    }
    hide CheckpointOk, VersionsOk;
  }

  /** The one version a non-first message checkpoint adds. */
  lemma NewVersion(s: StoreState, tx: Transaction)
    requires Admitted(s, tx) && tx.roots != [] && tx.versionStart == |s.versions|
    ensures forall i :: 0 <= i < |tx.roots| ==>
      ExtractVersion(ViewOf(Apply(s, tx)), Apply(s, tx).versions, |s.versions| + i) ==
      (if tx.roots[i].None? then None else Extract(ViewOf(Apply(s, tx)), tx.roots[i].value))
  {
    hide Admitted, Extract, ViewOf;
    var after := Apply(s, tx);
    assert forall i :: 0 <= i < |tx.roots| ==> after.versions[|s.versions| + i] == tx.roots[i];
  }

  lemma FirstMessages(s: StoreState, tx: Transaction, body: seq<byte>)
    requires Admitted(s, tx) && tx.payload == NULL + body
    requires |body| <= U32_MAX && |s.arena| + 4 <= U64_MAX
    requires tx.nodes == [LeafSlot(|s.arena|, 4), LeafSlot(|s.arena| + 4, |body|)]
    ensures Extract(ViewOf(Apply(s, tx)), |s.nodes|) == Some(NULL)
    ensures Extract(ViewOf(Apply(s, tx)), |s.nodes| + 1) == Some(body)
  {
    hide WellFormed, VersionsOk, CheckpointOk, CheckpointsIndexed, ThreadsIndexed, RequestsOk, Prepare, Sound, ViewOf,
      Extract, BinarySlot, LeafSlot;
    var after, b := Apply(s, tx), |s.arena|;
    LeafExtracts(after, |s.nodes|, b, 4);
    LeafExtracts(after, |s.nodes| + 1, b + 4, |body|);
    assert after.arena[b..b + 4] == NULL && after.arena[b + 4..b + 4 + |body|] == body;
  }

  lemma RootMessages(s: StoreState, tx: Transaction, body: seq<byte>)
    requires Admitted(s, tx) && tx.payload == body && |body| <= U32_MAX
    requires tx.nodes == [LeafSlot(|s.arena|, |body|)]
    ensures Extract(ViewOf(Apply(s, tx)), |s.nodes|) == Some(body)
  {
    hide WellFormed, VersionsOk, CheckpointOk, CheckpointsIndexed, ThreadsIndexed, RequestsOk, Prepare, Sound, ViewOf,
      Extract, BinarySlot, LeafSlot;
    var after, b := Apply(s, tx), |s.arena|;
    LeafExtracts(after, |s.nodes|, b, |body|);
    assert after.arena[b..b + |body|] == body;
  }

  lemma ChildMessages(s: StoreState, tx: Transaction, parent: MessageParent, body: seq<byte>)
    requires Admitted(s, tx) && ParentFits(s, parent) && parent.root <= |s.nodes|
    requires tx.payload == COMMA + body && 1 + |body| <= U32_MAX && |s.nodes| + 1 - parent.root <= U32_MAX
    requires tx.nodes == [LeafSlot(|s.arena|, 1 + |body|), BinarySlot(|s.nodes| + 1 - parent.root, 1)]
    ensures Extract(ViewOf(Apply(s, tx)), |s.nodes| + 1)
         == Join(Extract(ViewOf(s), parent.root), Some(COMMA + body))
  {
    hide WellFormed, VersionsOk, CheckpointOk, CheckpointsIndexed, ThreadsIndexed, RequestsOk, Prepare, Sound, ViewOf,
      Extract, BinarySlot, LeafSlot;
    var after, n, b := Apply(s, tx), |s.nodes|, |s.arena|;
    ViewExtends(s, tx);
    ParentExtracts(s, parent);
    ExtractExtends(ViewOf(s), ViewOf(after), parent.root);
    LeafExtracts(after, n, b, 1 + |body|);
    assert after.arena[b..b + 1 + |body|] == COMMA + body;
    BinaryExtracts(after, n + 1, parent.root, n);
  }

  /** The messages a new checkpoint extracts to: the parent's, a comma and the
      body, or the body alone. */
  lemma NewMessages(s: StoreState, first: Option<Checkpoint>, thread: Id, id: Id, number: u32,
                    parentId: Option<Id>, parent: Option<MessageParent>, body: seq<byte>,
                    len: u64, hash: u64, tx: Transaction)
    requires Inputs(s, first, parent) && Admitted(s, tx)
    requires MessageTransaction(s.Watermarks(), first, thread, id, number, parentId, parent, body, len, hash)
          == Ok(tx.(digest := NO_DIGEST))
    ensures var after := Apply(s, tx);
      var c := tx.checkpoint;
      && c.messagesVersion.Some? && c.resultVersion.None?
      && Channel(ViewOf(after), after.versions, c.messagesVersion) ==
           (if parent.Some? then Join(Extract(ViewOf(s), parent.value.root), Some(COMMA + body)) else Some(body))
      && (s.checkpoints == [] ==> ExtractVersion(ViewOf(after), after.versions, c.identityVersion) == Some(NULL))
  {
    hide WellFormed, VersionsOk, CheckpointOk, CheckpointsIndexed, ThreadsIndexed, RequestsOk, Prepare, Sound,
      ExtractVersion, Extract, ViewOf, BinarySlot, LeafSlot, IdentifierOk;
    NewVersion(s, tx);
    if s.checkpoints == [] {
      assert tx.roots[0] == Some(|s.nodes|) && tx.roots[1] == Some(|s.nodes| + 1);
      FirstMessages(s, tx, body);
    } else if parent.Some? {
      assert tx.roots[0] == Some(|s.nodes| + 1);
      ParentExtracts(s, parent.value);
      ChildMessages(s, tx, parent.value, body);
    } else {
      assert tx.roots[0] == Some(|s.nodes|);
      RootMessages(s, tx, body);
    }
  }

  lemma ParentExtracts(s: StoreState, parent: MessageParent)
    requires Inv(s) && ParentFits(s, parent)
    ensures parent.root < |s.nodes| && Extract(ViewOf(s), parent.root).Some?
  {
    ExtractTotal(ViewOf(s), parent.root);
  }

  /** A message checkpoint stays one when anything else is added. */
  lemma MessageStays(s: StoreState, tx: Transaction, i: nat)
    requires Admitted(s, tx) && i < |s.checkpoints| && IsMessage(s, s.checkpoints[i])
    ensures IsMessage(Apply(s, tx), s.checkpoints[i])
  {
    hide WellFormed, CheckpointsIndexed, ThreadsIndexed, RequestsOk, Prepare, Sound, ViewOf, Extract;
    var c, t := s.checkpoints[i], Apply(s, tx);
    ViewExtends(s, tx);
    EarlierBytesStay(s, tx, i);
    assert CheckpointOk(s, i);
    ChannelExtends(ViewOf(s), ViewOf(t), s.versions, t.versions, c.identityVersion);
    ChannelExtends(ViewOf(s), ViewOf(t), s.versions, t.versions, c.messagesVersion.value);
  }

  /** The bytes an append promises for its new checkpoint. */
  ghost function Promised(s: StoreState, thread: Id, parentId: Option<Id>, body: seq<byte>): seq<byte>
    requires MessageStore(s)
    requires parentId.Some? ==> Key(thread, parentId.value) in s.checkpointOrdinals
  {
    if parentId.None? then Framed(body)
    else
      var p := s.checkpoints[s.checkpointOrdinals[Key(thread, parentId.value)]];
      assert IsMessage(s, p);
      var bytes := CheckpointBytes(s, p).value;
      if |bytes| < |MESSAGE_SUFFIX| then [] else bytes[..|bytes| - |MESSAGE_SUFFIX|] + COMMA + body + MESSAGE_SUFFIX
  }

  lemma ChildFrame(s: StoreState, p: Checkpoint, body: seq<byte>)
    requires IsMessage(s, p)
    ensures var bytes := CheckpointBytes(s, p);
      && bytes.Some? && |bytes.value| >= |MESSAGE_SUFFIX|
      && bytes.value[..|bytes.value| - |MESSAGE_SUFFIX|] + COMMA + body + MESSAGE_SUFFIX
         == Framed(MessagesOf(s, p) + (COMMA + body))
  {
    MessageBytes(s, p);
    FramedGrows(MessagesOf(s, p), body);
  }

  /** A new message checkpoint with the promised messages is stored correctly
      when its recorded length and hash are those of the framed messages. */
  lemma NewIsMessage(after: StoreState, c: Checkpoint, messages: seq<byte>)
    requires ExtractVersion(ViewOf(after), after.versions, c.identityVersion) == Some(NULL)
    requires c.messagesVersion.Some? && c.resultVersion.None?
    requires Channel(ViewOf(after), after.versions, c.messagesVersion) == Some(messages)
    requires c.logicalLen == |Framed(messages)| && c.stateHash == Xxh3(Framed(messages))
    ensures IsMessage(after, c) && CheckpointBytes(after, c) == Some(Framed(messages))
  {
    MessageBytes(after, c);
  }

  /** The parent record and version reference a message append works from. */
  lemma ParentOf(s: StoreState, thread: Id, parentId: Id)
    requires MessageStore(s) && FindParent(s, thread, parentId).Ok?
    ensures var found := FindParent(s, thread, parentId).value;
      && Key(thread, parentId) in s.checkpointOrdinals
      && s.checkpointOrdinals[Key(thread, parentId)] < |s.checkpoints|
      && found.0 == s.checkpoints[s.checkpointOrdinals[Key(thread, parentId)]]
      && IsMessage(s, found.0) && ParentFits(s, found.1)
      && Extract(ViewOf(s), found.1.root) == Some(MessagesOf(s, found.0))
      && found.1.identityVersion == found.0.identityVersion
      && found.0.messagesVersion == Some(found.1.messagesVersion)
  {
    hide WellFormed, ThreadsIndexed, RequestsOk, ViewOf, Extract, Verified;
    var p := s.checkpointOrdinals[Key(thread, parentId)];
    assert CheckpointOk(s, p);
  }

  /** An identity version that some committed message checkpoint uses. */
  lemma IdentityStaysNull(s: StoreState, tx: Transaction, i: nat)
    requires MessageStore(s) && Admitted(s, tx) && i < |s.checkpoints|
    requires tx.checkpoint.identityVersion == s.checkpoints[i].identityVersion
    ensures ExtractVersion(ViewOf(Apply(s, tx)), Apply(s, tx).versions, tx.checkpoint.identityVersion) == Some(NULL)
  {
    hide WellFormed, CheckpointsIndexed, ThreadsIndexed, RequestsOk, Prepare, Sound, ViewOf, Extract, Verified;
    ViewExtends(s, tx);
    assert CheckpointOk(s, i) && IsMessage(s, s.checkpoints[i]);
    ChannelExtends(ViewOf(s), ViewOf(Apply(s, tx)), s.versions, Apply(s, tx).versions,
                   s.checkpoints[i].identityVersion);
  }

  lemma AllStayMessages(s: StoreState, tx: Transaction)
    requires MessageStore(s) && Admitted(s, tx) && IsMessage(Apply(s, tx), tx.checkpoint)
    ensures MessageStore(Apply(s, tx))
  {
    hide Admitted, IsMessage, Inv;
    ApplyKeepsInv(s, tx);
    var after := Apply(s, tx);
    forall i | 0 <= i < |after.checkpoints|
      ensures IsMessage(after, after.checkpoints[i])
    {
      if i < |s.checkpoints| {
        MessageStays(s, tx, i);
      }
    }
  }

  /** What one append is built from; `owner` is a checkpoint whose identity
      version the new one reuses, when there is one. */
  datatype Build = Build(
    first: Option<Checkpoint>, thread: Id, id: Id, number: u32, parentId: Option<Id>,
    parent: Option<MessageParent>, body: seq<byte>, messages: seq<byte>, owner: nat)

  function BuiltTransaction(s: StoreState, b: Build, len: u64, hash: u64): Result<Transaction> {
    MessageTransaction(s.Watermarks(), b.first, b.thread, b.id, b.number, b.parentId, b.parent, b.body,
                       len, hash)
  }

  ghost predicate BuildOk(s: StoreState, b: Build) {
    && MessageStore(s) && Inputs(s, b.first, b.parent)
    && (b.parent.Some? ==>
          Join(Extract(ViewOf(s), b.parent.value.root), Some(COMMA + b.body)) == Some(b.messages))
    && (b.parent.None? ==> b.messages == b.body)
    && (s.checkpoints != [] ==>
          && b.owner < |s.checkpoints|
          && s.checkpoints[b.owner].identityVersion ==
               (if b.parent.Some? then b.parent.value.identityVersion else b.first.value.identityVersion))
  }

  /** A built transaction, once admitted, holds the messages it was built for. */
  lemma BuiltIsMessage(s: StoreState, b: Build, tx: Transaction)
    requires BuildOk(s, b) && Admitted(s, tx) && |Framed(b.messages)| <= U64_MAX
    requires BuiltTransaction(s, b, |Framed(b.messages)|, Xxh3(Framed(b.messages))) == Ok(tx.(digest := NO_DIGEST))
    ensures CheckpointBytes(Apply(s, tx), tx.checkpoint) == Some(Framed(b.messages))
    ensures MessageStore(Apply(s, tx))
  {
    hide Inv, Extract, ViewOf, ExtractVersion, Admitted, Verified, IsMessage, Apply, Framed;
    NewMessages(s, b.first, b.thread, b.id, b.number, b.parentId, b.parent, b.body,
                |Framed(b.messages)|, Xxh3(Framed(b.messages)), tx);
    if s.checkpoints != [] {
      IdentityStaysNull(s, tx, b.owner);
    }
    NewIsMessage(Apply(s, tx), tx.checkpoint, b.messages);
    AllStayMessages(s, tx);
  }

  lemma BuiltOutcome(s: StoreState, b: Build)
    requires BuildOk(s, b) && |Framed(b.messages)| <= U64_MAX
    requires BuiltTransaction(s, b, |Framed(b.messages)|, Xxh3(Framed(b.messages))).Ok?
    ensures var t := BuiltTransaction(s, b, |Framed(b.messages)|, Xxh3(Framed(b.messages))).value;
      && Encodable(t)
      && (Admit(s, EncodeTransaction(t)).Ok? <==> Free(s, b.thread, b.id, b.parentId))
      && t.checkpoint.number == b.number && t.checkpoint.thread == b.thread && t.checkpoint.id == b.id
      && t.checkpoint.parent == b.parentId
      && (Admit(s, EncodeTransaction(t)).Ok? ==>
            var after := Apply(s, Admit(s, EncodeTransaction(t)).value);
            && CheckpointBytes(after, t.checkpoint) == Some(Framed(b.messages))
            && after.checkpoints == s.checkpoints + [t.checkpoint]
            && OneMoreVersion(s, b, after, t.checkpoint)
            && MessageStore(after))
  {
    hide Extract, ViewOf, ExtractVersion, Admitted, Verified, IsMessage, Framed, WellFormed, CheckpointOk, VersionsOk,
      CheckpointsIndexed, ThreadsIndexed, RequestsOk, Admit, EncodeTransaction, NewNodesValid, Sound;
    var len, hash := |Framed(b.messages)|, Xxh3(Framed(b.messages));
    MessageTransactionFits(s, b.first, b.thread, b.id, b.number, b.parentId, b.parent, b.body, len, hash);
    var t := BuiltTransaction(s, b, len, hash).value;
    AdmitEncoded(s, t);
    if Admit(s, EncodeTransaction(t)).Ok? {
      BuiltIsMessage(s, b, Admit(s, EncodeTransaction(t)).value);
      BuiltVersions(s, b, len, hash, t);
    }
  }

  /** The new messages version is the last one, and comes from the parent's; the
      first append of a store also brings the identity's. */
  ghost predicate OneMoreVersion(s: StoreState, b: Build, after: StoreState, c: Checkpoint) {
    && |after.parents| == |after.versions| == |s.versions| + (if s.checkpoints == [] then 2 else 1)
    && c.messagesVersion == Some(|after.versions| - 1) && c.resultVersion.None?
    && after.parents[|after.versions| - 1] ==
         (if b.parent.Some? then Some(b.parent.value.messagesVersion) else None)
    && (s.checkpoints == [] ==> c.identityVersion == |s.versions| && after.parents[|s.versions|] == None)
    && (s.checkpoints != [] ==>
          c.identityVersion ==
            if b.parent.Some? then b.parent.value.identityVersion else s.checkpoints[0].identityVersion)
  }

  lemma BuiltVersions(s: StoreState, b: Build, len: u64, hash: u64, t: Transaction)
    requires Inv(s) && b.first == (if s.checkpoints == [] then None else Some(s.checkpoints[0]))
    requires BuiltTransaction(s, b, len, hash) == Ok(t)
    ensures OneMoreVersion(s, b, Apply(s, t), t.checkpoint)
  {
    hide WellFormed, CheckpointOk, CheckpointsIndexed, ThreadsIndexed, RequestsOk;
  }

  /** The parent a message append names. */
  function ParentRecord(s: StoreState, thread: Id, parentId: Id): Checkpoint
    requires Inv(s) && Key(thread, parentId) in s.checkpointOrdinals
  {
    s.checkpoints[s.checkpointOrdinals[Key(thread, parentId)]]
  }

  /** What a message append of a body asks of its arguments, free names aside:
      some values, well-formed names, and room for what the branch it takes adds. */
  ghost predicate MessageFits(s: StoreState, thread: Id, id: Id, parentId: Option<Id>, length: nat)
    requires MessageStore(s)
  {
    var first, child := s.checkpoints == [], parentId.Some?;
    var bytes := length + (if first then 4 else if child then 1 else 0);
    var nodes := if first || child then 2 else 1;
    var versions := if first then 2 else 1;
    && length > 0 && NewNamesOk(thread, id, parentId)
    && (child ==> Key(thread, parentId.value) in s.checkpointOrdinals
                  && ChildFits(s, ParentRecord(s, thread, parentId.value), length))
    && |s.arena| + bytes <= U64_MAX && |s.nodes| + nodes <= U64_MAX
    && |s.versions| + versions <= U32_MAX && |s.checkpoints| < U32_MAX
    && 140 + bytes + 16 * nodes + 32 * versions + |thread| + |id| + |OptionId(parentId)| <= U32_MAX
  }

  /** The child's canonical bytes have a 64-bit length, and the parent's root is
      within 32 bits of the new one. */
  ghost predicate ChildFits(s: StoreState, parent: Checkpoint, length: nat) {
    && CheckpointBytes(s, parent).Some? && |CheckpointBytes(s, parent).value| + 1 + length <= U64_MAX
    && parent.messagesVersion.Some? && HasRoot(s.versions, parent.messagesVersion.value)
    && |s.nodes| + 1 <= s.versions[parent.messagesVersion.value].value + U32_MAX
  }

  /** The version a new message version comes from: the parent's, or none. */
  ghost function MessageOrigin(s: StoreState, thread: Id, parentId: Option<Id>): Option<u32>
    requires MessageStore(s)
  {
    if parentId.Some? && Key(thread, parentId.value) in s.checkpointOrdinals
    then ParentRecord(s, thread, parentId.value).messagesVersion else None
  }

  /** The version of the null identity it shares: its parent's, or the first's. */
  ghost function IdentityOrigin(s: StoreState, thread: Id, parentId: Option<Id>): u32
    requires MessageStore(s) && s.checkpoints != []
  {
    if parentId.Some? && Key(thread, parentId.value) in s.checkpointOrdinals
    then ParentRecord(s, thread, parentId.value).identityVersion else s.checkpoints[0].identityVersion
  }

  lemma ParentFound(s: StoreState, thread: Id, parentId: Id)
    requires MessageStore(s)
    ensures FindParent(s, thread, parentId).Ok? <==> Key(thread, parentId) in s.checkpointOrdinals
    ensures Key(thread, parentId) in s.checkpointOrdinals ==> s.checkpoints != []
    ensures FindParent(s, thread, parentId).Err? ==> FindParent(s, thread, parentId) == Err(CheckpointNotFound)
  {
    hide WellFormed, ThreadsIndexed, RequestsOk, ViewOf, Extract, Verified, CheckpointOk;
    if Key(thread, parentId) in s.checkpointOrdinals {
      assert IsMessage(s, ParentRecord(s, thread, parentId));
    }
  }

  /** The child branch is built exactly when there is room for it. */
  lemma ChildBuilt(s: StoreState, thread: Id, id: Id, number: u32, parentId: Id, body: seq<byte>)
    requires MessageStore(s) && Key(thread, parentId) in s.checkpointOrdinals && FindParent(s, thread, parentId).Ok?
    ensures var found := FindParent(s, thread, parentId).value;
      var metadata := ChildMetadata(s, found.0, body);
      && s.checkpoints != [] && CheckpointBytes(s, found.0).Some?
      && (metadata.Ok? <==> |CheckpointBytes(s, found.0).value| + 1 + |body| <= U64_MAX)
      && (metadata.Ok? ==>
            (MessageTransaction(s.Watermarks(), Some(s.checkpoints[0]), thread, id, number, Some(parentId),
                                Some(found.1), body, metadata.value.0, metadata.value.1).Ok?
             <==> MessageFits(s, thread, id, Some(parentId), |body|)))
      && (metadata.Err? ==> !MessageFits(s, thread, id, Some(parentId), |body|))
  {
    hide WellFormed, CheckpointsIndexed, ThreadsIndexed, RequestsOk, ViewOf, Extract, IsMessage, CheckpointOk,
      ChildMetadata, Framed, IdentifierOk, VersionsOk, ExtractVersion;
    ParentOf(s, thread, parentId);
    var found := FindParent(s, thread, parentId).value;
    ChildMetadataExact(s, found.0, body);
    ParentLength(s, found.0, body);
    ParentExtracts(s, found.1);
    assert HasRoot(s.versions, found.1.messagesVersion);
  }

  lemma ParentLength(s: StoreState, p: Checkpoint, body: seq<byte>)
    requires IsMessage(s, p)
    ensures CheckpointBytes(s, p).Some?
    ensures |Framed(MessagesOf(s, p) + (COMMA + body))| == |CheckpointBytes(s, p).value| + 1 + |body|
  {
    hide ViewOf, ExtractVersion, Channel;
    MessageBytes(s, p);
  }

  /** The root branches are built exactly when there is room for them. */
  lemma RootBuilt(s: StoreState, thread: Id, id: Id, number: u32, body: seq<byte>)
    requires MessageStore(s)
    ensures FirstIsNull(s).Ok?
    ensures var metadata := RootMetadata(body);
      var first := if s.checkpoints == [] then None else Some(s.checkpoints[0]);
      (metadata.Ok? && MessageTransaction(s.Watermarks(), first, thread, id, number, None, None, body,
                                          metadata.value.0, metadata.value.1).Ok?)
      <==> MessageFits(s, thread, id, None, |body|)
  {
    hide WellFormed, CheckpointsIndexed, ThreadsIndexed, RequestsOk, ViewOf, Extract, IdentifierOk, VersionsOk,
      ExtractVersion, CheckpointOk, RangeOf;
    if s.checkpoints != [] {
      assert IsMessage(s, s.checkpoints[0]);
      FirstIsNullMeans(s, NULL);
    }
    hide IsMessage;
  }

  /** When a message append is built: exactly when its arguments fit, and a parent
      that is not there is the one refusal with a reason of its own. */
  lemma MessageBuiltIff(s: StoreState, thread: Id, id: Id, number: u32, parentId: Option<Id>,
                        values: seq<seq<byte>>)
    requires MessageStore(s)
    ensures var r := AppendMessages(s, thread, id, number, parentId, values);
      && (r.Ok? <==> values != [] && MessageFits(s, thread, id, parentId, |JoinValues(values)|))
      && (r == Err(CheckpointNotFound) <==>
            values != [] && parentId.Some? && Key(thread, parentId.value) !in s.checkpointOrdinals)
      && (r.Err? ==> r == Err(CheckpointNotFound) || r == Err(Format))
  {
    hide Inv, IsMessage, MessageTransaction, ChildMetadata, FirstIsNull, RootMetadata, FindParent, ChildFits;
    var body := JoinValues(values);
    if parentId.Some? {
      ParentFound(s, thread, parentId.value);
      if Key(thread, parentId.value) in s.checkpointOrdinals {
        ChildBuilt(s, thread, id, number, parentId.value, body);
      }
    } else {
      RootBuilt(s, thread, id, number, body);
    }
  }

  /** The exactness of a message append, in every store of message checkpoints:
      it is built exactly when its arguments fit and admitted exactly when its
      names are free besides; the child's bytes are the parent's with a comma and
      the new body before the suffix; its stored length and hash are right; and
      nothing earlier is disturbed. */
  lemma MessageAppendExact(s: StoreState, thread: Id, id: Id, number: u32, parentId: Option<Id>,
                           values: seq<seq<byte>>)
    requires MessageStore(s)
    ensures var r := AppendMessages(s, thread, id, number, parentId, values);
      && (r.Ok? <==> values != [] && MessageFits(s, thread, id, parentId, |JoinValues(values)|))
      && (r.Ok? ==> Encodable(r.value) && AppendOutcome(s, r.value, thread, id, number, parentId, JoinValues(values)))
  {
    hide Inv, Extract, ViewOf, ExtractVersion, Verified, IsMessage, Admit, EncodeTransaction, MessageTransaction,
      ChildMetadata, FirstIsNull, FindParent, Apply, TransactionSize, Encodable, NamesFree, MessageFits;
    MessageBuiltIff(s, thread, id, number, parentId, values);
    var body := JoinValues(values);
    var first := if s.checkpoints == [] then None else Some(s.checkpoints[0]);
    if AppendMessages(s, thread, id, number, parentId, values).Ok? {
      if parentId.Some? {
        ParentOf(s, thread, parentId.value);
        var found := FindParent(s, thread, parentId.value).value;
        ChildMetadataExact(s, found.0, body);
        ChildFrame(s, found.0, body);
        BuiltOutcome(s, Build(first, thread, id, number, parentId, Some(found.1), body,
                              MessagesOf(s, found.0) + (COMMA + body),
                              s.checkpointOrdinals[Key(thread, parentId.value)]));
      } else {
        BuiltOutcome(s, Build(first, thread, id, number, None, None, body, body, 0));
      }
    }
  }

  ghost predicate AppendOutcome(s: StoreState, t: Transaction, thread: Id, id: Id, number: u32, parentId: Option<Id>,
                                body: seq<byte>)
    requires MessageStore(s) && Encodable(t)
  {
    var r := Admit(s, EncodeTransaction(t));
    && (r.Ok? <==> Free(s, thread, id, parentId))
    && (r.Ok? ==>
          var after, c := Apply(s, r.value), t.checkpoint;
          && (parentId.Some? ==> Key(thread, parentId.value) in s.checkpointOrdinals)
          && after.checkpoints == s.checkpoints + [c]
          && c.thread == thread && c.id == id && c.number == number && c.parent == parentId
          && c.messagesVersion == Some(|after.versions| - 1) && c.resultVersion.None?
          && |after.parents| == |after.versions| == |s.versions| + (if s.checkpoints == [] then 2 else 1)
          && c.identityVersion ==
               (if s.checkpoints == [] then |s.versions| else IdentityOrigin(s, thread, parentId))
          && (s.checkpoints == [] ==> after.parents[|s.versions|] == None)
          && after.parents[|after.versions| - 1] == MessageOrigin(s, thread, parentId)
          && CheckpointBytes(after, c) == Some(Promised(s, thread, parentId, body))
          && MessageStore(after))
  }

  // Whole runs

  datatype MessageRequest = MessageRequest(
    thread: Id, id: Id, number: u32, parent: Option<Id>, values: seq<seq<byte>>)

  /** One call: the store after it, unchanged when the call fails. */
  function MessageStep(s: StoreState, q: MessageRequest): StoreState {
    match AppendMessages(s, q.thread, q.id, q.number, q.parent, q.values)
    case Err(_) => s
    case Ok(t) =>
      if !Encodable(t) then s
      else
        match Admit(s, EncodeTransaction(t))
        case Err(_) => s
        case Ok(tx) => Apply(s, tx)
  }

  /** What a call has to offer to be taken. */
  ghost predicate Taken(s: StoreState, q: MessageRequest)
    requires MessageStore(s)
  {
    && q.values != [] && MessageFits(s, q.thread, q.id, q.parent, |JoinValues(q.values)|)
    && Free(s, q.thread, q.id, q.parent)
  }

  /** A call that is taken adds the checkpoint it asks for and no other; one that
      is not leaves the store as it was. */
  lemma MessageStepExact(s: StoreState, q: MessageRequest)
    requires MessageStore(s)
    ensures var after := MessageStep(s, q);
      && MessageStore(after)
      && (!Taken(s, q) ==> after == s)
      && (Taken(s, q) ==>
            && |after.checkpoints| == |s.checkpoints| + 1 && after.checkpoints[..|s.checkpoints|] == s.checkpoints
            && var c := after.checkpoints[|s.checkpoints|];
               c.thread == q.thread && c.id == q.id && c.number == q.number && c.parent == q.parent
               && CheckpointBytes(after, c) == Some(Promised(s, q.thread, q.parent, JoinValues(q.values))))
  {
    hide AppendMessages, Inv, IsMessage, Admit, EncodeTransaction, Apply, TransactionSize, Encodable, MessageFits,
      CheckpointBytes, Promised;
    MessageAppendExact(s, q.thread, q.id, q.number, q.parent, q.values);
  }

  /** Values joined in two parts have one comma between them. */
  lemma {:induction false} JoinedInParts(a: seq<seq<byte>>, b: seq<seq<byte>>)
    requires a != [] && b != []
    ensures JoinValues(a + b) == JoinValues(a) + COMMA + JoinValues(b)
    ensures |a| == 1 ==> JoinValues(a) == a[0]
  {
    if |a| == 1 {
      assert (a + b)[1..] == b;
    } else {
      assert (a + b)[1..] == a[1..] + b;
      JoinedInParts(a[1..], b);
      assert a[0] + COMMA + (JoinValues(a[1..]) + COMMA + JoinValues(b))
          == (a[0] + COMMA + JoinValues(a[1..])) + COMMA + JoinValues(b);
    }
  }

  /** The checkpoint holds exactly these messages, in this order. */
  ghost predicate HoldsMessages(s: StoreState, c: Checkpoint, values: seq<seq<byte>>) {
    CheckpointBytes(s, c) == Some(Framed(JoinValues(values)))
  }

  /** Histories accumulate: a child holds its parent's messages and then its own,
      a root its own. */
  lemma MessagesAccumulate(s: StoreState, q: MessageRequest, earlier: seq<seq<byte>>)
    requires MessageStore(s) && Taken(s, q)
    requires q.parent.Some? ==> earlier != [] && HoldsMessages(s, ParentRecord(s, q.thread, q.parent.value), earlier)
    requires q.parent.None? ==> earlier == []
    ensures |MessageStep(s, q).checkpoints| == |s.checkpoints| + 1
    ensures HoldsMessages(MessageStep(s, q), MessageStep(s, q).checkpoints[|s.checkpoints|], earlier + q.values)
  {
    hide MessageStep, MessageFits, CheckpointBytes, Inv, JoinValues, IsMessage, Taken;
    TakenHas(s, q);
    MessageStepExact(s, q);
    if q.parent.Some? {
      JoinedInParts(earlier, q.values);
      FramedGrows(JoinValues(earlier), JoinValues(q.values));
      FramedLong(JoinValues(earlier));
      assert JoinValues(earlier) + (COMMA + JoinValues(q.values)) == JoinValues(earlier + q.values);
    } else {
      assert earlier + q.values == q.values;
    }
  }

  lemma TakenHas(s: StoreState, q: MessageRequest)
    requires MessageStore(s) && Taken(s, q)
    ensures q.values != []
  {
    hide MessageFits, Inv, IsMessage;
  }

  lemma FramedLong(messages: seq<byte>)
    ensures |Framed(messages)| >= |MESSAGE_SUFFIX|
  {
  }

  function MessageRun(s: StoreState, qs: seq<MessageRequest>): StoreState
    decreases |qs|
  {
    if qs == [] then s else MessageRun(MessageStep(s, qs[0]), qs[1..])
  }

  /** How many calls of a run are taken, each judged by the store it finds. */
  ghost function TakenIn(s: StoreState, qs: seq<MessageRequest>): nat
    requires MessageStore(s)
    decreases |qs|
  {
    if qs == [] then 0
    else
      MessageStepExact(s, qs[0]);
      (if Taken(s, qs[0]) then 1 else 0) + TakenIn(MessageStep(s, qs[0]), qs[1..])
  }

  /** After any sequence of message appends every checkpoint is stored
      correctly, so a full verification finds nothing; and there is one more for
      every call that had to be taken. */
  lemma {:induction false} MessageRunVerifies(s: StoreState, qs: seq<MessageRequest>)
    requires MessageStore(s)
    ensures MessageStore(MessageRun(s, qs))
    ensures |MessageRun(s, qs).checkpoints| == |s.checkpoints| + TakenIn(s, qs)
    decreases |qs|
  {
    hide MessageStore, MessageStep, Taken, Promised, CheckpointBytes;
    if qs != [] {
      MessageStepExact(s, qs[0]);
      MessageRunVerifies(MessageStep(s, qs[0]), qs[1..]);
    }
  }

  ghost function Failures(s: StoreState, n: nat): nat
    requires n <= |s.checkpoints|
  {
    if n == 0 then 0
    else Failures(s, n - 1) + (if Verified(s, s.checkpoints[n - 1]) then 0 else 1)
  }

  lemma {:induction false} NoFailures(s: StoreState, n: nat)
    requires n <= |s.checkpoints| && (forall i :: 0 <= i < n ==> Verified(s, s.checkpoints[i]))
    ensures Failures(s, n) == 0
  {
    if n > 0 { NoFailures(s, n - 1); }
  }

  /** Reconstructs every checkpoint and counts wrong lengths and hashes. */
  method VerifyAll(s: StoreState) returns (failures: Option<nat>)
    requires s.base == EMPTY_GEOMETRY
    ensures failures.Some? <==> forall c :: c in s.checkpoints ==> CheckpointBytes(s, c).Some?
    ensures failures.Some? ==> failures.value == Failures(s, |s.checkpoints|)
    ensures MessageStore(s) ==> failures == Some(0)
  {
    hide MessageStore, CheckpointBytes;
    if MessageStore(s) { MessageStoreVerifies(s); }
    var count := 0;
    for i := 0 to |s.checkpoints|
      invariant count == Failures(s, i)
      invariant forall j :: 0 <= j < i ==> CheckpointBytes(s, s.checkpoints[j]).Some?
    {
      var c := s.checkpoints[i];
      var bytes := ReconstructCheckpoint(s, c);
      if bytes.None? { return None; }
      if |bytes.value| != c.logicalLen || Xxh3(bytes.value) != c.stateHash {
        count := count + 1;
      }
    }
    return Some(count);
  }

  lemma MessageStoreVerifies(s: StoreState)
    requires MessageStore(s)
    ensures forall c :: c in s.checkpoints ==> CheckpointBytes(s, c).Some?
    ensures Failures(s, |s.checkpoints|) == 0
  {
    hide Inv, CheckpointBytes, ExtractVersion, Channel;
    forall i | 0 <= i < |s.checkpoints|
      ensures Verified(s, s.checkpoints[i])
    {
      assert IsMessage(s, s.checkpoints[i]);
    }
    NoFailures(s, |s.checkpoints|);
  }

  // The prefix check on a root append

  lemma NullPrefixMeans(identity: seq<byte>, rest: seq<byte>)
    requires NULL + COMMA <= identity + MESSAGES_FRAME + rest
    ensures identity == NULL || NULL + COMMA <= identity
  {
    var all, want := identity + MESSAGES_FRAME + rest, NULL + COMMA;
    assert forall i :: 0 <= i < 5 ==> all[i] == want[i];
    if |identity| < 5 {
      assert all[|identity|] == 0x2C;
      assert |identity| == 4;
      assert identity == all[..4] == want[..4] == NULL;
    } else {
      assert identity[..5] == all[..5];
    }
  }

  /** The first bytes of a frame are those of its identity, then a comma. */
  lemma FrameHead(identity: seq<byte>, messages: seq<byte>, result: Option<seq<byte>>)
    ensures var f := Frame(identity, messages, result);
      && |f| >= |NULL_PREFIX|
      && (f[..|NULL_PREFIX|] == NULL_PREFIX <==> identity == NULL || NULL + COMMA <= identity)
  {
    var f := Frame(identity, messages, result);
    var rest := messages + MESSAGES_END + (if result.Some? then RESULT_FRAME + result.value else []) + STATE_END;
    var tail := identity + MESSAGES_FRAME + rest;
    assert f == IDENTITY_FRAME + tail;
    assert f[..|NULL_PREFIX|] == IDENTITY_FRAME + tail[..5];
    assert NULL_PREFIX == IDENTITY_FRAME + (NULL + COMMA);
    if f[..|NULL_PREFIX|] == NULL_PREFIX {
      assert f[|IDENTITY_FRAME|..|NULL_PREFIX|] == NULL + COMMA;
      NullPrefixMeans(identity, rest);
    }
    if identity == NULL || NULL + COMMA <= identity {
      assert tail[..5] == NULL + COMMA;
    }
  }

  /** What the prefix check of a root append really accepts. */
  lemma FirstIsNullMeans(s: StoreState, identity: seq<byte>)
    requires s.checkpoints != []
    requires ExtractVersion(ViewOf(s), s.versions, s.checkpoints[0].identityVersion) == Some(identity)
    ensures FirstIsNull(s).Ok? ==> identity == NULL || NULL + COMMA <= identity
    ensures Verified(s, s.checkpoints[0]) && (identity == NULL || NULL + COMMA <= identity) ==>
      FirstIsNull(s).Ok?
  {
    hide ViewOf, Extract, ExtractVersion, Frame, Channel;
    var v, c := ViewOf(s), s.checkpoints[0];
    if Reconstruct(v, s.versions, c).Some? && |Reconstruct(v, s.versions, c).value| == c.logicalLen {
      var messages := Channel(v, s.versions, c.messagesVersion).value;
      var result := Channel(v, s.versions, c.resultVersion).value;
      FrameHead(identity, messages, if c.resultVersion.None? then None else Some(result));
      RangeIsSlice(v, s.versions, c, 0, |NULL_PREFIX|);
    }
  }

  /** A root append reuses the first checkpoint's identity after comparing only
      a prefix of its bytes. The new checkpoint verifies if and only if that
      identity is `null` and nothing more. */
  lemma RootAppendIffNull(s: StoreState, thread: Id, id: Id, number: u32, values: seq<seq<byte>>,
                          identity: seq<byte>, tx: Transaction)
    requires Inv(s) && s.checkpoints != []
    requires ExtractVersion(ViewOf(s), s.versions, s.checkpoints[0].identityVersion) == Some(identity)
    requires AppendMessages(s, thread, id, number, None, values) == Ok(tx.(digest := NO_DIGEST)) && Admitted(s, tx)
    ensures CheckpointBytes(Apply(s, tx), tx.checkpoint) == Some(Frame(identity, JoinValues(values), None))
    ensures Verified(Apply(s, tx), tx.checkpoint) <==> identity == NULL
  {
    hide WellFormed, CheckpointsIndexed, ThreadsIndexed, RequestsOk, Prepare, Sound, ViewOf, Extract, FirstIsNull,
      Frame;
    FirstIsNullMeans(s, identity);
    var first := Some(s.checkpoints[0]);
    var body := JoinValues(values);
    var m := RootMetadata(body).value;
    NewMessages(s, first, thread, id, number, None, None, body, m.0, m.1, tx);
    ViewExtends(s, tx);
    assert CheckpointOk(s, 0);
    ChannelExtends(ViewOf(s), ViewOf(Apply(s, tx)), s.versions, Apply(s, tx).versions,
                   s.checkpoints[0].identityVersion);
    FrameLongerThanNull(identity, body);
  }

  /** The stored length and hash are those of the frame around `null`. */
  lemma FrameLongerThanNull(identity: seq<byte>, body: seq<byte>)
    ensures Frame(NULL, body, None) == MESSAGE_PREFIX + body + MESSAGE_SUFFIX
    ensures |Frame(identity, body, None)| == |Frame(NULL, body, None)| - |NULL| + |identity|
  {
    FramedIsFrame(body);
  }

  const NULL_AND_MORE: seq<byte> := NULL + COMMA + [0x31]

  /** A store whose first identity is `null,1`. */
  lemma NullAndMore(thread: Id, id: Id) returns (first: Transaction)
    requires IdentifierOk(thread) && IdentifierOk(id)
    ensures Sound(first) && Replay(EMPTY_STATE, [first]) == Ok(Apply(EMPTY_STATE, first))
    ensures var s := Apply(EMPTY_STATE, first);
      && Inv(s) && |s.checkpoints| == 1 && s.checkpoints[0].thread == thread && s.checkpoints[0].id == id
      && ExtractVersion(ViewOf(s), s.versions, s.checkpoints[0].identityVersion) == Some(NULL_AND_MORE)
      && s.Watermarks() == Geometry(|NULL_AND_MORE|, 1, 0, 1, 1) && s.deleted == {} && s.requests == map[]
      && s.checkpointOrdinals == map[Key(thread, id) := 0]
      && FirstIsNull(s).Ok?
  {
    hide Frame, EncodeTransaction, ParseTransaction, Prepare, NewNodesValid, WellFormed, CheckpointOk, FirstIsNull,
      Inv, Sound;
    var r := IdentityTransaction(EMPTY_STATE.Watermarks(), thread, id, 0, None, NULL_AND_MORE);
    assert |NULL_AND_MORE| == 6 && r.Ok?;
    EmptyStateInv();
    IdentityAppendExact(EMPTY_STATE, thread, id, 0, None, NULL_AND_MORE);
    first := Admit(EMPTY_STATE, EncodeTransaction(r.value)).value;
    var s := Apply(EMPTY_STATE, first);
    ApplyKeepsInv(EMPTY_STATE, first);
    LeafExtracts(s, 0, 0, 6);
    assert s.arena[0..6] == NULL_AND_MORE;
    FirstIsNullMeans(s, NULL_AND_MORE);
    ReplayOne(EMPTY_STATE, first);
  }

  /** The check lets more than `null` through: after the identity `null,1` a root
      append is built and admitted, and the new checkpoint does not verify. */
  lemma NullPrefixIsNotEnough(thread: Id, id: Id, other: Id) returns (first: Transaction, second: Transaction)
    requires IdentifierOk(thread) && IdentifierOk(id) && IdentifierOk(other) && id != other
    ensures Sound(first) && Replay(EMPTY_STATE, [first]).Ok?
    ensures Encodable(second.(digest := NO_DIGEST))
    ensures var s := Replay(EMPTY_STATE, [first]).value;
      && Inv(s) && AppendMessages(s, thread, other, 0, None, [[0x31]]) == Ok(second.(digest := NO_DIGEST))
      && Admit(s, EncodeTransaction(second.(digest := NO_DIGEST))) == Ok(second)
      && !Verified(Apply(s, second), second.checkpoint)
  {
    hide Frame, EncodeTransaction, ParseTransaction, Prepare, NewNodesValid, FirstIsNull, Inv, Sound, Admit, Replay,
      ViewOf, Extract, ExtractVersion, Verified, IdentifierOk, Apply, MessageTransaction, RootMetadata;
    first := NullAndMore(thread, id);
    var s := Replay(EMPTY_STATE, [first]).value;
    var t := RootAfter(s, thread, id, other);
    AdmitEncoded(s, t);
    second := Admit(s, EncodeTransaction(t)).value;
    RootAppendIffNull(s, thread, other, 0, [[0x31]], NULL_AND_MORE, second);
  }

  /** The root append over that store is built, and its name is free. */
  lemma RootAfter(s: StoreState, thread: Id, id: Id, other: Id) returns (t: Transaction)
    requires Inv(s) && |s.checkpoints| == 1 && FirstIsNull(s).Ok?
    requires s.Watermarks() == Geometry(|NULL_AND_MORE|, 1, 0, 1, 1) && s.deleted == {} && s.requests == map[]
    requires s.checkpointOrdinals == map[Key(thread, id) := 0] && id != other
    requires IdentifierOk(thread) && IdentifierOk(other)
    ensures AppendMessages(s, thread, other, 0, None, [[0x31]]) == Ok(t)
    ensures Encodable(t) && t.Before() == s.Watermarks() && t.request.None? && NewNodesValid(s, t)
    ensures NamesFree(s, t.checkpoint) && t.digest == NO_DIGEST
  {
    hide FirstIsNull, Inv, IdentifierOk, Sound, NewNodesValid, ViewOf;
    var body: seq<byte> := [0x31];
    assert JoinValues([body]) == body;
    assert |thread| <= MAX_IDENTIFIER_BYTES && |other| <= MAX_IDENTIFIER_BYTES by { NamesBounded(thread, other); }
    var m := RootMetadata(body).value;
    var made := MessageTransaction(s.Watermarks(), Some(s.checkpoints[0]), thread, other, 0, None, None, body,
                                   m.0, m.1);
    t := made.value;
    MessageTransactionFits(s, Some(s.checkpoints[0]), thread, other, 0, None, None, body, m.0, m.1);
  }
}
