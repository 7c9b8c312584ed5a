/** Admitting one parsed transaction into a committed state. */
module Transactions {
  import opened Wrappers
  import opened Bytes
  import opened Format
  import opened Dag
  import opened Model
  import opened TransactionFormat

  // Validation

  predicate WideValid(record: WideRecord, id: nat, arenaLen: nat) {
    if record.kind == WIDE_KIND_LEAF then record.a + record.b <= arenaLen
    else record.kind == WIDE_KIND_BINARY && record.a < id && record.b < id
  }

  /** A wide index below the lazy base's count is accepted unread. */
  predicate SlotValid(s: StoreState, tx: Transaction, slot: Slot, id: nat) {
    var arenaLen := s.base.byteLen + |s.arena| + |tx.payload|;
    if slot.kind == KIND_LEAF then slot.field0 + slot.field1 <= arenaLen
    else if slot.kind == KIND_BINARY then DecodeBinary(slot.field0, id).Some?
    else if slot.kind == KIND_WIDE then
      if slot.field0 < s.base.wideCount then true
      else
        var index := slot.field0 - s.base.wideCount;
        && index < |s.wides| + |tx.wides|
        && WideValid(if index < |s.wides| then s.wides[index] else tx.wides[index - |s.wides|], id, arenaLen)
    else false
  }

  predicate NewNodesValid(s: StoreState, tx: Transaction) {
    && (forall i :: 0 <= i < |tx.nodes| ==> SlotValid(s, tx, tx.nodes[i], s.Watermarks().nodeCount + i))
    && (forall i :: 0 <= i < |tx.roots| && tx.roots[i].Some? ==>
          tx.roots[i].value < tx.nodeStart + |tx.nodes|)
  }

  method ValidateNewNodes(s: StoreState, tx: Transaction) returns (r: Result<()>)
    ensures r == Check(NewNodesValid(s, tx))
  {
    var base := s.Watermarks().nodeCount;
    for i := 0 to |tx.nodes|
      invariant forall j :: 0 <= j < i ==> SlotValid(s, tx, tx.nodes[j], base + j)
    {
      if !SlotValid(s, tx, tx.nodes[i], base + i) { return Err(Format); }
    }
    for i := 0 to |tx.roots|
      invariant forall j :: 0 <= j < i && tx.roots[j].Some? ==>
        tx.roots[j].value < tx.nodeStart + |tx.nodes|
    {
      if tx.roots[i].Some? && tx.roots[i].value >= tx.nodeStart + |tx.nodes| { return Err(Format); }
    }
    return Ok(());
  }

  /** The checks in source order; the first that fails names the error. */
  function ValidateTransaction(s: StoreState, tx: Transaction): Result<()> {
    var c := tx.checkpoint;
    var _ :- Check(ParentPrior(s, c));
    var _ :- Check(c.Name() !in s.checkpointOrdinals);
    if c.Name() in s.deleted then Err(CheckpointDeleted)
    else if tx.request.Some? && tx.request.value in s.requests then
      if s.requests[tx.request.value].digest != tx.digest then Err(RequestIdConflict) else Err(Format)
    else Check(NewNodesValid(s, tx))
  }

  /** Everything that can fail before the WAL write. */
  function Prepare(s: StoreState, tx: Transaction): Result<()> {
    var _ :- Check(ContinuesFrom(tx, s.Watermarks()));
    ValidateTransaction(s, tx)
  }

  /** The parent a checkpoint names is committed before it. */
  predicate ParentPrior(s: StoreState, c: Checkpoint) {
    c.parent.Some? ==>
      && Key(c.thread, c.parent.value) in s.checkpointOrdinals
      && s.checkpointOrdinals[Key(c.thread, c.parent.value)] < c.ordinal
  }

  /** Publication in memory; nothing here can fail. */
  function Apply(s: StoreState, tx: Transaction): StoreState {
    var c := tx.checkpoint;
    var isNew := c.thread !in s.threadOrdinals;
    s.(arena := s.arena + tx.payload,
       nodes := s.nodes + tx.nodes,
       wides := s.wides + tx.wides,
       versions := s.versions + tx.roots,
       parents := s.parents + tx.parents,
       threads := if isNew then s.threads + [c.thread] else s.threads,
       threadOrdinals := if isNew then s.threadOrdinals[c.thread := |s.threads|] else s.threadOrdinals,
       checkpointOrdinals := s.checkpointOrdinals[c.Name() := c.ordinal],
       requests := if tx.request.None? then s.requests
                   else s.requests[tx.request.value :=
                          RequestRecord(tx.request.value, tx.digest, c.ordinal)],
       checkpoints := s.checkpoints + [c])
  }

  /** What a commit may be refused for. A name that is deleted, and a known
      request that comes with another digest, have a reason of their own; the
      same request again, like everything else, has none. */
  lemma RefusedExactly(s: StoreState, tx: Transaction)
    ensures var r, c := Prepare(s, tx), tx.checkpoint;
      var follows := tx.checkpointCount > 0 && tx.Before() == s.Watermarks() && ParentPrior(s, c)
                     && c.Name() !in s.checkpointOrdinals;
      var known := tx.request.Some? && tx.request.value in s.requests;
      && (r == Err(CheckpointDeleted) <==> follows && c.Name() in s.deleted)
      && (r == Err(RequestIdConflict) <==>
            follows && c.Name() !in s.deleted && known && s.requests[tx.request.value].digest != tx.digest)
      && (r.Ok? <==> follows && c.Name() !in s.deleted && !known && NewNodesValid(s, tx))
      && (r.Err? ==> r.error in {Format, CheckpointDeleted, RequestIdConflict})
  {
    hide NewNodesValid, ParentPrior;
  }

  /** The node checks accept exactly the slots that mean something once the
      transaction is published: nodes that decode, above their children or
      within the arena, and roots among the nodes. */
  lemma NodesValidIff(s: StoreState, tx: Transaction)
    requires Inv(s) && tx.nodeStart == |s.nodes|
    ensures NewNodesValid(s, tx) <==>
      && (forall i :: |s.nodes| <= i < |s.nodes| + |tx.nodes| ==> NodeOk(ViewOf(Apply(s, tx)), i))
      && (forall i :: 0 <= i < |tx.roots| && tx.roots[i].Some? ==> tx.roots[i].value < |ViewOf(Apply(s, tx)).nodes|)
  {
    hide WellFormed, VersionsOk, CheckpointOk, CheckpointsIndexed, ThreadsIndexed, RequestsOk, SlotValid, NodeOk,
      ViewOf;
    var t := Apply(s, tx);
    forall i | 0 <= i < |tx.nodes|
      ensures SlotValid(s, tx, tx.nodes[i], |s.nodes| + i) <==> NodeOk(ViewOf(t), |s.nodes| + i)
    {
      SlotValidIff(s, tx, i);
    }
    if NewNodesValid(s, tx) {
      forall i | |s.nodes| <= i < |s.nodes| + |tx.nodes|
        ensures NodeOk(ViewOf(t), i)
      {
        assert SlotValid(s, tx, tx.nodes[i - |s.nodes|], |s.nodes| + (i - |s.nodes|));
      }
    }
  }

  lemma SlotValidIff(s: StoreState, tx: Transaction, i: nat)
    requires Inv(s) && i < |tx.nodes|
    ensures SlotValid(s, tx, tx.nodes[i], |s.nodes| + i) <==> NodeOk(ViewOf(Apply(s, tx)), |s.nodes| + i)
  {
    hide WellFormed, VersionsOk, CheckpointOk, CheckpointsIndexed, ThreadsIndexed, RequestsOk;
    var t := Apply(s, tx);
    assert t.nodes[|s.nodes| + i] == tx.nodes[i];
    assert ViewOf(t).nodes[|s.nodes| + i] == DecodeNode(t, |s.nodes| + i);
  }

  // What admission keeps

  /** A sound transaction that a state has admitted. */
  ghost predicate Admitted(s: StoreState, tx: Transaction) {
    Inv(s) && Sound(tx) && Prepare(s, tx).Ok?
  }

  lemma SlotDecodes(s: StoreState, tx: Transaction, i: nat)
    requires Admitted(s, tx) && i < |tx.nodes|
    ensures NodeOk(ViewOf(Apply(s, tx)), |s.nodes| + i)
  {
    hide VersionsOk, CheckpointOk, RootsOk, NamesOk, ChannelsOk, CheckpointsIndexed, ThreadsIndexed, RequestsOk;
    var t := Apply(s, tx);
    assert SlotValid(s, tx, tx.nodes[i], |s.nodes| + i);
    assert t.nodes[|s.nodes| + i] == tx.nodes[i];
    assert ViewOf(t).nodes[|s.nodes| + i] == DecodeNode(t, |s.nodes| + i);
  }

  lemma ViewExtends(s: StoreState, tx: Transaction)
    requires Admitted(s, tx)
    ensures Extends(ViewOf(s), ViewOf(Apply(s, tx)))
    ensures WellFormed(ViewOf(Apply(s, tx)))
  {
    hide VersionsOk, CheckpointOk, RootsOk, NamesOk, ChannelsOk, CheckpointsIndexed, ThreadsIndexed, NewNodesValid,
      RequestsOk;
    var t := Apply(s, tx);
    var v, w := ViewOf(s), ViewOf(t);
    forall id | 0 <= id < |v.nodes|
      ensures w.nodes[id] == v.nodes[id] && NodeOk(w, id)
    {
      assert NodeOk(v, id);
      assert v.nodes[id] == DecodeNode(s, id) && w.nodes[id] == DecodeNode(t, id);
      assert t.nodes[id] == s.nodes[id];
    }
    forall id | |v.nodes| <= id < |w.nodes|
      ensures NodeOk(w, id)
    {
      SlotDecodes(s, tx, id - |s.nodes|);
    }
  }

  lemma VersionsKept(s: StoreState, tx: Transaction)
    requires Admitted(s, tx)
    ensures VersionsOk(Apply(s, tx))
  {
    hide WellFormed, CheckpointOk, NamesOk, ChannelsOk, CheckpointsIndexed, ThreadsIndexed, RequestsOk, SlotValid;
    var t := Apply(s, tx);
    forall i | 0 <= i < |t.versions| && t.versions[i].Some?
      ensures t.versions[i].value < |t.nodes|
    {
      assert i >= |s.versions| ==> t.versions[i] == tx.roots[i - |s.versions|];
    }
    forall i | 0 <= i < |t.parents| && t.parents[i].Some?
      ensures t.parents[i].value < i
    {
      assert i >= |s.parents| ==> t.parents[i] == tx.parents[i - |s.parents|];
    }
  }

  lemma CheckpointsStayIndexed(s: StoreState, tx: Transaction)
    requires Admitted(s, tx)
    ensures CheckpointsIndexed(Apply(s, tx))
  {
    hide WellFormed, VersionsOk, CheckpointOk, NewNodesValid, RootsOk, NamesOk, ChannelsOk, RequestsOk, ThreadsIndexed;
    var t := Apply(s, tx);
    forall i | 0 <= i < |t.checkpoints|
      ensures t.checkpoints[i].Name() in t.checkpointOrdinals
      ensures t.checkpointOrdinals[t.checkpoints[i].Name()] == i
    {
      if i < |s.checkpoints| {
        assert t.checkpoints[i] == s.checkpoints[i];
        assert s.checkpoints[i].Name() in s.checkpointOrdinals;
      }
    }
    forall k | k in t.checkpointOrdinals
      ensures t.checkpointOrdinals[k] < |t.checkpoints|
      ensures t.checkpoints[t.checkpointOrdinals[k]].Name() == k
    {
      if k != tx.checkpoint.Name() {
        assert k in s.checkpointOrdinals;
      }
    }
  }

  lemma ThreadsStayIndexed(s: StoreState, tx: Transaction)
    requires Admitted(s, tx)
    ensures ThreadsIndexed(Apply(s, tx))
  {
    hide WellFormed, VersionsOk, CheckpointOk, NewNodesValid, RootsOk, NamesOk, ChannelsOk, RequestsOk,
      CheckpointsIndexed;
    var t := Apply(s, tx);
    assert t.checkpoints[..|t.checkpoints| - 1] == s.checkpoints;
  }

  lemma CheckpointsKept(s: StoreState, tx: Transaction)
    requires Admitted(s, tx)
    ensures forall i :: 0 <= i < |s.checkpoints| + 1 ==> CheckpointOk(Apply(s, tx), i)
  {
    hide WellFormed, VersionsOk, NewNodesValid, ThreadsIndexed, RequestsOk, RootsOk;
    var t := Apply(s, tx);
    forall i | 0 <= i < |t.checkpoints|
      ensures CheckpointOk(t, i)
    {
      if i < |s.checkpoints| {
        assert CheckpointOk(s, i);
        assert t.checkpoints[i] == s.checkpoints[i];
        var c := s.checkpoints[i];
        if c.parent.Some? {
          assert Key(c.thread, c.parent.value) != tx.checkpoint.Name();
        }
      }
    }
  }

  /** The request of the transaction, if any, is remembered with its digest and
      the new checkpoint; the rest of the ledger stays. */
  ghost predicate RequestsGrow(s: StoreState, tx: Transaction, t: StoreState) {
    && (forall k :: k in t.requests <==> k in s.requests || tx.request == Some(k))
    && (forall k :: k in s.requests ==> t.requests[k] == s.requests[k])
    && (tx.request.Some? ==>
          var record := t.requests[tx.request.value];
          record.key == tx.request.value && record.digest == tx.digest && record.ordinal == |s.checkpoints|)
    && t.deleted == s.deleted && t.retired == s.retired
  }

  lemma RequestRecorded(s: StoreState, tx: Transaction)
    requires Admitted(s, tx)
    ensures RequestsGrow(s, tx, Apply(s, tx))
  {
    hide WellFormed, VersionsOk, CheckpointsIndexed, ThreadsIndexed, CheckpointOk, NewNodesValid, RootsOk, NamesOk,
      ChannelsOk, RequestsOk;
  }

  /** Admission keeps the invariant and adds exactly one checkpoint, the one
      the transaction carries, and its request; everything earlier keeps its
      place. */
  lemma ApplyKeepsInv(s: StoreState, tx: Transaction)
    requires Admitted(s, tx)
    ensures var t := Apply(s, tx);
      && Inv(t) && t.Watermarks() == tx.After()
      && t.checkpoints == s.checkpoints + [tx.checkpoint] && RequestsGrow(s, tx, t)
  {
    hide WellFormed, VersionsOk, CheckpointsIndexed, ThreadsIndexed, CheckpointOk, NewNodesValid, RootsOk, NamesOk,
      ChannelsOk, RequestsGrow;
    RequestRecorded(s, tx);
    ViewExtends(s, tx);
    VersionsKept(s, tx);
    CheckpointsStayIndexed(s, tx);
    ThreadsStayIndexed(s, tx);
    CheckpointsKept(s, tx);
  }

  lemma ChannelExtends(v: View, w: View, before: seq<Option<u64>>, after: seq<Option<u64>>, version: nat)
    requires Extends(v, w) && WellFormed(v) && before <= after && version < |before|
    requires before[version].Some? ==> before[version].value < |v.nodes|
    ensures ExtractVersion(w, after, version) == ExtractVersion(v, before, version)
  {
    if before[version].Some? {
      ExtractTotal(v, before[version].value);
      ExtractExtends(v, w, before[version].value);
    }
  }

  /** No committed checkpoint changes its bytes when another is added. */
  lemma EarlierBytesStay(s: StoreState, tx: Transaction, i: nat)
    requires Admitted(s, tx) && i < |s.checkpoints|
    ensures CheckpointBytes(Apply(s, tx), s.checkpoints[i]) == CheckpointBytes(s, s.checkpoints[i])
  {
    var c, t := s.checkpoints[i], Apply(s, tx);
    ViewExtends(s, tx);
    assert CheckpointOk(s, i);
    ChannelExtends(ViewOf(s), ViewOf(t), s.versions, t.versions, c.identityVersion);
    if c.messagesVersion.Some? {
      ChannelExtends(ViewOf(s), ViewOf(t), s.versions, t.versions, c.messagesVersion.value);
    }
    if c.resultVersion.Some? {
      ChannelExtends(ViewOf(s), ViewOf(t), s.versions, t.versions, c.resultVersion.value);
    }
  }

  // Replay

  function Replay(s: StoreState, txs: seq<Transaction>): Result<StoreState>
    decreases |txs|
  {
    if txs == [] then Ok(s)
    else
      var _ :- Prepare(s, txs[0]);
      Replay(Apply(s, txs[0]), txs[1..])
  }

  lemma ReplayOne(s: StoreState, tx: Transaction)
    requires Prepare(s, tx).Ok?
    ensures Replay(s, [tx]) == Ok(Apply(s, tx))
  {
    hide Prepare, Apply;
    assert [tx][1..] == [];
  }

  lemma {:induction false} ReplayKeepsInv(s: StoreState, txs: seq<Transaction>)
    requires Inv(s) && (forall t :: t in txs ==> Sound(t)) && Replay(s, txs).Ok?
    ensures Inv(Replay(s, txs).value)
    decreases |txs|
  {
    if txs != [] {
      ApplyKeepsInv(s, txs[0]);
      ReplayKeepsInv(Apply(s, txs[0]), txs[1..]);
    }
  }

  lemma {:induction false} ReplayConcat(s: StoreState, a: seq<Transaction>, b: seq<Transaction>)
    requires Replay(s, a).Ok?
    ensures Replay(s, a + b) == Replay(Replay(s, a).value, b)
    decreases |a|
  {
    if a == [] {
      assert a + b == b;
    } else {
      assert (a + b)[1..] == a[1..] + b;
      ReplayConcat(Apply(s, a[0]), a[1..], b);
    }
  }

  lemma EmptyStateInv()
    ensures Inv(EMPTY_STATE)
  {
  }
}
