/** Versions longer than 64 bits can count: they can be committed, and then the
    store cannot be opened again. */
module Oversize {
  import opened Wrappers
  import opened Bytes
  import opened Format
  import opened Dag
  import opened Model
  import opened Ranges
  import opened TransactionFormat
  import opened Transactions
  import opened Appends
  import opened HotLog
  import opened Writer
  import opened Manifests
  import opened Recovery

  /** Every version a transaction brings has a 64-bit length. */
  ghost predicate NewRootsFit(s: StoreState, tx: Transaction) {
    forall i :: 0 <= i < |tx.roots| && tx.roots[i].Some? ==> Fits(ViewOf(Apply(s, tx)), tx.roots[i].value)
  }

  /** A commit keeps the state measurable exactly when its own versions are: no
      version committed before changes its length. */
  lemma CommitKeepsFit(s: StoreState, tx: Transaction)
    requires Admitted(s, tx)
    ensures RootsFit(Apply(s, tx)) <==> RootsFit(s) && NewRootsFit(s, tx)
  {
    hide WellFormed, ViewOf, Extract, Sound, Prepare;
    var t := Apply(s, tx);
    var v, w := ViewOf(s), ViewOf(t);
    ViewExtends(s, tx);
    forall i | 0 <= i < |s.versions| && s.versions[i].Some?
      ensures Fits(v, s.versions[i].value) <==> Fits(w, t.versions[i].value)
    {
      VersionTotal(s, i);
      ExtractExtends(v, w, s.versions[i].value);
    }
    forall i | 0 <= i < |tx.roots|
      ensures t.versions[|s.versions| + i] == tx.roots[i]
    {
    }
    if RootsFit(t) {
      forall i | 0 <= i < |s.versions| && s.versions[i].Some?
        ensures Fits(v, s.versions[i].value)
      {
        assert t.versions[i] == s.versions[i];
      }
      forall i | 0 <= i < |tx.roots| && tx.roots[i].Some?
        ensures Fits(w, tx.roots[i].value)
      {
        assert t.versions[|s.versions| + i] == tx.roots[i];
      }
    }
  }

  lemma VersionTotal(s: StoreState, i: nat)
    requires Inv(s) && i < |s.versions| && s.versions[i].Some?
    ensures Extract(ViewOf(s), s.versions[i].value).Some?
  {
    hide CheckpointOk, CheckpointsIndexed, ThreadsIndexed, RequestsOk;
    ExtractTotal(ViewOf(s), s.versions[i].value);
  }

  // A committed version of 2^64 bytes

  const DOUBLINGS := 64

  /** A raw commit of one byte and, as a second version, of that byte doubled 64
      times. */
  function DoublingCommit(thread: Id, id: Id, body: byte): Transaction {
    var bytes := Frame([body], [], None);
    Transaction(0, 2, 1, 0, [body], 0, [LeafSlot(0, 1)] + seq(DOUBLINGS, _ => BinarySlot(1, 1)), 0, [],
                [Some(0), Some(DOUBLINGS)], [None, None],
                Checkpoint(0, thread, 0, id, None, 0, None, None, |bytes|, Xxh3(bytes)), None, NO_DIGEST)
  }

  lemma {:induction false} Doubled(s: StoreState, id: nat)
    requires s.base == EMPTY_GEOMETRY && id <= DOUBLINGS < |s.nodes| && |s.arena| == 1
    requires s.nodes[0] == LeafSlot(0, 1) && forall i :: 1 <= i <= DOUBLINGS ==> s.nodes[i] == BinarySlot(1, 1)
    ensures Extract(ViewOf(s), id).Some? && |Extract(ViewOf(s), id).value| == Pow2(id)
    decreases id
  {
    hide Extract, ViewOf;
    if id == 0 {
      LeafExtracts(s, 0, 0, 1);
    } else {
      Doubled(s, id - 1);
      BinaryExtracts(s, id, id - 1, id - 1);
    }
  }

  lemma DoublingEncodable(t: Transaction)
    requires Sound(t) && |t.payload| == 1 && |t.nodes| == DOUBLINGS + 1 && |t.roots| == 2 && t.wides == []
    requires t.checkpoint.parent.None? && t.request.None?
    ensures Encodable(t)
  {
  }

  lemma DoublingValid(thread: Id, id: Id, body: byte)
    ensures NewNodesValid(EMPTY_STATE, DoublingCommit(thread, id, body))
  {
    var t := DoublingCommit(thread, id, body);
    forall i | 0 <= i < |t.nodes|
      ensures SlotValid(EMPTY_STATE, t, t.nodes[i], i)
    {
      if i > 0 { BinaryDecodes(i, i - 1, i - 1); }
    }
  }

  /** The record is admitted by an empty store, its checkpoint reads and verifies
      like any other, the directory stands for the state and can be read back,
      and yet a version of it is too long for `Recovery.Open`. */
  lemma OversizeAccepted(thread: Id, id: Id, body: byte) returns (tx: Transaction, d: Image)
    requires IdentifierOk(thread) && IdentifierOk(id)
    ensures Encodable(DoublingCommit(thread, id, body))
    ensures Admit(EMPTY_STATE, EncodeTransaction(DoublingCommit(thread, id, body))) == Ok(tx)
    ensures Replay(EMPTY_STATE, [tx]) == Ok(Apply(EMPTY_STATE, tx)) && Inv(Apply(EMPTY_STATE, tx))
    ensures CheckpointBytes(Apply(EMPTY_STATE, tx), tx.checkpoint) == Some(Frame([body], [], None))
    ensures Verified(Apply(EMPTY_STATE, tx), tx.checkpoint)
    ensures Stands(d, Apply(EMPTY_STATE, tx)) && Loadable(d.manifest, d.files)
    ensures !RootsFit(Apply(EMPTY_STATE, tx))
  {
    hide IdentifierOk, EncodeTransaction, ParseTransaction, Prepare, Inv, Admit, Extract, ViewOf, Frame, Stands,
      Loadable, Sound;
    var t := DoublingCommit(thread, id, body);
    EmptyStateInv();
    DoublingValid(thread, id, body);
    DoublingSound(thread, id, body);
    DoublingEncodable(t);
    AdmitEncoded(EMPTY_STATE, t);
    tx := Admit(EMPTY_STATE, EncodeTransaction(t)).value;
    ApplyKeepsInv(EMPTY_STATE, tx);
    ReplayOne(EMPTY_STATE, tx);
    var after := Apply(EMPTY_STATE, tx);
    LeafExtracts(after, 0, 0, 1);
    assert after.arena[0..1] == [body];
    Doubled(after, DOUBLINGS);
    PowersOfTwo();
    assert after.versions[1] == Some(DOUBLINGS);
    d := CommittedDirectory(EncodeTransaction(t), tx);
  }

  /** The directory after the first commit. */
  lemma CommittedDirectory(record: seq<byte>, tx: Transaction) returns (d: Image)
    requires Admit(EMPTY_STATE, record) == Ok(tx)
    ensures Stands(d, Apply(EMPTY_STATE, tx)) && Loadable(d.manifest, d.files)
  {
    hide Admit, Apply, Stands, Loadable, Inv, Replay, Parsed, Chain;
    EmptyStateInv();
    var base := EMPTY_STATE;
    NoneYet();
    ReplayGrows(base, [], base, record);
    FreshHolds();
    FreshStands([] + [record], 0);
    d := Image(map[], FRESH, Concat([] + [record]) + Blank(0));
  }

  lemma NoneYet()
    ensures EMPTY_STATE.Watermarks() == EMPTY_GEOMETRY
    ensures Chain(EMPTY_GEOMETRY, []) && Replay(EMPTY_STATE, Parsed(EMPTY_GEOMETRY, [])) == Ok(EMPTY_STATE)
  {
  }

  lemma DoublingSound(thread: Id, id: Id, body: byte)
    requires IdentifierOk(thread) && IdentifierOk(id)
    ensures Sound(DoublingCommit(thread, id, body))
  {
    hide IdentifierOk;
  }
}
