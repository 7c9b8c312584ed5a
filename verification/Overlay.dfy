/** A writable store on a lazy base through commits and seals: when it means
    what the un-split store means, and the inputs for which it does not. */
module Overlay {
  import opened Wrappers
  import opened Bytes
  import opened Format
  import opened Dag
  import opened Model
  import opened TransactionFormat
  import opened Transactions
  import opened Appends
  import opened HotLog
  import opened Writer
  import opened Compaction
  import opened LazyStore

  // Commits

  lemma IdentityIsLocal(g: Geometry, thread: Id, id: Id, number: u32, parent: Option<Id>, identity: seq<byte>)
    requires IdentityTransaction(g, thread, id, number, parent, identity).Ok?
    ensures Local(IdentityTransaction(g, thread, id, number, parent, identity).value)
  {
  }

  lemma MessageIsLocal(g: Geometry, first: Option<Checkpoint>, thread: Id, id: Id, number: u32, parentId: Option<Id>,
                       parent: Option<MessageParent>, body: seq<byte>, len: u64, hash: u64)
    requires MessageTransaction(g, first, thread, id, number, parentId, parent, body, len, hash).Ok?
    ensures Local(MessageTransaction(g, first, thread, id, number, parentId, parent, body, len, hash).value)
  {
    hide NewNamesOk;
  }

  /** A node from before a commit crosses nothing it did not cross before. */
  lemma EarlierUncrossed(base: StoreState, over: StoreState, tx: Transaction, id: nat)
    requires OnBase(base, over) && id < |base.nodes| + |over.nodes| && !Crosses(base, over, id)
    requires WellFormed(ViewOf(Flat(base, over)))
    ensures !Crosses(base, Apply(over, tx), id)
  {
    var before, flat := Flat(base, over), Flat(base, Apply(over, tx));
    assert NodeOk(ViewOf(before), id) && ViewOf(before).nodes[id] == DecodeNode(before, id);
    FlatApply(base, over, tx);
    assert flat.nodes[id] == before.nodes[id];
    if id >= |base.nodes| { assert Apply(over, tx).nodes[id - |base.nodes|] == over.nodes[id - |base.nodes|]; }
  }

  /** A node as the encoders build it lies beyond the boundary. */
  lemma NewUncrossed(base: StoreState, over: StoreState, tx: Transaction, i: nat)
    requires OnBase(base, over) && Local(tx) && i < |tx.nodes| && tx.byteStart >= |base.arena|
    ensures !Crosses(base, Apply(over, tx), |base.nodes| + |over.nodes| + i)
  {
    var after, id := Apply(over, tx), |base.nodes| + |over.nodes| + i;
    assert Flat(base, after).nodes[id] == tx.nodes[i] && after.nodes[id - |base.nodes|] == tx.nodes[i];
  }

  lemma StartsBeyond(base: StoreState, over: StoreState, tx: Transaction)
    requires OnBase(base, over) && Prepare(over, tx).Ok?
    ensures tx.byteStart >= |base.arena|
  {
    hide ValidateTransaction;
  }

  lemma LocalStaysUncrossed(base: StoreState, over: StoreState, tx: Transaction)
    requires OnBase(base, over) && Uncrossed(base, over) && Local(tx) && Prepare(over, tx).Ok?
    requires WellFormed(ViewOf(Flat(base, over)))
    ensures Uncrossed(base, Apply(over, tx))
  {
    hide Prepare, OnBase, Local, Crosses, WellFormed, Flat;
    StartsBeyond(base, over, tx);
    forall id: nat | id < |base.nodes| + |Apply(over, tx).nodes|
      ensures !Crosses(base, Apply(over, tx), id)
    {
      if id < |base.nodes| + |over.nodes| {
        EarlierUncrossed(base, over, tx, id);
      } else {
        NewUncrossed(base, over, tx, id - |base.nodes| - |over.nodes|);
      }
    }
  }

  /** Committing encoded transactions over a lazy base step by step does what
      committing them to the un-split state does, and stays readable. */
  lemma {:induction false} OverlayRefines(base: StoreState, over: StoreState, txs: seq<Transaction>)
    requires OnBase(base, over) && Uncrossed(base, over) && WellFormed(ViewOf(base)) && Inv(Flat(base, over))
    requires forall t :: t in txs ==> Sound(t) && Local(t)
    ensures Replay(over, txs).Ok? <==> Replay(Flat(base, over), txs).Ok?
    ensures Replay(over, txs).Ok? ==>
      var after, flat := Replay(over, txs).value, Replay(Flat(base, over), txs).value;
      && OnBase(base, after) && Flat(base, after) == flat
      && OverView(base, after) == ViewOf(flat)
    decreases |txs|
  {
    hide OnBase, Uncrossed, Inv, Prepare, Apply, Flat, Sound, OverView;
    if txs == [] {
      UncrossedMeansFlat(base, over);
    } else {
      var tx := txs[0];
      NoNewWides(over, tx);
      PrepareRefines(base, over, tx);
      if Prepare(over, tx).Ok? {
        Formed(Flat(base, over));
        LocalStaysUncrossed(base, over, tx);
        FlatApply(base, over, tx);
        ApplyKeepsInv(Flat(base, over), tx);
        OverlayRefines(base, Apply(over, tx), txs[1..]);
      }
    }
  }

  lemma NoNewWides(over: StoreState, tx: Transaction)
    requires Local(tx)
    ensures NewWidesOnly(over, tx)
  {
  }

  // What validation lets through

  /** A store after one raw commit, and a raw commit over its lazy base. */
  ghost predicate AcceptedOver(first: Transaction, record: seq<byte>, second: Transaction) {
    && Sound(first) && Replay(EMPTY_STATE, [first]).Ok?
    && var base := Replay(EMPTY_STATE, [first]).value;
       Inv(base) && base.nodes != [] && Admit(BareOver(base), record) == Ok(second)
  }

  /** One byte sealed, and a commit whose only leaf spans it and a new byte:
      admitted, readable in the flat state, unreadable over the lazy base. */
  lemma StraddlingLeafAccepted(thread: Id, a: Id, b: Id)
    returns (first: Transaction, record: seq<byte>, second: Transaction)
    requires IdentifierOk(thread) && IdentifierOk(a) && IdentifierOk(b) && a != b
    ensures AcceptedOver(first, record, second)
    ensures var base := Replay(EMPTY_STATE, [first]).value;
      var after := Apply(BareOver(base), second);
      && Extract(ViewOf(Flat(base, after)), 1) == Some([7, 8])
      && Extract(OverView(base, after), 1) == None
  {
    hide IdentifierOk, Inv, Prepare, Sound, EncodeTransaction, Admit, Encodable, Replay;
    first := FirstCommit(thread, a, [7], LeafSlot(0, 1), [], None);
    var base := Apply(EMPTY_STATE, first);
    var over, slot := BareOver(base), LeafSlot(0, 2);
    OneNodeAdmitted(over, thread, b, [8], slot, [], None);
    var t := OneNodeCommit(over.Watermarks(), thread, b, [8], slot, [], None);
    record, second := EncodeTransaction(t), t.(digest := Sha256(EncodeTransaction(t)));
    var after := Apply(over, second);
    assert DecodeNode(Flat(base, after), 1) == Some(Leaf(0, 2)) == DecodeOver(base, after, 1);
    assert ViewOf(Flat(base, after)).nodes[1] == DecodeNode(Flat(base, after), 1);
    assert Flat(base, after).arena == [7, 8] && [7, 8][0..2] == [7, 8];
  }

  /** A new wide slot that names a sealed wide record: its index is admitted
      unread, and the split store cannot decode it. */
  lemma SealedWideAccepted(thread: Id, a: Id, b: Id)
    returns (first: Transaction, record: seq<byte>, second: Transaction)
    requires IdentifierOk(thread) && IdentifierOk(a) && IdentifierOk(b) && a != b
    ensures AcceptedOver(first, record, second)
    ensures var base := Replay(EMPTY_STATE, [first]).value;
      var after := Apply(BareOver(base), second);
      && Extract(ViewOf(Flat(base, after)), 1) == Some([])
      && Extract(OverView(base, after), 1) == None
  {
    hide IdentifierOk, Inv, Prepare, Sound, EncodeTransaction, Admit, Encodable, Replay;
    var wide := WideRecord(WIDE_KIND_LEAF, 0, 0, 0, 0);
    first := FirstCommit(thread, a, [], WideSlot(0), [wide], None);
    var base := Apply(EMPTY_STATE, first);
    var over, slot := BareOver(base), WideSlot(0);
    OneNodeAdmitted(over, thread, b, [], slot, [], None);
    var t := OneNodeCommit(over.Watermarks(), thread, b, [], slot, [], None);
    record, second := EncodeTransaction(t), t.(digest := Sha256(EncodeTransaction(t)));
    var after := Apply(over, second);
    assert Flat(base, after).wides[0] == wide;
    assert DecodeNode(Flat(base, after), 1) == Some(Leaf(0, 0)) && DecodeOver(base, after, 1) == None;
    assert ViewOf(Flat(base, after)).nodes[1] == DecodeNode(Flat(base, after), 1);
  }

  // Seals

  /** Memory after a lazy seal: the new base's watermarks and an empty overlay. */
  function AfterLazySeal(memory: StoreState, sealed: StoreState): StoreState {
    memory.(base := sealed.Watermarks(), arena := [], nodes := [], wides := [])
  }

  predicate AddsData(tx: Transaction) {
    tx.payload != [] || tx.nodes != [] || tx.wides != []
  }

  lemma {:induction false} DataGrowth(s: StoreState, txs: seq<Transaction>)
    requires Replay(s, txs).Ok?
    ensures var t := Replay(s, txs).value;
      && s.arena <= t.arena && s.nodes <= t.nodes && s.wides <= t.wides && t.base == s.base
      && ((t.arena == s.arena && t.nodes == s.nodes && t.wides == s.wides) <==>
            (forall i :: 0 <= i < |txs| ==> !AddsData(txs[i])))
    decreases |txs|
  {
    hide Prepare;
    if txs != [] {
      DataGrowth(Apply(s, txs[0]), txs[1..]);
      assert forall i :: 1 <= i < |txs| ==> txs[i] == txs[1..][i - 1];
      assert (forall i :: 0 <= i < |txs| ==> !AddsData(txs[i]))
        <==> !AddsData(txs[0]) && (forall i :: 0 <= i < |txs[1..]| ==> !AddsData(txs[1..][i]));
    }
  }

  /** Sealing in lazy mode clears the whole overlay. The memory left means the
      committed state if and only if no transaction of the hot suffix added data;
      in particular whenever the suffix is empty. */
  lemma LazySealExactIff(sealed: StoreState, suffix: seq<Transaction>)
    requires Inv(sealed) && Replay(sealed, suffix).Ok?
    ensures var c := Replay(sealed, suffix).value;
      && OnBase(sealed, AfterLazySeal(c, sealed))
      && (Flat(sealed, AfterLazySeal(c, sealed)) == c <==> (forall i :: 0 <= i < |suffix| ==> !AddsData(suffix[i])))
  {
    hide WellFormed, VersionsOk, CheckpointOk, CheckpointsIndexed, ThreadsIndexed, RequestsOk;
    var c := Replay(sealed, suffix).value;
    DataGrowth(sealed, suffix);
    var flat := Flat(sealed, AfterLazySeal(c, sealed));
    assert flat.arena == sealed.arena && flat.nodes == sealed.nodes && flat.wides == sealed.wides;
    assert flat == c.(arena := sealed.arena, nodes := sealed.nodes, wides := sealed.wides);
  }

  /** The watermarks of that memory are those of the log if and only if the
      suffix added no data. */
  lemma LazySealWatermarks(sealed: StoreState, suffix: seq<Transaction>)
    requires Inv(sealed) && Replay(sealed, suffix).Ok?
    ensures var c := Replay(sealed, suffix).value;
      AfterLazySeal(c, sealed).Watermarks() == c.Watermarks() <==>
        (forall i :: 0 <= i < |suffix| ==> !AddsData(suffix[i]))
  {
    hide WellFormed, VersionsOk, CheckpointOk, CheckpointsIndexed, ThreadsIndexed, RequestsOk;
    var c := Replay(sealed, suffix).value;
    DataGrowth(sealed, suffix);
    assert |c.arena| == |sealed.arena| ==> c.arena == sealed.arena;
    assert |c.nodes| == |sealed.nodes| ==> c.nodes == sealed.nodes;
    assert |c.wides| == |sealed.wides| ==> c.wides == sealed.wides;
  }

  /** Otherwise the next admitted record does not continue the log it is written
      to: a later scan stops before it and it is lost. */
  lemma LazySealStrands(sealed: StoreState, suffix: seq<Transaction>, record: seq<byte>, rest: seq<byte>)
    requires Inv(sealed) && Replay(sealed, suffix).Ok?
    requires exists i :: 0 <= i < |suffix| && AddsData(suffix[i])
    requires Admit(AfterLazySeal(Replay(sealed, suffix).value, sealed), record).Ok?
    ensures Stops(record + rest, Replay(sealed, suffix).value.Watermarks())
  {
    hide Inv, Replay, Prepare, ParseTransaction, Stops, AddsData, AfterLazySeal;
    var c := Replay(sealed, suffix).value;
    LazySealWatermarks(sealed, suffix);
    var memory := AfterLazySeal(c, sealed).Watermarks();
    RefusedElsewhere(record, memory, c.Watermarks());
    RefusedStops(record, rest, memory, c.Watermarks());
  }

  /** A history for it: one commit sealed, one hot, and a third admitted at the
      shrunken memory, which no scan of the log finds. */
  lemma LazySealLosesACommit(thread: Id, a: Id, b: Id, c: Id, rest: seq<byte>)
    returns (first: Transaction, second: Transaction, record: seq<byte>)
    requires IdentifierOk(thread) && IdentifierOk(a) && IdentifierOk(b) && IdentifierOk(c)
    requires a != b && a != c && b != c
    ensures Sound(first) && Sound(second) && Replay(EMPTY_STATE, [first]).Ok?
    ensures Inv(Replay(EMPTY_STATE, [first]).value)
    ensures Replay(Replay(EMPTY_STATE, [first]).value, [second]).Ok?
    ensures var sealed := Replay(EMPTY_STATE, [first]).value;
      var committed := Replay(sealed, [second]).value;
      && Admit(AfterLazySeal(committed, sealed), record).Ok?
      && Stops(record + rest, committed.Watermarks())
  {
    hide IdentifierOk, Inv, Prepare, Sound, EncodeTransaction, Admit, Encodable, Stops, Replay, Sha256;
    first := FirstCommit(thread, a, [7], LeafSlot(0, 1), [], None);
    var sealed := Apply(EMPTY_STATE, first);
    OneNodeAdmitted(sealed, thread, b, [8], LeafSlot(1, 1), [], None);
    var t := OneNodeCommit(sealed.Watermarks(), thread, b, [8], LeafSlot(1, 1), [], None);
    second := t.(digest := Sha256(EncodeTransaction(t)));
    ReplayOne(sealed, second);
    var committed := Apply(sealed, second);
    var memory := AfterLazySeal(committed, sealed);
    OneNodeAdmitted(memory, thread, c, [9], LeafSlot(1, 1), [], None);
    record := EncodeTransaction(OneNodeCommit(memory.Watermarks(), thread, c, [9], LeafSlot(1, 1), [], None));
    assert AddsData([second][0]);
    LazySealStrands(sealed, [second], record, rest);
  }

  // Commits and full seals in any mix

  /** Sealing everything starts a bare overlay over the flat state. */
  lemma FullSealRestarts(base: StoreState, over: StoreState)
    requires OnBase(base, over) && Inv(Flat(base, over))
    ensures AfterLazySeal(over, Flat(base, over)) == BareOver(Flat(base, over))
  {
  }

  /** Each group is committed over the base and then sealed as a whole; the last
      overlay stays hot. */
  function SplitLife(base: StoreState, over: StoreState, groups: seq<seq<Transaction>>): Result<(StoreState,
                     StoreState)>
    decreases |groups|
  {
    if groups == [] then Ok((base, over))
    else
      var after :- Replay(over, groups[0]);
      if |groups| == 1 then Ok((base, after))
      else
        var sealed := Flat(base, after);
        SplitLife(sealed, AfterLazySeal(after, sealed), groups[1..])
  }

  function Joined(groups: seq<seq<Transaction>>): seq<Transaction> {
    if groups == [] then [] else groups[0] + Joined(groups[1..])
  }

  predicate Encoded(txs: seq<Transaction>) {
    forall t :: t in txs ==> Sound(t) && Local(t)
  }

  /** After any mix of encoded commits and full seals the split store means what
      the un-split store means after the same commits. */
  lemma {:induction false} SplitLifeRefines(base: StoreState, over: StoreState, groups: seq<seq<Transaction>>)
    requires OnBase(base, over) && Uncrossed(base, over) && WellFormed(ViewOf(base)) && Inv(Flat(base, over))
    requires forall i :: 0 <= i < |groups| ==> Encoded(groups[i])
    ensures SplitLife(base, over, groups).Ok? <==> Replay(Flat(base, over), Joined(groups)).Ok?
    ensures SplitLife(base, over, groups).Ok? ==>
      var split, flat := SplitLife(base, over, groups).value, Replay(Flat(base, over), Joined(groups)).value;
      && OnBase(split.0, split.1) && Flat(split.0, split.1) == flat
      && OverView(split.0, split.1) == ViewOf(flat)
    decreases |groups|
  {
    hide OnBase, Uncrossed, Inv, Replay, Flat, Sound, OverView, Local;
    if groups == [] {
      OverlayRefines(base, over, []);
      NoTransactions(over);
      NoTransactions(Flat(base, over));
    } else {
      var first, rest := groups[0], Joined(groups[1..]);
      var flat := Flat(base, over);
      assert Encoded(first);
      OverlayRefines(base, over, first);
      if Replay(flat, first).Ok? {
        ReplayConcat(flat, first, rest);
        if |groups| == 1 {
          assert groups[1..] == [];
          assert first + rest == first;
        } else {
          var after, sealed := Replay(over, first).value, Replay(flat, first).value;
          ReplayKeepsInv(flat, first);
          FullSealRestarts(base, after);
          BareIsFlat(sealed);
          Formed(sealed);
          SplitLifeRefines(sealed, BareOver(sealed), groups[1..]);
        }
      } else {
        FailedStays(flat, first, rest);
      }
    }
  }

  lemma NoTransactions(s: StoreState)
    ensures Replay(s, []) == Ok(s)
  {
  }

  lemma {:induction false} FailedStays(s: StoreState, a: seq<Transaction>, b: seq<Transaction>)
    requires Replay(s, a).Err?
    ensures Replay(s, a + b).Err?
    decreases |a|
  {
    hide Prepare, Apply;
    if a != [] && Prepare(s, a[0]).Ok? {
      assert (a + b)[1..] == a[1..] + b;
      FailedStays(Apply(s, a[0]), a[1..], b);
    }
  }
}
