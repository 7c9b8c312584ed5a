/** Deleting a subtree for good: which checkpoints go, what is remembered of
    them, and why neither a name nor a request key ever comes back. */
module Deletion {
  import opened Wrappers
  import opened Bytes
  import opened Format
  import opened Dag
  import opened Model
  import opened TransactionFormat
  import opened Transactions
  import opened Appends
  import opened Columns
  import opened Compaction
  import opened Materialize
  import opened Pruning

  // The descendant closure

  predicate ChildOf(c: Checkpoint, thread: Id, names: set<Key>) {
    c.thread == thread && c.parent.Some? && Key(thread, c.parent.value) in names
  }

  /** With a checkpoint go its children in the same thread. */
  predicate Closed(s: StoreState, thread: Id, names: set<Key>) {
    forall i :: 0 <= i < |s.checkpoints| && ChildOf(s.checkpoints[i], thread, names) ==>
      s.checkpoints[i].Name() in names
  }

  /** Closed as far as the first `n` checkpoints go. */
  predicate ClosedBelow(s: StoreState, thread: Id, names: set<Key>, n: nat) {
    forall i :: 0 <= i < n <= |s.checkpoints| && ChildOf(s.checkpoints[i], thread, names) ==>
      s.checkpoints[i].Name() in names
  }

  /** Within any closed set that holds the target. */
  ghost predicate Least(s: StoreState, target: Key, names: set<Key>) {
    forall other :: target in other && Closed(s, target.thread, other) ==> names <= other
  }

  predicate NamesLive(s: StoreState, thread: Id, names: set<Key>) {
    forall n :: n in names ==> n.thread == thread && n in s.checkpointOrdinals
  }

  /** Adding one more child below `i` cannot make an earlier one a child:
      parents come first. */
  lemma ClosedStep(s: StoreState, thread: Id, names: set<Key>, i: nat)
    requires Inv(s) && i < |s.checkpoints| && ClosedBelow(s, thread, names, i)
    requires ChildOf(s.checkpoints[i], thread, names)
    ensures ClosedBelow(s, thread, names + {s.checkpoints[i].Name()}, i + 1)
  {
    hide WellFormed, VersionsOk, RequestsOk, ThreadsIndexed, IdentifierOk;
    var name := s.checkpoints[i].Name();
    forall j | 0 <= j <= i && ChildOf(s.checkpoints[j], thread, names + {name})
      ensures s.checkpoints[j].Name() in names + {name}
    {
      assert CheckpointOk(s, j);
      assert s.checkpointOrdinals[name] == i;
    }
  }

  /** The target and its descendants, in one pass over the commit order. */
  function Descendants(s: StoreState, target: Key, n: nat): set<Key>
    requires n <= |s.checkpoints|
  {
    if n == 0 then {target}
    else
      var before := Descendants(s, target, n - 1);
      if ChildOf(s.checkpoints[n - 1], target.thread, before) then before + {s.checkpoints[n - 1].Name()} else before
  }

  function Subtree(s: StoreState, target: Key): set<Key> { Descendants(s, target, |s.checkpoints|) }

  lemma {:induction false} DescendantsHold(s: StoreState, target: Key, n: nat)
    requires Inv(s) && target in s.checkpointOrdinals && n <= |s.checkpoints|
    ensures var names := Descendants(s, target, n);
      && target in names && Least(s, target, names) && NamesLive(s, target.thread, names)
      && ClosedBelow(s, target.thread, names, n)
  {
    hide Inv;
    if n > 0 {
      DescendantsHold(s, target, n - 1);
      var before := Descendants(s, target, n - 1);
      if ChildOf(s.checkpoints[n - 1], target.thread, before) {
        ClosedStep(s, target.thread, before, n - 1);
        NameLive(s, n - 1);
        LeastStep(s, target, before, n - 1);
      }
    }
  }

  /** There is only one least closed set, and one pass finds it. */
  lemma SubtreeIsLeast(s: StoreState, target: Key, names: set<Key>)
    requires Inv(s) && target in s.checkpointOrdinals
    ensures names == Subtree(s, target) <==>
      target in names && Closed(s, target.thread, names) && Least(s, target, names)
    ensures NamesLive(s, target.thread, Subtree(s, target)) && Closed(s, target.thread, Subtree(s, target))
  {
    hide Inv;
    var all := Subtree(s, target);
    DescendantsHold(s, target, |s.checkpoints|);
    assert Closed(s, target.thread, all);
    if target in names && Closed(s, target.thread, names) && Least(s, target, names) {
      assert all <= names && names <= all;
    }
  }

  /** The fixpoint loop of the source. The result is the least closed set that
      holds the target; one pass finds it and at most one more confirms it. */
  method DescendantClosure(s: StoreState, target: Key) returns (deleted: set<Key>, ghost passes: nat)
    requires Inv(s) && target in s.checkpointOrdinals
    ensures target in deleted && Closed(s, target.thread, deleted) && Least(s, target, deleted)
    ensures NamesLive(s, target.thread, deleted) && deleted == Subtree(s, target)
    ensures passes <= 2
  {
    hide Inv;
    var cps := s.checkpoints;
    deleted, passes := {target}, 0;
    var changed := true;
    while changed
      invariant target in deleted && Least(s, target, deleted) && NamesLive(s, target.thread, deleted)
      invariant passes > 0 || !changed ==> Closed(s, target.thread, deleted)
      invariant if passes == 0 then changed else passes == 1 || (passes == 2 && !changed)
      decreases if changed then 2 - passes else 0
    {
      changed := false;
      ghost var settled := passes > 0;
      for i := 0 to |cps|
        invariant target in deleted && Least(s, target, deleted) && NamesLive(s, target.thread, deleted)
        invariant ClosedBelow(s, target.thread, deleted, i)
        invariant settled ==> Closed(s, target.thread, deleted) && !changed
      {
        if cps[i].Name() !in deleted && cps[i].thread == target.thread && cps[i].parent.Some?
           && Key(target.thread, cps[i].parent.value) in deleted {
          ClosedStep(s, target.thread, deleted, i);
          NameLive(s, i);
          LeastStep(s, target, deleted, i);
          deleted := deleted + {cps[i].Name()};
          changed := true;
        }
      }
      passes := passes + 1;
    }
    SubtreeIsLeast(s, target, deleted);
  }

  lemma NameLive(s: StoreState, i: nat)
    requires Inv(s) && i < |s.checkpoints|
    ensures s.checkpoints[i].Name() in s.checkpointOrdinals
  {
  }

  lemma LeastStep(s: StoreState, target: Key, names: set<Key>, i: nat)
    requires i < |s.checkpoints| && Least(s, target, names) && ChildOf(s.checkpoints[i], target.thread, names)
    ensures Least(s, target, names + {s.checkpoints[i].Name()})
  {
  }

  /** A closed set leaves no orphan, in its thread or in any other. */
  lemma ClosedLeavesNoOrphan(s: StoreState, thread: Id, names: set<Key>)
    requires Closed(s, thread, names) && NamesLive(s, thread, names)
    ensures OrphansNone(s, names)
  {
  }

  lemma LiveIsNotDeleted(s: StoreState, thread: Id, names: set<Key>)
    requires Inv(s) && NamesLive(s, thread, names)
    ensures names !! s.deleted
  {
  }

  ghost predicate Disjoint(s: StoreState) { s.requests.Keys !! s.retired.Keys }

  /** Compacting an explicit set of checkpoints away: exactly when the store is
      sealed and eager, the set is one of live checkpoints, and it can be pruned.
      Each refusal has its own reason. */
  method DeleteCheckpointSet(s: StoreState, hotTail: nat, lazy: bool, deleted: set<Key>) returns (r: Result<StoreState>)
    requires Inv(s)
    ensures |s.checkpoints| <= U32_MAX
    ensures r.Ok? <==>
      && hotTail == 0 && !lazy && deleted != {} && deleted <= s.checkpointOrdinals.Keys && Prunable(s, deleted)
    ensures r.Ok? ==> Rewritten(s, deleted, r.value)
    ensures r == Err(PruneRequiresSealedStore) <==> hotTail != 0
    ensures r == Err(PruneRequiresEagerRecovery) <==> hotTail == 0 && lazy
    ensures r == Err(RequestIdConflict) <==>
      && hotTail == 0 && !lazy && deleted != {} && deleted <= s.checkpointOrdinals.Keys && Separable(s, deleted)
      && !RetiresCleanly(s.requests, Moved(s.checkpoints, deleted), s.retired)
    ensures r == Err(CheckpointDeleted) || r == Err(CheckpointNotFound) <==>
      hotTail == 0 && !lazy && !(deleted <= s.checkpointOrdinals.Keys)
    ensures r == Err(CheckpointDeleted) ==> exists k :: k in deleted && k !in s.checkpointOrdinals && k in s.deleted
    ensures r == Err(CheckpointNotFound) ==> exists k :: k in deleted && k !in s.checkpointOrdinals && k !in s.deleted
    ensures r.Err? ==> r.error != Io
  {
    hide Inv, Prunable, Separable, Rewritten, Moved, RetiresCleanly;
    CountFits(s);
    if hotTail != 0 { return Err(PruneRequiresSealedStore); }
    if lazy { return Err(PruneRequiresEagerRecovery); }
    if deleted == {} { return Err(Format); }
    var todo := deleted;
    while todo != {}
      invariant todo <= deleted && deleted - todo <= s.checkpointOrdinals.Keys
      decreases |todo|
    {
      var key :| key in todo;
      if key !in s.checkpointOrdinals {
        return Err(if key in s.deleted then CheckpointDeleted else CheckpointNotFound);
      }
      todo := todo - {key};
    }
    r := CompactLiveState(s, deleted);
  }

  /** No name stands in the way of deleting a subtree: what decides is whether
      what stays can be copied and whether a retired key changes its digest. A
      ledger without overlap never does. */
  lemma SubtreePrunableIff(s: StoreState, target: Key)
    requires Inv(s) && |s.checkpoints| <= U32_MAX && target in s.checkpointOrdinals
    ensures var names := Subtree(s, target);
      Prunable(s, names) <==>
        && KeptCopyable(s, names) && LiveBytes(s, names) <= U64_MAX
        && RetiresCleanly(s.requests, Moved(s.checkpoints, names), s.retired)
    ensures Disjoint(s) ==> RetiresCleanly(s.requests, Moved(s.checkpoints, Subtree(s, target)), s.retired)
  {
    hide Inv, KeptCopyable, LiveBytes, Moved, Subtree;
    var names := Subtree(s, target);
    SubtreeIsLeast(s, target, names);
    ClosedLeavesNoOrphan(s, target.thread, names);
    LiveIsNotDeleted(s, target.thread, names);
    if Disjoint(s) { LedgerStays(s.requests, Moved(s.checkpoints, names), s.retired); }
  }

  lemma CompactedDisjoint(s: StoreState, names: set<Key>, t: StoreState)
    requires |s.checkpoints| <= U32_MAX && Disjoint(s) && Compacted(s, names, t)
    ensures Disjoint(t) && t.requests.Keys + t.retired.Keys == s.requests.Keys + s.retired.Keys
    ensures s.retired.Keys <= t.retired.Keys && t.deleted == s.deleted + names
  {
    hide Inv, RetainedIntact, Moved;
    LedgerStays(s.requests, Moved(s.checkpoints, names), s.retired);
  }

  /** Deleting a checkpoint with all its descendants: exactly when its name is
      live in a fully sealed, eager store and what stays can be copied. */
  method DeleteCheckpointSubtree(s: StoreState, hotTail: nat, lazy: bool, thread: Id, id: Id)
    returns (r: Result<StoreState>, deleted: set<Key>)
    requires Inv(s)
    ensures |s.checkpoints| <= U32_MAX
    ensures r.Ok? <==>
      && IdentifierOk(thread) && IdentifierOk(id) && hotTail == 0 && !lazy
      && Key(thread, id) in s.checkpointOrdinals && Prunable(s, Subtree(s, Key(thread, id)))
    ensures r.Ok? ==>
      deleted == Subtree(s, Key(thread, id)) && Rewritten(s, deleted, r.value)
    ensures r.Ok? && Disjoint(s) ==> Disjoint(r.value)
    ensures r == Err(PruneRequiresSealedStore) <==> IdentifierOk(thread) && IdentifierOk(id) && hotTail != 0
    ensures r == Err(PruneRequiresEagerRecovery) <==> IdentifierOk(thread) && IdentifierOk(id) && hotTail == 0 && lazy
    ensures r == Err(CheckpointDeleted) <==>
      && IdentifierOk(thread) && IdentifierOk(id) && hotTail == 0 && !lazy
      && Key(thread, id) !in s.checkpointOrdinals && Key(thread, id) in s.deleted
    ensures r == Err(CheckpointNotFound) <==>
      && IdentifierOk(thread) && IdentifierOk(id) && hotTail == 0 && !lazy
      && Key(thread, id) !in s.checkpointOrdinals && Key(thread, id) !in s.deleted
    ensures r.Err? ==> r.error != Io
  {
    hide Inv, Closed, Least, NamesLive, Compacted, Prunable, Separable, IdentifierOk, Disjoint, RetiresCleanly, Moved,
      Subtree;
    deleted := {};
    CountFits(s);
    if !IdentifierOk(thread) || !IdentifierOk(id) { return Err(Format), deleted; }
    if hotTail != 0 { return Err(PruneRequiresSealedStore), deleted; }
    if lazy { return Err(PruneRequiresEagerRecovery), deleted; }
    var target := Key(thread, id);
    if target !in s.checkpointOrdinals {
      return Err(if target in s.deleted then CheckpointDeleted else CheckpointNotFound), deleted;
    }
    var names, passes := DescendantClosure(s, target);
    deleted := names;
    AllLive(s, thread, names);
    r := DeleteCheckpointSet(s, hotTail, lazy, names);
    if r.Ok? && Disjoint(s) { CompactedDisjoint(s, names, r.value); }
  }

  lemma AllLive(s: StoreState, thread: Id, names: set<Key>)
    requires NamesLive(s, thread, names)
    ensures names <= s.checkpointOrdinals.Keys
  {
  }

  // Reopening

  datatype Retired = Retired(key: seq<byte>, digest: seq<byte>)

  /** The manifest and route entries that carry what the columns do not. */
  datatype Lifecycle = Lifecycle(tombstones: seq<Key>, retired: seq<Retired>, requests: seq<RequestRecord>)

  ghost predicate Lists(l: Lifecycle, s: StoreState) {
    && (forall i, j :: 0 <= i < j < |l.tombstones| ==> l.tombstones[i] != l.tombstones[j])
    && (forall k :: k in l.tombstones <==> k in s.deleted)
    && RetiredListed(l.retired, s.retired) && RequestsListed(l.requests, s.requests)
  }

  ghost predicate RetiredListed(list: seq<Retired>, m: map<seq<byte>, seq<byte>>) {
    && (forall i, j :: 0 <= i < j < |list| ==> list[i].key != list[j].key)
    && (forall i :: 0 <= i < |list| ==> list[i].key in m && m[list[i].key] == list[i].digest)
    && (forall k :: k in m ==> exists i :: 0 <= i < |list| && list[i].key == k)
  }

  ghost predicate RequestsListed(list: seq<RequestRecord>, m: Requests) {
    && (forall i, j :: 0 <= i < j < |list| ==> list[i].key != list[j].key)
    && (forall i :: 0 <= i < |list| ==> list[i].key in m && m[list[i].key] == list[i])
    && (forall k :: k in m ==> exists i :: 0 <= i < |list| && list[i].key == k)
  }

  /** Tombstones: none twice, none of a live checkpoint. */
  method ReadTombstones(live: map<Key, nat>, list: seq<Key>) returns (r: Result<set<Key>>)
    ensures r.Ok? <==>
      && (forall i, j :: 0 <= i < j < |list| ==> list[i] != list[j])
      && (forall i :: 0 <= i < |list| ==> list[i] !in live)
    ensures r.Ok? ==> r.value == (set k | k in list)
  {
    var deleted: set<Key> := {};
    for i := 0 to |list|
      invariant forall k :: k in deleted <==> k in list[..i]
      invariant forall a, b :: 0 <= a < b < i ==> list[a] != list[b]
      invariant forall a :: 0 <= a < i ==> list[a] !in live
    {
      if list[i] in live { return Err(Format); }
      if list[i] in deleted {
        ghost var a :| 0 <= a < i && list[a] == list[i];
        return Err(Format);
      }
      deleted := deleted + {list[i]};
      assert list[..i + 1] == list[..i] + [list[i]];
    }
    assert list[..|list|] == list;
    return Ok(deleted);
  }

  method ReadRetired(list: seq<Retired>, ghost m: map<seq<byte>, seq<byte>>) returns (r: Result<map<seq<byte>,
                     seq<byte>>>)
    requires RetiredListed(list, m)
    ensures r == Ok(m)
  {
    var retired: map<seq<byte>, seq<byte>> := map[];
    for i := 0 to |list|
      invariant forall k :: k in retired ==> k in m && retired[k] == m[k]
      invariant forall k :: k in retired ==> exists a :: 0 <= a < i && list[a].key == k
      invariant forall a :: 0 <= a < i ==> list[a].key in retired
    {
      if list[i].key in retired { return Err(Format); }
      retired := retired[list[i].key := list[i].digest];
    }
    assert retired == m;
    return Ok(retired);
  }

  /** Request records of the routes: within the sealed checkpoints, none twice,
      none of a retired key. */
  method ReadRequests(list: seq<RequestRecord>, count: nat, retired: map<seq<byte>, seq<byte>>, ghost m: Requests)
    returns (r: Result<Requests>)
    requires RequestsListed(list, m) && (forall k :: k in m ==> m[k].ordinal < count)
    ensures r.Ok? <==> m.Keys !! retired.Keys
    ensures r.Ok? ==> r.value == m
  {
    var requests: Requests := map[];
    for i := 0 to |list|
      invariant forall k :: k in requests ==> k in m && requests[k] == m[k] && k !in retired
      invariant forall k :: k in requests ==> exists a :: 0 <= a < i && list[a].key == k
      invariant forall a :: 0 <= a < i ==> list[a].key in requests
    {
      if list[i].ordinal >= count { return Err(Format); }
      if list[i].key in retired { return Err(Format); }
      if list[i].key in requests { return Err(Format); }
      requests := requests[list[i].key := list[i]];
    }
    assert requests == m;
    return Ok(requests);
  }

  /** The state an open derives from everything sealed: all of it but the
      meaningless bytes of wide records. */
  function Reopened(s: StoreState): StoreState {
    s.(wides := Map(Unpadded, s.wides))
  }

  /** Restoring the metadata of a sealed state. A key that is both active and
      retired makes the store refuse to open. */
  method RestoreLifecycle(sealed: StoreState, l: Lifecycle, ghost s: StoreState) returns (r: Result<StoreState>)
    requires Inv(s) && sealed == SealedPart(s) && Lists(l, s)
    ensures r.Ok? <==> Disjoint(s)
    ensures r.Ok? ==> r.value == Reopened(s)
  {
    hide WellFormed, VersionsOk, CheckpointOk, ThreadsIndexed, CheckpointsIndexed;
    var deleted := ReadTombstones(sealed.checkpointOrdinals, l.tombstones);
    if deleted.Err? { return Err(Format); }
    assert deleted.value == s.deleted;
    var retired := ReadRetired(l.retired, s.retired);
    if retired.Err? { return Err(Format); }
    var requests := ReadRequests(l.requests, |sealed.checkpoints|, retired.value, s.requests);
    if requests.Err? { return Err(Format); }
    return Ok(sealed.(deleted := deleted.value, retired := retired.value, requests := requests.value));
  }

  // Permanence over runs

  datatype Event = Appended(tx: Transaction) | Pruned(names: set<Key>) | SealedAndReopened

  /** One step of a store's life, raw appends included. */
  ghost predicate Step(s: StoreState, e: Event, t: StoreState) {
    && Inv(s) && |s.checkpoints| <= U32_MAX
    && match e
       case Appended(tx) => Sound(tx) && Prepare(s, tx).Ok? && t == Apply(s, tx)
       case Pruned(names) => names <= s.checkpointOrdinals.Keys && Compacted(s, names, t)
       case SealedAndReopened => Disjoint(s) && t == Reopened(s)
  }

  ghost predicate Run(states: seq<StoreState>, events: seq<Event>) {
    && |states| == |events| + 1 && Inv(states[0])
    && forall i :: 0 <= i < |events| ==> Step(states[i], events[i], states[i + 1])
  }

  lemma ReopenedKeepsInv(s: StoreState)
    requires Inv(s)
    ensures Inv(Reopened(s))
  {
    hide CheckpointOk, WellFormed, VersionsOk, ThreadsIndexed, CheckpointsIndexed, RequestsOk, ViewOf, Map;
    var t := Reopened(s);
    SealedPartMeansTheSame(s);
    SameView(SealedPart(s), t);
    SamePartVersions(s, t);
    SamePartNames(s, t);
    assert RequestsOk(t) by { SameRequestsOk(s, t); }
    forall i | 0 <= i < |t.checkpoints|
      ensures CheckpointOk(t, i)
    {
      SameCheck(s, t, i);
    }
  }

  lemma SameRequestsOk(s: StoreState, t: StoreState)
    requires RequestsOk(s) && t.requests == s.requests && t.checkpoints == s.checkpoints
    ensures RequestsOk(t)
  {
  }

  lemma SameCheck(s: StoreState, t: StoreState, i: nat)
    requires i < |s.checkpoints| && CheckpointOk(s, i) && t.checkpoints == s.checkpoints
    requires t.versions == s.versions && t.checkpointOrdinals == s.checkpointOrdinals
    ensures CheckpointOk(t, i)
  {
  }

  lemma StepKeeps(s: StoreState, e: Event, t: StoreState)
    requires Step(s, e, t)
    ensures Inv(t) && s.deleted <= t.deleted
    ensures s.requests.Keys + s.retired.Keys <= t.requests.Keys + t.retired.Keys
    ensures s.retired.Keys <= t.retired.Keys
    ensures e.Pruned? ==> e.names <= t.deleted
  {
    hide Inv, RetainedIntact, Moved;
    match e
    case Appended(tx) => ApplyKeepsInv(s, tx);
    case Pruned(names) => KnownStays(s.requests, Moved(s.checkpoints, names), s.retired);
    case SealedAndReopened => ReopenedKeepsInv(s);
  }

  lemma KnownStays(requests: Requests, moved: map<nat, u32>, retired: map<seq<byte>, seq<byte>>)
    ensures requests.Keys + retired.Keys
         <= ActiveAfter(requests, moved).Keys + RetiredAfter(requests, moved, retired).Keys
    ensures retired.Keys <= RetiredAfter(requests, moved, retired).Keys
  {
  }

  /** A deleted name never becomes live again, whatever follows, and no request
      key is ever forgotten. */
  lemma {:induction false} DeletedForGood(states: seq<StoreState>, events: seq<Event>, i: nat, j: nat)
    requires Run(states, events) && i <= j < |states|
    ensures states[i].deleted <= states[j].deleted
    ensures forall n :: n in states[i].deleted ==> n !in states[j].checkpointOrdinals
    ensures states[i].requests.Keys + states[i].retired.Keys <= states[j].requests.Keys + states[j].retired.Keys
    ensures Inv(states[j])
    decreases j
  {
    hide Step, WellFormed, VersionsOk, CheckpointOk, CheckpointsIndexed, ThreadsIndexed, RequestsOk;
    if i < j {
      DeletedForGood(states, events, i, j - 1);
      StepKeeps(states[j - 1], events[j - 1], states[j]);
    } else if j > 0 {
      DeletedForGood(states, events, j - 1, j - 1);
      StepKeeps(states[j - 1], events[j - 1], states[j]);
    }
  }

  /** The raw entry point never asks the retired keys: a commit keeps the ledger
      exact if and only if its key is not retired. */
  lemma AppendKeepsLedgerIff(s: StoreState, tx: Transaction)
    requires Disjoint(s)
    ensures Disjoint(Apply(s, tx)) <==> (tx.request.Some? ==> tx.request.value !in s.retired)
  {
    var t := Apply(s, tx);
    if tx.request.Some? {
      assert tx.request.value in t.requests;
    }
  }

  /** Every append that brings a request avoids the retired keys. */
  ghost predicate AsksRetired(states: seq<StoreState>, events: seq<Event>)
    requires |states| == |events| + 1
  {
    forall i :: 0 <= i < |events| && events[i].Appended? && events[i].tx.request.Some? ==>
      events[i].tx.request.value !in states[i].retired
  }

  /** Through the retired-key check every known key stays in exactly one of
      active and retired, and so no reopening refuses the ledger. */
  lemma {:induction false} LedgerForGood(states: seq<StoreState>, events: seq<Event>, j: nat)
    requires Run(states, events) && Disjoint(states[0]) && AsksRetired(states, events) && j < |states|
    ensures Disjoint(states[j])
    decreases j
  {
    hide Inv, RetainedIntact, Moved, Prepare, Sound;
    if j > 0 {
      LedgerForGood(states, events, j - 1);
      var s, e := states[j - 1], events[j - 1];
      assert Step(s, e, states[j]);
      match e
      case Appended(tx) => AppendKeepsLedgerIff(s, tx);
      case Pruned(names) => CompactedDisjoint(s, names, states[j]);
      case SealedAndReopened =>
    }
  }

  /** Without it: a commit brings a request, a prune retires its key, and a second
      commit brings the key back. It is admitted, and no overlap stands in the way
      until then. */
  lemma RetiredKeyReturns(thread: Id, a: Id, b: Id, key: seq<byte>)
    returns (states: seq<StoreState>, events: seq<Event>, record: seq<byte>)
    requires IdentifierOk(thread) && IdentifierOk(a) && IdentifierOk(b) && a != b && 0 < |key| <= MAX_REQUEST_ID_BYTES
    ensures Run(states, events) && |states| == 4 && states[0] == EMPTY_STATE
    ensures Disjoint(states[0]) && Disjoint(states[1]) && Disjoint(states[2]) && key in states[2].retired
    ensures Admit(states[2], record).Ok? && states[3] == Apply(states[2], Admit(states[2], record).value)
    ensures !Disjoint(states[3])
  {
    hide IdentifierOk, Inv, Prepare, Sound, EncodeTransaction, Admit, Encodable, Compacted, Sha256;
    var first := FirstCommit(thread, a, [], LeafSlot(0, 0), [], Some(key));
    var s := Apply(EMPTY_STATE, first);
    var names := {Key(thread, a)};
    var t := EMPTY_STATE.(deleted := names, retired := map[key := first.digest]);
    OneCheckpointPruned(first, thread, a, key, t);
    OneNodeAdmitted(t, thread, b, [], LeafSlot(0, 0), [], Some(key));
    var again := OneNodeCommit(EMPTY_GEOMETRY, thread, b, [], LeafSlot(0, 0), [], Some(key));
    var second := again.(digest := Sha256(EncodeTransaction(again)));
    record := EncodeTransaction(again);
    var u := Apply(t, second);
    states, events := [EMPTY_STATE, s, t, u], [Appended(first), Pruned(names), Appended(second)];
    EmptyStateInv();
    AppendKeepsLedgerIff(t, second);
    assert Step(EMPTY_STATE, events[0], s) && Step(s, events[1], t) && Step(t, events[2], u);
    assert |states| == |events| + 1;
  }

  /** Pruning the one checkpoint of a store leaves its name and its key. */
  lemma OneCheckpointPruned(first: Transaction, thread: Id, id: Id, key: seq<byte>, t: StoreState)
    requires first.checkpoint.thread == thread && first.checkpoint.id == id && first.checkpoint.ordinal == 0
    requires first.request == Some(key)
    requires t == EMPTY_STATE.(deleted := {Key(thread, id)}, retired := map[key := first.digest])
    ensures var s := Apply(EMPTY_STATE, first);
      && |s.checkpoints| == 1 && {Key(thread, id)} <= s.checkpointOrdinals.Keys && Disjoint(s)
      && Compacted(s, {Key(thread, id)}, t) && Inv(t)
  {
    hide Inv, RetainedIntact, Moved, ActiveAfter, RetiredAfter;
    var s, names := Apply(EMPTY_STATE, first), {Key(thread, id)};
    assert s.checkpoints == [first.checkpoint];
    NothingRetained(s, first.checkpoint, names, t);
    EmptyLedgerInv(names, t.retired);
    assert t.deleted == s.deleted + names;
    LedgerOfNone(key, RequestRecord(key, first.digest, 0));
  }

  lemma NothingRetained(s: StoreState, c: Checkpoint, names: set<Key>, t: StoreState)
    requires s.checkpoints == [c] && !Kept(c, names) && t.checkpoints == []
    ensures Moved(s.checkpoints, names) == map[] && RetainedIntact(s, names, t)
  {
    assert s.checkpoints[..0] == [];
    assert Retained(s.checkpoints, names) == [];
  }

  lemma EmptyLedgerInv(deleted: set<Key>, retired: map<seq<byte>, seq<byte>>)
    ensures Inv(EMPTY_STATE.(deleted := deleted, retired := retired))
  {
    hide WellFormed, ViewOf;
    EmptyStateInv();
    SameView(EMPTY_STATE, EMPTY_STATE.(deleted := deleted, retired := retired));
  }

  /** The key of a checkpoint that goes keeps its digest. */
  lemma LedgerOfNone(key: seq<byte>, record: RequestRecord)
    ensures ActiveAfter(map[key := record], map[]) == map[]
    ensures RetiredAfter(map[key := record], map[], map[]) == map[key := record.digest]
  {
  }
}
