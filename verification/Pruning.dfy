/** Removing a set of checkpoints by compacting what stays. */
module Pruning {
  import opened Wrappers
  import opened Bytes
  import opened Format
  import opened Dag
  import opened Model
  import opened Ranges
  import opened TransactionFormat
  import opened Transactions
  import opened Compaction
  import opened Materialize

  // What stays

  predicate Kept(c: Checkpoint, deleted: set<Key>) { c.Name() !in deleted }

  function Retained(cps: seq<Checkpoint>, deleted: set<Key>): (r: seq<Checkpoint>)
    ensures |r| <= |cps|
  {
    if cps == [] then []
    else
      var c := cps[|cps| - 1];
      Retained(cps[..|cps| - 1], deleted) + (if Kept(c, deleted) then [c] else [])
  }

  /** New ordinals of the old ones that stay. */
  function Moved(cps: seq<Checkpoint>, deleted: set<Key>): (r: map<nat, u32>)
    requires |cps| <= U32_MAX
  {
    if cps == [] then map[]
    else
      var init, c := cps[..|cps| - 1], cps[|cps| - 1];
      var before := Moved(init, deleted);
      if Kept(c, deleted) then before[|init| := |Retained(init, deleted)|] else before
  }

  predicate VersionMoved(was: Option<u32>, now: Option<u32>, versions: map<nat, nat>) {
    if was.None? then now.None?
    else was.value in versions && now.Some? && now.value == versions[was.value]
  }

  /** The copy of a checkpoint: everything as before but the renumbered ids. */
  predicate CheckpointMirrored(c: Checkpoint, d: Checkpoint, j: nat, versions: map<nat, nat>) {
    && d == c.(ordinal := d.ordinal, identityVersion := d.identityVersion,
               messagesVersion := d.messagesVersion, resultVersion := d.resultVersion)
    && d.ordinal == j
    && VersionMoved(Some(c.identityVersion), Some(d.identityVersion), versions)
    && VersionMoved(c.messagesVersion, d.messagesVersion, versions)
    && VersionMoved(c.resultVersion, d.resultVersion, versions)
  }

  ghost predicate CheckpointsMirrored(before: seq<Checkpoint>, after: seq<Checkpoint>, versions: map<nat, nat>) {
    && |before| == |after|
    && forall j :: 0 <= j < |before| ==> CheckpointMirrored(before[j], after[j], j, versions)
  }

  // Requests follow their checkpoints

  type Requests = map<seq<byte>, RequestRecord>

  /** Requests whose checkpoint stays, at its new ordinal. */
  function ActiveAfter(requests: Requests, moved: map<nat, u32>): Requests {
    map k | k in requests && requests[k].ordinal in moved :: requests[k].(ordinal := moved[requests[k].ordinal])
  }

  /** Requests whose checkpoint goes keep their digest for ever. */
  function RetiredAfter(requests: Requests, moved: map<nat, u32>, retired: map<seq<byte>, seq<byte>>): map<seq<byte>,
                        seq<byte>> {
    map k | k in retired.Keys + requests.Keys && (k in retired || requests[k].ordinal !in moved) ::
      if k in retired then retired[k] else requests[k].digest
  }

  predicate RetiresCleanly(requests: Requests, moved: map<nat, u32>, retired: map<seq<byte>, seq<byte>>) {
    forall k :: k in requests && requests[k].ordinal !in moved && k in retired ==> retired[k] == requests[k].digest
  }

  /** Where key `k` stands with the requests of `todo` still to be looked at. */
  predicate Settled(k: seq<byte>, todo: set<seq<byte>>, requests: Requests, moved: map<nat, u32>,
                    retired0: map<seq<byte>, seq<byte>>, active: Requests, retired: map<seq<byte>, seq<byte>>)
  {
    var seen := k in requests && k !in todo;
    if seen && requests[k].ordinal in moved then
      && k in active && active[k] == requests[k].(ordinal := moved[requests[k].ordinal])
      && (k in retired <==> k in retired0) && (k in retired ==> retired[k] == retired0[k])
    else
      && k !in active
      && (k in retired <==> k in retired0 || seen)
      && (k in retired ==> retired[k] == if k in retired0 then retired0[k] else requests[k].digest)
      && (seen && k in retired0 ==> retired0[k] == requests[k].digest)
  }

  lemma AllSettled(requests: Requests, moved: map<nat, u32>, retired0: map<seq<byte>, seq<byte>>,
                   active: Requests, retired: map<seq<byte>, seq<byte>>)
    requires forall k :: Settled(k, {}, requests, moved, retired0, active, retired)
    ensures RetiresCleanly(requests, moved, retired0)
    ensures active == ActiveAfter(requests, moved)
    ensures retired == RetiredAfter(requests, moved, retired0)
  {
    forall k
      ensures k in active <==> k in ActiveAfter(requests, moved)
      ensures k in active ==> active[k] == ActiveAfter(requests, moved)[k]
      ensures k in retired <==> k in RetiredAfter(requests, moved, retired0)
      ensures k in retired ==> retired[k] == RetiredAfter(requests, moved, retired0)[k]
      ensures k in requests && requests[k].ordinal !in moved && k in retired0 ==> retired0[k] == requests[k].digest
    {
      assert Settled(k, {}, requests, moved, retired0, active, retired);
    }
  }

  method MoveRequests(requests: Requests, moved: map<nat, u32>, retired0: map<seq<byte>, seq<byte>>)
    returns (r: Result<(Requests, map<seq<byte>, seq<byte>>)>)
    requires forall k :: k in requests ==> requests[k].key == k
    ensures r.Ok? <==> RetiresCleanly(requests, moved, retired0)
    ensures r.Ok? ==> r.value == (ActiveAfter(requests, moved), RetiredAfter(requests, moved, retired0))
    ensures r.Err? ==> r == Err(RequestIdConflict)
  {
    hide ActiveAfter, RetiredAfter;
    var active: Requests, retired := map[], retired0;
    var todo := requests.Keys;
    while todo != {}
      invariant todo <= requests.Keys
      invariant forall k :: Settled(k, todo, requests, moved, retired0, active, retired)
      decreases |todo|
    {
      var k :| k in todo;
      assert Settled(k, todo, requests, moved, retired0, active, retired);
      var record := requests[k];
      ghost var active0, retired1 := active, retired;
      if record.ordinal in moved {
        active := active[record.key := RequestRecord(record.key, record.digest, moved[record.ordinal])];
      } else if record.key in retired {
        if retired[record.key] != record.digest { return Err(RequestIdConflict); }
      } else {
        retired := retired[record.key := record.digest];
      }
      forall j
        ensures Settled(j, todo - {k}, requests, moved, retired0, active, retired)
      {
        assert Settled(j, todo, requests, moved, retired0, active0, retired1);
      }
      todo := todo - {k};
    }
    AllSettled(requests, moved, retired0, active, retired);
    return Ok((active, retired));
  }

  /** A ledger without overlap stays without one, keeps every known key, and
      always retires cleanly. */
  lemma LedgerStays(requests: Requests, moved: map<nat, u32>, retired: map<seq<byte>, seq<byte>>)
    requires requests.Keys !! retired.Keys
    ensures RetiresCleanly(requests, moved, retired)
    ensures ActiveAfter(requests, moved).Keys !! RetiredAfter(requests, moved, retired).Keys
    ensures ActiveAfter(requests, moved).Keys + RetiredAfter(requests, moved, retired).Keys
         == requests.Keys + retired.Keys
    ensures forall k :: k in retired ==> k in RetiredAfter(requests, moved, retired)
  {
    forall k
      ensures k in ActiveAfter(requests, moved).Keys + RetiredAfter(requests, moved, retired).Keys
         <==> k in requests.Keys + retired.Keys
    {
    }
  }

  // When a prune can succeed

  predicate OrphansNone(s: StoreState, deleted: set<Key>) {
    forall i :: 0 <= i < |s.checkpoints| && Kept(s.checkpoints[i], deleted) && s.checkpoints[i].parent.Some? ==>
      Key(s.checkpoints[i].thread, s.checkpoints[i].parent.value) !in deleted
  }

  ghost predicate ChannelsCopyable(s: StoreState, c: Checkpoint) {
    && Copyable(s, c.identityVersion)
    && (c.messagesVersion.Some? ==> Copyable(s, c.messagesVersion.value))
    && (c.resultVersion.Some? ==> Copyable(s, c.resultVersion.value))
  }

  /** The nodes some kept checkpoint can reach. */
  ghost function LiveNodes(s: StoreState, deleted: set<Key>): set<nat> {
    set id | 0 <= id < |s.nodes| && Live(s, deleted, id)
  }

  /** Payload below the live leaves, each leaf counted once. */
  ghost function LiveBytes(s: StoreState, deleted: set<Key>): nat {
    BytesOf(ViewOf(s), LiveNodes(s, deleted), |s.nodes|)
  }

  ghost predicate KeptCopyable(s: StoreState, deleted: set<Key>) {
    forall i :: 0 <= i < |s.checkpoints| && Kept(s.checkpoints[i], deleted) ==> ChannelsCopyable(s, s.checkpoints[i])
  }

  /** None of the deleted is deleted already, no kept checkpoint is orphaned, and
      everything kept can be copied and fits one arena. */
  ghost predicate Separable(s: StoreState, deleted: set<Key>) {
    && deleted !! s.deleted && OrphansNone(s, deleted)
    && KeptCopyable(s, deleted) && LiveBytes(s, deleted) <= U64_MAX
  }

  /** And no retired key changes its digest. */
  ghost predicate Prunable(s: StoreState, deleted: set<Key>)
    requires |s.checkpoints| <= U32_MAX
  {
    Separable(s, deleted) && RetiresCleanly(s.requests, Moved(s.checkpoints, deleted), s.retired)
  }

  // The live state, checkpoint by checkpoint

  /** The first `i` checkpoints have been considered. */
  ghost predicate LiveSoFar(s: StoreState, t: StoreState, versions: map<nat, nat>, deleted: set<Key>, i: nat)
    requires i <= |s.checkpoints| <= U32_MAX
  {
    && CheckpointsMirrored(Retained(s.checkpoints[..i], deleted), t.checkpoints, versions)
    && ThreadsIndexed(t) && CheckpointsIndexed(t)
    && CheckpointsOk(t) && AllPlaced(s, t, deleted, i) && NamesKept(s, t, deleted, i)
  }

  ghost predicate CheckpointsOk(t: StoreState) {
    forall j :: 0 <= j < |t.checkpoints| ==> CheckpointOk(t, j)
  }

  /** Kept checkpoints are found under their name at their new ordinal. */
  ghost predicate AllPlaced(s: StoreState, t: StoreState, deleted: set<Key>, i: nat)
    requires i <= |s.checkpoints| <= U32_MAX
  {
    forall k :: 0 <= k < i && Kept(s.checkpoints[k], deleted) ==>
      Placed(s.checkpoints[k], Moved(s.checkpoints[..i], deleted), k, t)
  }

  ghost predicate NamesKept(s: StoreState, t: StoreState, deleted: set<Key>, i: nat) {
    forall n :: n in t.checkpointOrdinals ==> n !in deleted && n in s.checkpointOrdinals && s.checkpointOrdinals[n] < i
  }

  predicate Placed(c: Checkpoint, moved: map<nat, u32>, k: nat, t: StoreState) {
    && k in moved && c.Name() in t.checkpointOrdinals && t.checkpointOrdinals[c.Name()] == moved[k]
  }

  function WithThread(t: StoreState, thread: Id): StoreState {
    if thread in t.threadOrdinals then t
    else t.(threadOrdinals := t.threadOrdinals[thread := |t.threads|], threads := t.threads + [thread])
  }

  function WithCheckpoint(t: StoreState, d: Checkpoint): StoreState {
    t.(checkpointOrdinals := t.checkpointOrdinals[d.Name() := d.ordinal], checkpoints := t.checkpoints + [d])
  }

  lemma ThreadsStep(t: StoreState, d: Checkpoint)
    requires ThreadsIndexed(t)
    ensures ThreadsIndexed(WithCheckpoint(WithThread(t, d.thread), d))
  {
    var t' := WithCheckpoint(WithThread(t, d.thread), d);
    assert t'.checkpoints[..|t'.checkpoints| - 1] == t.checkpoints;
  }

  lemma OrdinalsStep(t: StoreState, d: Checkpoint)
    requires CheckpointsIndexed(t) && d.ordinal == |t.checkpoints| && d.Name() !in t.checkpointOrdinals
    ensures CheckpointsIndexed(WithCheckpoint(t, d))
  {
    var t' := WithCheckpoint(t, d);
    forall i | 0 <= i < |t'.checkpoints|
      ensures t'.checkpoints[i].Name() in t'.checkpointOrdinals
      ensures t'.checkpointOrdinals[t'.checkpoints[i].Name()] == i
    {
      if i < |t.checkpoints| { assert t.checkpoints[i].Name() in t.checkpointOrdinals; }
    }
  }

  lemma OkStep(t: StoreState, grown: StoreState, d: Checkpoint)
    requires VersionsGrow(t, grown) && CheckpointsIndexed(t)
    requires CheckpointsOk(t)
    requires d.ordinal == |t.checkpoints| && d.Name() !in t.checkpointOrdinals
    requires IdentifierOk(d.thread) && IdentifierOk(d.id)
    requires d.identityVersion < |grown.versions|
    requires VersionOk(d.messagesVersion, |grown.versions|) && VersionOk(d.resultVersion, |grown.versions|)
    requires d.parent.Some? ==> Key(d.thread, d.parent.value) in t.checkpointOrdinals
    ensures CheckpointsOk(WithCheckpoint(WithThread(grown, d.thread), d))
  {
    hide IdentifierOk;
    var t' := WithCheckpoint(WithThread(grown, d.thread), d);
    forall j | 0 <= j <= |t.checkpoints|
      ensures CheckpointOk(t', j)
    {
      if j < |t.checkpoints| {
        assert CheckpointOk(t, j);
        assert t'.checkpoints[j] == t.checkpoints[j];
      }
    }
  }

  lemma MirrorStep(cps: seq<Checkpoint>, i: nat, deleted: set<Key>, after: seq<Checkpoint>, was: map<nat, nat>,
                   versions: map<nat, nat>, d: Checkpoint)
    requires i < |cps| && Kept(cps[i], deleted)
    requires CheckpointsMirrored(Retained(cps[..i], deleted), after, was)
    requires forall k :: k in was ==> k in versions && versions[k] == was[k]
    requires CheckpointMirrored(cps[i], d, |after|, versions)
    ensures CheckpointsMirrored(Retained(cps[..i + 1], deleted), after + [d], versions)
  {
    var upto := cps[..i + 1];
    assert upto[..i] == cps[..i] && upto[i] == cps[i];
    var before := Retained(cps[..i], deleted);
    forall j | 0 <= j < |after|
      ensures CheckpointMirrored(before[j], after[j], j, versions)
    {
      assert CheckpointMirrored(before[j], after[j], j, was);
    }
  }

  /** Skipping a deleted checkpoint. */
  lemma SkipStep(s: StoreState, t: StoreState, versions: map<nat, nat>, deleted: set<Key>, i: nat)
    requires i < |s.checkpoints| <= U32_MAX && LiveSoFar(s, t, versions, deleted, i) && !Kept(s.checkpoints[i], deleted)
    ensures LiveSoFar(s, t, versions, deleted, i + 1)
  {
    hide CheckpointsMirrored, CheckpointsOk, ThreadsIndexed, CheckpointsIndexed, Placed;
    var upto := s.checkpoints[..i + 1];
    assert upto[..|upto| - 1] == s.checkpoints[..i] && upto[i] == s.checkpoints[i];
    assert Retained(upto, deleted) == Retained(s.checkpoints[..i], deleted);
    assert Moved(upto, deleted) == Moved(s.checkpoints[..i], deleted);
  }

  /** A kept checkpoint is new to the target, its parent is not. */
  lemma NewToTarget(s: StoreState, t: StoreState, deleted: set<Key>, i: nat)
    requires Inv(s) && i < |s.checkpoints| && Kept(s.checkpoints[i], deleted)
    requires AllPlaced(s, t, deleted, i) && NamesKept(s, t, deleted, i)
    ensures |s.checkpoints| <= U32_MAX
    ensures var c := s.checkpoints[i];
      && c.Name() !in t.checkpointOrdinals
      && c.Name() in s.checkpointOrdinals && s.checkpointOrdinals[c.Name()] == i
      && IdentifierOk(c.thread) && IdentifierOk(c.id)
      && (c.parent.Some? && Key(c.thread, c.parent.value) !in deleted ==>
            Key(c.thread, c.parent.value) in t.checkpointOrdinals)
  {
    hide IdentifierOk, WellFormed, VersionsOk, RequestsOk, ThreadsIndexed;
    var c := s.checkpoints[i];
    assert CheckpointOk(s, i);
    assert s.checkpointOrdinals[c.Name()] == i;
    if c.parent.Some? && Key(c.thread, c.parent.value) !in deleted {
      var p := s.checkpointOrdinals[Key(c.thread, c.parent.value)];
      assert s.checkpoints[p].Name() == Key(c.thread, c.parent.value);
      assert Placed(s.checkpoints[p], Moved(s.checkpoints[..i], deleted), p, t);
    }
  }

  /** Adding the copy of a kept checkpoint whose channels have been copied. */
  lemma KeepStep(s: StoreState, t: StoreState, grown: StoreState, was: map<nat, nat>, versions: map<nat, nat>,
                 deleted: set<Key>, i: nat, d: Checkpoint)
    requires Inv(s) && i < |s.checkpoints| && LiveSoFar(s, t, was, deleted, i) && Kept(s.checkpoints[i], deleted)
    requires VersionsGrow(t, grown) && (forall k :: k in was ==> k in versions && versions[k] == was[k])
    requires CheckpointMirrored(s.checkpoints[i], d, |t.checkpoints|, versions)
    requires d.identityVersion < |grown.versions|
    requires VersionOk(d.messagesVersion, |grown.versions|) && VersionOk(d.resultVersion, |grown.versions|)
    requires d.parent.Some? ==> Key(d.thread, d.parent.value) !in deleted
    ensures LiveSoFar(s, WithCheckpoint(WithThread(grown, d.thread), d), versions, deleted, i + 1)
    ensures d.Name() !in t.checkpointOrdinals
  {
    hide Inv, CheckpointsMirrored, CheckpointsOk, AllPlaced, ThreadsIndexed, CheckpointsIndexed, VersionOk,
      VersionMoved, IdentifierOk;
    var t' := WithCheckpoint(WithThread(grown, d.thread), d);
    NewToTarget(s, t, deleted, i);
    RetainedLength(Retained(s.checkpoints[..i], deleted), t.checkpoints, was);
    SameNames(t, grown);
    ThreadsStep(grown, d);
    OrdinalsStep(WithThread(grown, d.thread), d);
    OkStep(t, grown, d);
    MirrorStep(s.checkpoints, i, deleted, t.checkpoints, was, versions, d);
    PlacedStep(s, t, t', deleted, i, d);
    assert d.Name() == s.checkpoints[i].Name();
    assert NamesKept(s, t', deleted, i + 1);
  }

  lemma SameNames(t: StoreState, grown: StoreState)
    requires VersionsGrow(t, grown) && ThreadsIndexed(t) && CheckpointsIndexed(t)
    ensures ThreadsIndexed(grown) && CheckpointsIndexed(grown)
    ensures forall thread :: CheckpointsIndexed(WithThread(grown, thread))
  {
  }

  lemma RetainedLength(cps: seq<Checkpoint>, after: seq<Checkpoint>, versions: map<nat, nat>)
    requires CheckpointsMirrored(cps, after, versions)
    ensures |cps| == |after|
  {
  }

  lemma PlacedStep(s: StoreState, t: StoreState, t': StoreState, deleted: set<Key>, i: nat, d: Checkpoint)
    requires i < |s.checkpoints| <= U32_MAX && Kept(s.checkpoints[i], deleted)
    requires d.Name() == s.checkpoints[i].Name()
    requires d.ordinal == |t.checkpoints| == |Retained(s.checkpoints[..i], deleted)|
    requires d.Name() !in t.checkpointOrdinals
    requires t'.checkpointOrdinals == t.checkpointOrdinals[d.Name() := d.ordinal]
    requires AllPlaced(s, t, deleted, i)
    ensures AllPlaced(s, t', deleted, i + 1)
  {
    var upto := s.checkpoints[..i + 1];
    assert upto[..i] == s.checkpoints[..i] && upto[i] == s.checkpoints[i];
    forall k | 0 <= k <= i && Kept(s.checkpoints[k], deleted)
      ensures Placed(s.checkpoints[k], Moved(upto, deleted), k, t')
    {
      if k < i { assert Placed(s.checkpoints[k], Moved(s.checkpoints[..i], deleted), k, t); }
    }
  }

  /** A version one of the checkpoint's channels names. */
  predicate Uses(c: Checkpoint, version: nat) {
    || c.identityVersion == version
    || (c.messagesVersion.Some? && c.messagesVersion.value == version)
    || (c.resultVersion.Some? && c.resultVersion.value == version)
  }

  /** A list of versions in order of first use, with those a checkpoint names. */
  function ListedChannels(versions: seq<nat>, c: Checkpoint): seq<nat> {
    var one := Listed(versions, c.identityVersion);
    var two := if c.messagesVersion.Some? then Listed(one, c.messagesVersion.value) else one;
    if c.resultVersion.Some? then Listed(two, c.resultVersion.value) else two
  }

  /** The versions that kept checkpoints name, in the order they first do. */
  function UsedInOrder(cps: seq<Checkpoint>, deleted: set<Key>): seq<nat> {
    if cps == [] then []
    else
      var before := UsedInOrder(cps[..|cps| - 1], deleted);
      if Kept(cps[|cps| - 1], deleted) then ListedChannels(before, cps[|cps| - 1]) else before
  }

  lemma UsedStep(cps: seq<Checkpoint>, i: nat, deleted: set<Key>)
    requires i < |cps|
    ensures UsedInOrder(cps[..i + 1], deleted)
         == if Kept(cps[i], deleted) then ListedChannels(UsedInOrder(cps[..i], deleted), cps[i])
            else UsedInOrder(cps[..i], deleted)
  {
    assert cps[..i + 1][..i] == cps[..i];
  }

  lemma ListedAre(versions: seq<nat>, c: Checkpoint, v: nat)
    ensures v in ListedChannels(versions, c) <==> v in versions || Uses(c, v)
  {
  }

  /** They are just the ones in use. */
  lemma {:induction false} UsedInOrderIs(s: StoreState, i: nat, deleted: set<Key>, v: nat)
    requires i <= |s.checkpoints|
    ensures v in UsedInOrder(s.checkpoints[..i], deleted) <==> exists k :: UsedAt(s, deleted, i, v, k)
  {
    hide ListedChannels, Uses;
    if i > 0 {
      UsedStep(s.checkpoints, i - 1, deleted);
      ListedAre(UsedInOrder(s.checkpoints[..i - 1], deleted), s.checkpoints[i - 1], v);
      UsedInOrderIs(s, i - 1, deleted, v);
      var before := i - 1;
      if k: nat :| UsedAt(s, deleted, before, v, k) { assert UsedAt(s, deleted, i, v, k); }
      if Kept(s.checkpoints[i - 1], deleted) && Uses(s.checkpoints[i - 1], v) {
        assert UsedAt(s, deleted, i, v, i - 1);
      }
      if k: nat :| UsedAt(s, deleted, i, v, k) { assert k < before ==> UsedAt(s, deleted, before, v, k); }
    }
  }

  /** Copies the channels of one kept checkpoint. */
  method CompactChannels(w: Compactor, c: Checkpoint, ordinal: u32,
                         ghost live: set<nat>) returns (r: Result<Checkpoint>)
    requires w.Valid() && c.identityVersion < |w.source.versions|
    requires VersionOk(c.messagesVersion, |w.source.versions|) && VersionOk(c.resultVersion, |w.source.versions|)
    requires w.nodeMap.Keys <= live && forall v :: Uses(c, v) ==> NeededWithin(w.source, v, live)
    modifies w`target, w`nodeMap, w`origin, w`versionMap, w`versionOrigin
    ensures r.Ok? ==>
      && w.Valid() && VersionsGrow(old(w.target), w.target) && ChannelsCopyable(w.source, c) && w.nodeMap.Keys <= live
      && (forall k :: k in old(w.versionMap) ==> k in w.versionMap && w.versionMap[k] == old(w.versionMap[k]))
      && (forall k :: k in w.versionMap ==> k in old(w.versionMap) || Uses(c, k))
      && CheckpointMirrored(c, r.value, ordinal, w.versionMap)
      && w.versionOrigin == ListedChannels(old(w.versionOrigin), c)
    ensures r.Err? ==> !ChannelsCopyable(w.source, c) || BytesOf(ViewOf(w.source), live, |w.source.nodes|) > U64_MAX
  {
    hide Inv, Copyable, Mirror, VersionsMirrored, NodesNeeded, ViewOf, BytesOf, NeededWithin, Listed, Packed,
      VisitedFor;
    assert Uses(c, c.identityVersion);
    var identity := w.CompactVersion(c.identityVersion, live);
    if identity.Err? { return Err(Format); }
    var messages: Option<u32> := None;
    if c.messagesVersion.Some? {
      assert Uses(c, c.messagesVersion.value);
      var copied := w.CompactVersion(c.messagesVersion.value, live);
      if copied.Err? { return Err(Format); }
      messages := Some(copied.value);
    }
    var result: Option<u32> := None;
    if c.resultVersion.Some? {
      assert Uses(c, c.resultVersion.value);
      var copied := w.CompactVersion(c.resultVersion.value, live);
      if copied.Err? { return Err(Format); }
      result := Some(copied.value);
    }
    return Ok(c.(ordinal := ordinal, identityVersion := identity.value, messagesVersion := messages,
                 resultVersion := result));
  }

  /** What a kept checkpoint needs is live. */
  lemma KeptIsLive(s: StoreState, deleted: set<Key>, i: nat)
    requires Inv(s) && i < |s.checkpoints| && Kept(s.checkpoints[i], deleted)
    ensures forall v :: Uses(s.checkpoints[i], v) ==> NeededWithin(s, v, LiveNodes(s, deleted))
  {
    hide Inv, Uses;
    SourceFormed(s);
    ParentsBelong(s);
    forall v: nat, k: nat | Uses(s.checkpoints[i], v) && NeededFor(s, v, k)
      ensures k in LiveNodes(s, deleted)
    {
      assert UsedAt(s, deleted, |s.checkpoints|, v, i);
      ReachWithin(ViewOf(s), s.versions[v].value, k);
    }
  }

  lemma MappedIsU32(s: StoreState, t: StoreState, m: map<nat, nat>, versions: map<nat, nat>, from: seq<nat>,
                    version: nat)
    requires Inv(s) && VersionsMirrored(s, t, m, versions, from) && version in versions
    ensures versions[version] < |t.versions| <= U32_MAX
  {
    ParentsBelong(s);
    VersionsSmaller(s, t, m, versions, from);
    MappedBelow(s, t, m, versions, from, version);
  }

  lemma MappedChannels(s: StoreState, t: StoreState, m: map<nat, nat>, versions: map<nat, nat>, from: seq<nat>,
                       c: Checkpoint, d: Checkpoint, j: nat)
    requires Inv(s) && VersionsMirrored(s, t, m, versions, from) && CheckpointMirrored(c, d, j, versions)
    ensures d.identityVersion < |t.versions|
    ensures VersionOk(d.messagesVersion, |t.versions|) && VersionOk(d.resultVersion, |t.versions|)
  {
    hide Inv;
    MappedIsU32(s, t, m, versions, from, c.identityVersion);
    if c.messagesVersion.Some? { MappedIsU32(s, t, m, versions, from, c.messagesVersion.value); }
    if c.resultVersion.Some? { MappedIsU32(s, t, m, versions, from, c.resultVersion.value); }
  }

  /** Copied versions are named by kept checkpoints among the first `i`. */
  ghost predicate VersionsUsed(s: StoreState, versions: set<nat>, deleted: set<Key>, i: nat) {
    forall v :: v in versions ==> exists k :: UsedAt(s, deleted, i, v, k)
  }

  predicate UsedAt(s: StoreState, deleted: set<Key>, i: nat, v: nat, k: nat) {
    k < i && k < |s.checkpoints| && Kept(s.checkpoints[k], deleted) && Uses(s.checkpoints[k], v)
  }

  lemma VersionsUsedStep(s: StoreState, was: set<nat>, now: set<nat>, deleted: set<Key>, i: nat)
    requires i < |s.checkpoints| && VersionsUsed(s, was, deleted, i)
    requires forall v :: v in now ==> v in was || (Kept(s.checkpoints[i], deleted) && Uses(s.checkpoints[i], v))
    ensures VersionsUsed(s, now, deleted, i + 1)
  {
    var n := i + 1;
    forall v | v in now
      ensures exists k :: UsedAt(s, deleted, n, v, k)
    {
      if v in was {
        var k :| UsedAt(s, deleted, i, v, k);
        assert UsedAt(s, deleted, n, v, k);
      } else {
        assert UsedAt(s, deleted, n, v, i);
      }
    }
  }

  // What compaction promises

  /** Same identity, parent, length and hash, and the very same bytes. */
  predicate SameCheckpoint(s: StoreState, t: StoreState, c: Checkpoint, d: Checkpoint, j: nat) {
    && d == c.(ordinal := d.ordinal, identityVersion := d.identityVersion,
               messagesVersion := d.messagesVersion, resultVersion := d.resultVersion)
    && d.ordinal == j
    && CheckpointBytes(t, d) == CheckpointBytes(s, c) && CheckpointBytes(s, c).Some?
  }

  /** A node some kept checkpoint can reach. */
  ghost predicate Live(s: StoreState, deleted: set<Key>, id: nat) {
    exists v, k :: UsedAt(s, deleted, |s.checkpoints|, v, k) && NeededFor(s, v, id)
  }

  /** Every live node is copied exactly once, and no other node: version by
      version, children before parents and left before right, each leaf right
      behind the one before it, each branch as short as its distances allow. */
  ghost predicate CopiesLive(s: StoreState, deleted: set<Key>, t: StoreState, m: map<nat, nat>, origin: seq<nat>) {
    && Mirror(ViewOf(s), ViewOf(t), m, origin)
    && origin == VisitedFor(s, UsedInOrder(s.checkpoints, deleted))
    && Packed(ViewOf(s), ViewOf(t), t.nodes, |t.wides|, origin)
    && forall id :: id in m <==> Live(s, deleted, id)
  }

  ghost predicate RetainedIntact(s: StoreState, deleted: set<Key>, t: StoreState) {
    var kept := Retained(s.checkpoints, deleted);
    && |t.checkpoints| == |kept|
    && forall j :: 0 <= j < |kept| ==> SameCheckpoint(s, t, kept[j], t.checkpoints[j], j)
  }

  ghost predicate Compacted(s: StoreState, deleted: set<Key>, t: StoreState)
    requires |s.checkpoints| <= U32_MAX
  {
    var moved := Moved(s.checkpoints, deleted);
    && Inv(t)
    && RetainedIntact(s, deleted, t)
    && t.deleted == s.deleted + deleted
    && t.requests == ActiveAfter(s.requests, moved)
    && t.retired == RetiredAfter(s.requests, moved, s.retired)
  }

  /** A version some kept checkpoint names. */
  ghost predicate UsedByKept(s: StoreState, deleted: set<Key>, v: nat) {
    exists k :: UsedAt(s, deleted, |s.checkpoints|, v, k)
  }

  /** The versions that kept checkpoints name are copied once each in the order
      of first use, each with its bytes and with the parent it had when that was
      copied before; no other version is, and the copied checkpoints name them. */
  ghost predicate VersionsCopied(s: StoreState, deleted: set<Key>, t: StoreState) {
    var from, kept := UsedInOrder(s.checkpoints, deleted), Retained(s.checkpoints, deleted);
    && |t.versions| == |t.parents| == |from| && |t.checkpoints| == |kept|
    && (forall i, j :: 0 <= i < j < |from| ==> from[i] != from[j])
    && (forall j :: 0 <= j < |from| ==> VersionCopied(s, t, from, j))
    && (forall j :: 0 <= j < |kept| ==> NamesCopies(kept[j], t.checkpoints[j], from))
  }

  predicate VersionCopied(s: StoreState, t: StoreState, from: seq<nat>, j: nat)
    requires j < |from| == |t.parents|
  {
    from[j] < |s.parents| && SameVersion(s, from[j], t, j) && LinkMirrored(s, t, from, j)
  }

  predicate NamesCopies(c: Checkpoint, d: Checkpoint, from: seq<nat>) {
    && NamesCopy(Some(c.identityVersion), Some(d.identityVersion), from)
    && NamesCopy(c.messagesVersion, d.messagesVersion, from) && NamesCopy(c.resultVersion, d.resultVersion, from)
  }

  predicate NamesCopy(was: Option<u32>, now: Option<u32>, from: seq<nat>) {
    (was.None? <==> now.None?) && (was.Some? ==> now.value < |from| && from[now.value] == was.value)
  }

  predicate SameVersion(s: StoreState, v: nat, t: StoreState, copy: nat) {
    && ExtractVersion(ViewOf(t), t.versions, copy) == ExtractVersion(ViewOf(s), s.versions, v)
    && ExtractVersion(ViewOf(s), s.versions, v).Some?
  }

  /** Every version that a kept checkpoint names has a 64-bit length. */
  ghost predicate KeptRootsFit(s: StoreState, deleted: set<Key>) {
    forall v: nat :: UsedByKept(s, deleted, v) && v < |s.versions| && s.versions[v].Some? ==>
      Fits(ViewOf(s), s.versions[v].value)
  }

  /** And nothing but what stays is in it: exactly the live nodes, their payload
      and no other, and exactly the versions in use. */
  ghost predicate Rewritten(s: StoreState, deleted: set<Key>, t: StoreState) {
    && |s.checkpoints| <= U32_MAX
    && Compacted(s, deleted, t) && AllBranches(t.wides) && |t.arena| == LiveBytes(s, deleted)
    && (exists m, origin :: CopiesLive(s, deleted, t, m, origin))
    && VersionsCopied(s, deleted, t)
  }

  /** Whether a pruned state can be opened again depends on what stays only: an
      overlong version that no kept checkpoint names is gone. */
  lemma PrunedRootsFit(s: StoreState, deleted: set<Key>, t: StoreState)
    requires Rewritten(s, deleted, t)
    ensures RootsFit(t) <==> KeptRootsFit(s, deleted)
  {
    hide Compacted, CopiesLive, LiveBytes, AllBranches, ViewOf, Extract, UsedAt, LinkMirrored, NamesCopies;
    var from := UsedInOrder(s.checkpoints, deleted);
    assert s.checkpoints[..|s.checkpoints|] == s.checkpoints;
    if RootsFit(t) {
      forall v: nat | UsedByKept(s, deleted, v) && v < |s.versions| && s.versions[v].Some?
        ensures Fits(ViewOf(s), s.versions[v].value)
      {
        UsedInOrderIs(s, |s.checkpoints|, deleted, v);
        var j :| 0 <= j < |from| && from[j] == v;
        assert VersionCopied(s, t, from, j);
      }
    }
    if KeptRootsFit(s, deleted) {
      forall j | 0 <= j < |t.versions| && t.versions[j].Some?
        ensures Fits(ViewOf(t), t.versions[j].value)
      {
        assert VersionCopied(s, t, from, j);
        UsedInOrderIs(s, |s.checkpoints|, deleted, from[j]);
        assert UsedByKept(s, deleted, from[j]);
      }
    }
  }

  /** A checkpoint that stays is found at its new ordinal. */
  lemma {:induction false} MovedIs(cps: seq<Checkpoint>, deleted: set<Key>, k: nat)
    requires k < |cps| <= U32_MAX
    ensures var moved, kept := Moved(cps, deleted), Retained(cps, deleted);
      && (k in moved <==> Kept(cps[k], deleted))
      && (k in moved ==> moved[k] < |kept| && kept[moved[k]] == cps[k])
  {
    MovedBelow(cps[..|cps| - 1], deleted);
    if k < |cps| - 1 { MovedIs(cps[..|cps| - 1], deleted, k); }
  }

  /** The request still names the checkpoint it did, under its new ordinal. */
  predicate SameRequest(s: StoreState, was: RequestRecord, t: StoreState, now: RequestRecord) {
    && now.key == was.key && now.digest == was.digest
    && was.ordinal < |s.checkpoints| && now.ordinal < |t.checkpoints|
    && t.checkpoints[now.ordinal].Name() == s.checkpoints[was.ordinal].Name()
  }

  /** Whether the checkpoint of a request is kept. */
  predicate StaysActive(s: StoreState, deleted: set<Key>, k: seq<byte>) {
    && k in s.requests && s.requests[k].ordinal < |s.checkpoints|
    && Kept(s.checkpoints[s.requests[k].ordinal], deleted)
  }

  /** The ledger after a prune: a request stays active exactly when its
      checkpoint is kept, and goes on naming it; every other known key is
      retired, with the digest it was retired or committed with. */
  lemma RequestsFollow(s: StoreState, deleted: set<Key>, t: StoreState)
    requires Inv(s) && Rewritten(s, deleted, t)
    ensures forall k :: k in t.requests <==> StaysActive(s, deleted, k)
    ensures forall k :: k in t.requests ==> SameRequest(s, s.requests[k], t, t.requests[k])
    ensures forall k :: k in t.retired <==> k in s.retired || (k in s.requests && !StaysActive(s, deleted, k))
    ensures forall k :: k in t.retired ==>
      t.retired[k] == if k in s.retired then s.retired[k] else s.requests[k].digest
  {
    hide CopiesLive, VersionsCopied, LiveBytes, WellFormed, VersionsOk, CheckpointOk, CheckpointsIndexed,
      ThreadsIndexed, Moved, Retained, ViewOf;
    forall k | k in s.requests
      ensures s.requests[k].ordinal in Moved(s.checkpoints, deleted) <==> StaysActive(s, deleted, k)
      ensures k in t.requests ==> SameRequest(s, s.requests[k], t, t.requests[k])
    {
      MovedIs(s.checkpoints, deleted, s.requests[k].ordinal);
      if k in t.requests {
        var kept, j := Retained(s.checkpoints, deleted), t.requests[k].ordinal;
        assert SameCheckpoint(s, t, kept[j], t.checkpoints[j], j);
      }
    }
  }

  /** Checkpoints that stay keep their order. */
  lemma {:induction false} MovedInOrder(cps: seq<Checkpoint>, deleted: set<Key>, j: nat, k: nat)
    requires |cps| <= U32_MAX
    requires j < k && j in Moved(cps, deleted) && k in Moved(cps, deleted)
    ensures Moved(cps, deleted)[j] < Moved(cps, deleted)[k]
  {
    if cps != [] {
      MovedBelow(cps[..|cps| - 1], deleted);
      MovedBelow(cps, deleted);
      if k < |cps| - 1 { MovedInOrder(cps[..|cps| - 1], deleted, j, k); }
    }
  }

  /** A checkpoint that stays was there before. */
  lemma {:induction false} RetainedWas(cps: seq<Checkpoint>, deleted: set<Key>, j: nat) returns (k: nat)
    requires |cps| <= U32_MAX && j < |Retained(cps, deleted)|
    ensures k < |cps| && Kept(cps[k], deleted) && k in Moved(cps, deleted) && Moved(cps, deleted)[k] == j
    ensures Retained(cps, deleted)[j] == cps[k]
  {
    MovedBelow(cps[..|cps| - 1], deleted);
    if j < |Retained(cps[..|cps| - 1], deleted)| { k := RetainedWas(cps[..|cps| - 1], deleted, j); }
    else { k := |cps| - 1; }
  }

  /** The name is of a checkpoint in both states, which reads the same. */
  predicate SameNamed(s: StoreState, t: StoreState, name: Key) {
    && name in s.checkpointOrdinals && s.checkpointOrdinals[name] < |s.checkpoints|
    && name in t.checkpointOrdinals && t.checkpointOrdinals[name] < |t.checkpoints|
    && CheckpointBytes(t, t.checkpoints[t.checkpointOrdinals[name]])
    == CheckpointBytes(s, s.checkpoints[s.checkpointOrdinals[name]])
  }

  lemma NameStays(s: StoreState, deleted: set<Key>, t: StoreState, k: nat)
    requires Inv(s) && Rewritten(s, deleted, t) && k < |s.checkpoints| && Kept(s.checkpoints[k], deleted)
    ensures var name := s.checkpoints[k].Name();
      && SameNamed(s, t, name) && s.checkpointOrdinals[name] == k
      && k in Moved(s.checkpoints, deleted) && t.checkpointOrdinals[name] == Moved(s.checkpoints, deleted)[k]
  {
    hide CopiesLive, VersionsCopied, LiveBytes, WellFormed, VersionsOk, CheckpointOk, ThreadsIndexed, Moved, Retained,
      ViewOf, CheckpointBytes, RequestsOk;
    MovedIs(s.checkpoints, deleted, k);
    var kept, j := Retained(s.checkpoints, deleted), Moved(s.checkpoints, deleted)[k];
    assert SameCheckpoint(s, t, kept[j], t.checkpoints[j], j);
    assert t.checkpoints[j].Name() == s.checkpoints[k].Name();
  }

  /** The live names after a prune are those before it without the deleted, in
      the same order, and each checkpoint reads as it did. */
  lemma NamesStay(s: StoreState, deleted: set<Key>, t: StoreState)
    requires Inv(s) && Rewritten(s, deleted, t)
    ensures forall n :: n in t.checkpointOrdinals <==> n in s.checkpointOrdinals && n !in deleted
    ensures forall n :: n in t.checkpointOrdinals ==> SameNamed(s, t, n)
    ensures forall a, b :: a in t.checkpointOrdinals && b in t.checkpointOrdinals ==>
      (t.checkpointOrdinals[a] < t.checkpointOrdinals[b] <==> s.checkpointOrdinals[a] < s.checkpointOrdinals[b])
  {
    hide CopiesLive, VersionsCopied, LiveBytes, WellFormed, VersionsOk, CheckpointOk, ThreadsIndexed, Moved, Retained,
      ViewOf, CheckpointBytes, RequestsOk;
    var moved := Moved(s.checkpoints, deleted);
    forall n | n in t.checkpointOrdinals || (n in s.checkpointOrdinals && n !in deleted)
      ensures n in t.checkpointOrdinals && n in s.checkpointOrdinals && n !in deleted && SameNamed(s, t, n)
      ensures s.checkpointOrdinals[n] in moved && t.checkpointOrdinals[n] == moved[s.checkpointOrdinals[n]]
    {
      var k: nat;
      if n in t.checkpointOrdinals {
        var j := t.checkpointOrdinals[n];
        k := RetainedWas(s.checkpoints, deleted, j);
        assert SameCheckpoint(s, t, Retained(s.checkpoints, deleted)[j], t.checkpoints[j], j);
        assert s.checkpoints[k].Name() == n;
      } else {
        k := s.checkpointOrdinals[n];
      }
      NameStays(s, deleted, t, k);
    }
    forall a, b | a in t.checkpointOrdinals && b in t.checkpointOrdinals
      ensures t.checkpointOrdinals[a] < t.checkpointOrdinals[b] <==> s.checkpointOrdinals[a] < s.checkpointOrdinals[b]
    {
      var i, j := s.checkpointOrdinals[a], s.checkpointOrdinals[b];
      if i < j { MovedInOrder(s.checkpoints, deleted, i, j); }
      if j < i { MovedInOrder(s.checkpoints, deleted, j, i); }
    }
  }

  lemma SameExtract(s: StoreState, t: StoreState, m: map<nat, nat>, origin: seq<nat>, versions: map<nat, nat>,
                    from: seq<nat>, version: nat)
    requires Inv(s) && Mirror(ViewOf(s), ViewOf(t), m, origin) && VersionsMirrored(s, t, m, versions, from)
    requires version in versions
    ensures ExtractVersion(ViewOf(t), t.versions, versions[version]) == ExtractVersion(ViewOf(s), s.versions, version)
    ensures ExtractVersion(ViewOf(s), s.versions, version).Some?
  {
    hide Inv, Mirror, ViewOf;
    SourceFormed(s);
    assert VersionMirrored(s, t, m, versions, from, version);
    MirrorExtracts(ViewOf(s), ViewOf(t), m, origin, s.versions[version].value);
  }

  lemma SameBytes(s: StoreState, t: StoreState, m: map<nat, nat>, origin: seq<nat>, versions: map<nat, nat>,
                  from: seq<nat>, c: Checkpoint, d: Checkpoint, j: nat)
    requires Inv(s) && Mirror(ViewOf(s), ViewOf(t), m, origin) && VersionsMirrored(s, t, m, versions, from)
    requires CheckpointMirrored(c, d, j, versions)
    ensures SameCheckpoint(s, t, c, d, j)
  {
    hide Inv, Mirror, VersionsMirrored, ViewOf, Frame, ExtractVersion;
    SameExtract(s, t, m, origin, versions, from, c.identityVersion);
    if c.messagesVersion.Some? { SameExtract(s, t, m, origin, versions, from, c.messagesVersion.value); }
    if c.resultVersion.Some? { SameExtract(s, t, m, origin, versions, from, c.resultVersion.value); }
  }

  /** The state a compactor starts from, and what only the end changes. */
  predicate Untouched(t: StoreState, deleted: set<Key>, retired: map<seq<byte>, seq<byte>>) {
    t.base == EMPTY_GEOMETRY && t.requests == map[] && t.deleted == deleted && t.retired == retired
  }

  /** Adding the finished checkpoint leaves nodes and versions alone. */
  method Publish(w: Compactor, d: Checkpoint)
    requires w.Valid()
    modifies w`target
    ensures w.Valid() && w.target == WithCheckpoint(WithThread(old(w.target), d.thread), d)
  {
    hide Inv, Mirror, NodesNeeded, ViewOf, Packed, VisitedFor;
    ghost var t0 := w.target;
    w.target := WithCheckpoint(WithThread(w.target, d.thread), d);
    SameView(t0, w.target);
    SameVersions(w.source, t0, w.target, w.nodeMap, w.versionMap, w.versionOrigin);
  }

  lemma SameVersions(s: StoreState, t0: StoreState, t: StoreState, m: map<nat, nat>, versions: map<nat, nat>,
                     from: seq<nat>)
    requires VersionsMirrored(s, t0, m, versions, from) && t.versions == t0.versions && t.parents == t0.parents
    ensures VersionsMirrored(s, t, m, versions, from)
  {
    forall k | k in versions
      ensures VersionMirrored(s, t, m, versions, from, k)
    {
      assert VersionMirrored(s, t0, m, versions, from, k);
    }
  }

  /** What one round needs to know about the checkpoint it looks at. */
  lemma CheckpointFacts(s: StoreState, i: nat)
    requires Inv(s) && i < |s.checkpoints|
    ensures |s.checkpoints| <= U32_MAX
    ensures var c := s.checkpoints[i];
      && c.ordinal == i && c.identityVersion < |s.versions|
      && VersionOk(c.messagesVersion, |s.versions|) && VersionOk(c.resultVersion, |s.versions|)
  {
    assert CheckpointOk(s, i);
  }

  lemma MovedStep(cps: seq<Checkpoint>, i: nat, deleted: set<Key>)
    requires i < |cps| <= U32_MAX
    ensures Moved(cps[..i + 1], deleted)
      == if Kept(cps[i], deleted) then Moved(cps[..i], deleted)[i := |Retained(cps[..i], deleted)|]
         else Moved(cps[..i], deleted)
  {
    var upto := cps[..i + 1];
    assert upto[..|upto| - 1] == cps[..i] && upto[i] == cps[i];
  }

  /** All kept checkpoints among the first `i` can be copied and have parents. */
  ghost predicate PrunableSoFar(s: StoreState, deleted: set<Key>, i: nat)
    requires i <= |s.checkpoints|
  {
    forall k :: 0 <= k < i && Kept(s.checkpoints[k], deleted) ==>
      && ChannelsCopyable(s, s.checkpoints[k])
      && (s.checkpoints[k].parent.Some? ==> Key(s.checkpoints[k].thread, s.checkpoints[k].parent.value) !in deleted)
  }

  /** The kept checkpoints in order, each name and channel copied as it comes. */
  method CompactCheckpoints(w: Compactor, deleted: set<Key>) returns (r: Result<map<nat, u32>>)
    requires w.Valid() && w.versionMap == map[]
    requires w.target == EMPTY_STATE.(deleted := w.target.deleted, retired := w.target.retired)
    requires w.nodeMap == map[] && w.versionOrigin == []
    modifies w`target, w`nodeMap, w`origin, w`versionMap, w`versionOrigin
    ensures r.Ok? ==>
      && w.Valid() && |w.source.checkpoints| <= U32_MAX
      && PrunableSoFar(w.source, deleted, |w.source.checkpoints|)
      && LiveSoFar(w.source, w.target, w.versionMap, deleted, |w.source.checkpoints|)
      && VersionsUsed(w.source, w.versionMap.Keys, deleted, |w.source.checkpoints|)
      && Untouched(w.target, old(w.target.deleted), old(w.target.retired))
      && r.value == Moved(w.source.checkpoints, deleted)
      && w.versionOrigin == UsedInOrder(w.source.checkpoints, deleted)
    ensures r.Err? ==>
      !PrunableSoFar(w.source, deleted, |w.source.checkpoints|) || LiveBytes(w.source, deleted) > U64_MAX
  {
    hide Inv, Mirror, VersionsMirrored, NodesNeeded, ViewOf, ChannelsCopyable, LiveSoFar, CheckpointMirrored,
      VersionOk, Moved, VersionsUsed, LiveNodes, BytesOf, Uses, UsedInOrder, ListedChannels, Packed, VisitedFor;
    var cps := w.source.checkpoints;
    ghost var live := LiveNodes(w.source, deleted);
    var moved: map<nat, u32> := map[];
    CountFits(w.source);
    NothingLive(w.source, w.target, deleted);
    assert UsedInOrder(cps[..0], deleted) == [] by { NoneUsed(cps, deleted); }
    assert w.versionMap.Keys == {} && w.nodeMap.Keys == {};
    ghost var deleted0, retired0 := w.target.deleted, w.target.retired;
    for i := 0 to |cps|
      invariant w.Valid() && PrunableSoFar(w.source, deleted, i)
      invariant LiveSoFar(w.source, w.target, w.versionMap, deleted, i)
      invariant VersionsUsed(w.source, w.versionMap.Keys, deleted, i)
      invariant w.versionOrigin == UsedInOrder(cps[..i], deleted)
      invariant Untouched(w.target, deleted0, retired0)
      invariant moved == Moved(cps[..i], deleted)
      invariant w.nodeMap.Keys <= live
    {
      var c := cps[i];
      CheckpointFacts(w.source, i);
      MovedStep(cps, i, deleted);
      UsedStep(cps, i, deleted);
      ghost var t0, versions0 := w.target, w.versionMap;
      if c.Name() in deleted {
        SkipStep(w.source, t0, versions0, deleted, i);
        VersionsUsedStep(w.source, versions0.Keys, versions0.Keys, deleted, i);
        continue;
      }
      if c.parent.Some? && Key(c.thread, c.parent.value) in deleted { return Err(Format); }
      CountSoFar(w.source, t0, versions0, deleted, i);
      KeptIsLive(w.source, deleted, i);
      var copied := CompactChannels(w, c, |w.target.checkpoints|, live);
      if copied.Err? { return Err(Format); }
      ghost var grown := w.target;
      var d := copied.value;
      SameFields(c, d, |t0.checkpoints|, w.versionMap);
      MappedChannels(w.source, grown, w.nodeMap, w.versionMap, w.versionOrigin, c, d, |t0.checkpoints|);
      KeepStep(w.source, t0, grown, versions0, w.versionMap, deleted, i, d);
      if d.Name() in w.target.checkpointOrdinals { assert false; }
      Publish(w, d);
      VersionsUsedStep(w.source, versions0.Keys, w.versionMap.Keys, deleted, i);
      moved := moved[i := d.ordinal];
    }
    assert cps[..|cps|] == cps;
    return Ok(moved);
  }

  lemma NoneUsed(cps: seq<Checkpoint>, deleted: set<Key>)
    ensures UsedInOrder(cps[..0], deleted) == []
  {
  }

  lemma CountFits(s: StoreState)
    requires Inv(s)
    ensures |s.checkpoints| <= U32_MAX
  {
  }

  lemma NothingLive(s: StoreState, t: StoreState, deleted: set<Key>)
    requires |s.checkpoints| <= U32_MAX && t == EMPTY_STATE.(deleted := t.deleted, retired := t.retired)
    ensures LiveSoFar(s, t, map[], deleted, 0) && VersionsUsed(s, {}, deleted, 0)
    ensures Moved(s.checkpoints[..0], deleted) == map[]
  {
  }

  lemma CountSoFar(s: StoreState, t: StoreState, versions: map<nat, nat>, deleted: set<Key>, i: nat)
    requires i < |s.checkpoints| <= U32_MAX && LiveSoFar(s, t, versions, deleted, i)
    ensures |t.checkpoints| == |Retained(s.checkpoints[..i], deleted)| <= i
  {
  }

  lemma SameFields(c: Checkpoint, d: Checkpoint, j: nat, versions: map<nat, nat>)
    requires CheckpointMirrored(c, d, j, versions)
    ensures d.Name() == c.Name() && d.thread == c.thread && d.parent == c.parent && d.ordinal == j
  {
  }

  lemma {:induction false} MovedBelow(cps: seq<Checkpoint>, deleted: set<Key>)
    requires |cps| <= U32_MAX
    ensures forall k :: k in Moved(cps, deleted) ==> k < |cps| && Moved(cps, deleted)[k] < |Retained(cps, deleted)|
  {
    if cps != [] { MovedBelow(cps[..|cps| - 1], deleted); }
  }

  lemma VersionsMirroredOk(s: StoreState, t: StoreState, m: map<nat, nat>, origin: seq<nat>, versions: map<nat, nat>,
                           from: seq<nat>)
    requires Inv(s) && Mirror(ViewOf(s), ViewOf(t), m, origin) && VersionsMirrored(s, t, m, versions, from)
    ensures VersionsOk(t)
  {
    hide Inv, NodeMirrored;
    ParentsBelong(s);
    VersionsSmaller(s, t, m, versions, from);
    forall i | 0 <= i < |t.versions| && t.versions[i].Some?
      ensures t.versions[i].value < |t.nodes|
    {
      assert VersionMirrored(s, t, m, versions, from, from[i]);
    }
    forall i | 0 <= i < |t.parents| && t.parents[i].Some?
      ensures t.parents[i].value < i
    {
      assert LinkMirrored(s, t, from, i);
    }
  }

  lemma LiveRequestsOk(s: StoreState, t: StoreState, deleted: set<Key>)
    requires RequestsOk(s) && |s.checkpoints| <= U32_MAX && |t.checkpoints| == |Retained(s.checkpoints, deleted)|
    requires t.requests == ActiveAfter(s.requests, Moved(s.checkpoints, deleted))
    ensures RequestsOk(t)
  {
    hide Moved;
    MovedBelow(s.checkpoints, deleted);
  }

  lemma CheckpointsOkAnyLedger(w: StoreState, t: StoreState)
    requires t == w.(requests := t.requests, retired := t.retired) && CheckpointsOk(w)
    ensures CheckpointsOk(t)
  {
    hide IdentifierOk;
    forall j | 0 <= j < |t.checkpoints|
      ensures CheckpointOk(t, j)
    {
      assert CheckpointOk(w, j);
    }
  }

  lemma LiveNotDeleted(s: StoreState, t: StoreState, deleted: set<Key>, i: nat)
    requires Inv(s) && NamesKept(s, t, deleted, i) && t.deleted == s.deleted + deleted
    ensures forall k :: k in t.deleted ==> k !in t.checkpointOrdinals
  {
    hide WellFormed, VersionsOk, CheckpointOk, ThreadsIndexed, CheckpointsIndexed, RequestsOk;
  }

  lemma LiveInv(s: StoreState, w: StoreState, t: StoreState, m: map<nat, nat>, origin: seq<nat>, versions: map<nat,
                nat>,
                from: seq<nat>, deleted: set<Key>)
    requires Inv(s)
    requires Untouched(w, s.deleted + deleted, s.retired) && |w.arena| <= U64_MAX && |w.wides| <= |w.nodes|
    requires Mirror(ViewOf(s), ViewOf(w), m, origin) && VersionsMirrored(s, w, m, versions, from)
    requires |s.checkpoints| <= U32_MAX && LiveSoFar(s, w, versions, deleted, |s.checkpoints|)
    requires t == w.(requests := t.requests, retired := t.retired)
    requires t.requests == ActiveAfter(s.requests, Moved(s.checkpoints, deleted))
    ensures Inv(t)
  {
    hide CheckpointsMirrored, AllPlaced, VersionsMirrored, Mirror, Moved, IdentifierOk, Threads, CheckpointOk,
      RequestsOk, VersionsOk, ThreadsIndexed, CheckpointsIndexed, NamesKept, WellFormed, ViewOf, ActiveAfter;
    SourceFormed(s);
    SameView(w, t);
    MirrorWellFormed(ViewOf(s), ViewOf(w), m, origin);
    NodesCounted(s, w, m, origin);
    VersionsMirroredOk(s, w, m, origin, versions, from);
    SamePartVersions(w, t);
    SamePartNames(w, t);
    assert s.checkpoints[..|s.checkpoints|] == s.checkpoints;
    RetainedLength(Retained(s.checkpoints, deleted), w.checkpoints, versions);
    LiveRequestsOk(s, t, deleted);
    CheckpointsOkAnyLedger(w, t);
    LiveNotDeleted(s, w, deleted, |s.checkpoints|);
  }

  lemma NodesCounted(s: StoreState, w: StoreState, m: map<nat, nat>, origin: seq<nat>)
    requires Mirror(ViewOf(s), ViewOf(w), m, origin)
    ensures |w.nodes| <= |s.nodes|
  {
    MirrorSmaller(ViewOf(s), ViewOf(w), m, origin);
  }

  /** Copied nodes are exactly the live ones. */
  lemma CopiedIsLive(s: StoreState, w: StoreState, m: map<nat, nat>, origin: seq<nat>, versions: map<nat, nat>,
                     from: seq<nat>, deleted: set<Key>)
    requires Inv(s) && |s.checkpoints| <= U32_MAX
    requires Mirror(ViewOf(s), ViewOf(w), m, origin) && VersionsMirrored(s, w, m, versions, from)
    requires NodesNeeded(s, m, versions.Keys) && VersionsUsed(s, versions.Keys, deleted, |s.checkpoints|)
    requires forall k, v :: UsedAt(s, deleted, |s.checkpoints|, v, k) ==> v in versions
    ensures forall id :: id in m <==> Live(s, deleted, id)
  {
    hide Inv, Mirror, ViewOf, UsedAt, VersionsMirrored, NeededFor;
    var n := |s.checkpoints|;
    forall id: nat | id in m
      ensures Live(s, deleted, id)
    {
      var v :| v in versions.Keys && NeededFor(s, v, id);
      var k :| UsedAt(s, deleted, n, v, k);
    }
    forall id: nat | Live(s, deleted, id)
      ensures id in m
    {
      var v, k :| UsedAt(s, deleted, n, v, k) && NeededFor(s, v, id);
      NeededIsCopied(s, w, m, origin, versions, from, v, id);
    }
  }

  lemma NeededIsCopied(s: StoreState, w: StoreState, m: map<nat, nat>, origin: seq<nat>, versions: map<nat, nat>,
                       from: seq<nat>, v: nat, id: nat)
    requires Inv(s) && Mirror(ViewOf(s), ViewOf(w), m, origin) && VersionsMirrored(s, w, m, versions, from)
    requires v in versions && NeededFor(s, v, id)
    ensures id in m
  {
    hide Inv, Mirror, ViewOf;
    SourceFormed(s);
    assert VersionMirrored(s, w, m, versions, from, v);
    MirrorReaches(ViewOf(s), ViewOf(w), m, origin, s.versions[v].value);
  }

  lemma {:induction false} RetainedHolds(cps: seq<Checkpoint>, deleted: set<Key>, k: nat) returns (j: nat)
    requires k < |cps| && Kept(cps[k], deleted)
    ensures j < |Retained(cps, deleted)| && Retained(cps, deleted)[j] == cps[k]
  {
    if k == |cps| - 1 {
      j := |Retained(cps[..k], deleted)|;
    } else {
      j := RetainedHolds(cps[..|cps| - 1], deleted, k);
    }
  }

  /** Every channel of a kept checkpoint has been copied. */
  lemma UsedIsMapped(s: StoreState, w: StoreState, versions: map<nat, nat>, deleted: set<Key>)
    requires |s.checkpoints| <= U32_MAX && LiveSoFar(s, w, versions, deleted, |s.checkpoints|)
    ensures forall k, v :: UsedAt(s, deleted, |s.checkpoints|, v, k) ==> v in versions
  {
    assert s.checkpoints[..|s.checkpoints|] == s.checkpoints;
    forall k: nat, v: nat | UsedAt(s, deleted, |s.checkpoints|, v, k)
      ensures v in versions
    {
      var j := RetainedHolds(s.checkpoints, deleted, k);
      assert CheckpointMirrored(s.checkpoints[k], w.checkpoints[j], j, versions);
    }
  }

  lemma AllKept(s: StoreState, w: StoreState, t: StoreState, m: map<nat, nat>, origin: seq<nat>, versions: map<nat,
                nat>,
                from: seq<nat>, deleted: set<Key>)
    requires Inv(s) && |s.checkpoints| <= U32_MAX && LiveSoFar(s, w, versions, deleted, |s.checkpoints|)
    requires Mirror(ViewOf(s), ViewOf(w), m, origin) && VersionsMirrored(s, w, m, versions, from)
    requires t == w.(requests := t.requests, retired := t.retired)
    ensures RetainedIntact(s, deleted, t)
  {
    hide Inv, Mirror, ViewOf, VersionsMirrored, SameCheckpoint, CheckpointMirrored, CheckpointsOk, AllPlaced,
      NamesKept, ThreadsIndexed, CheckpointsIndexed;
    SameView(w, t);
    SameVersions(s, w, t, m, versions, from);
    assert s.checkpoints[..|s.checkpoints|] == s.checkpoints;
    var kept := Retained(s.checkpoints, deleted);
    forall j | 0 <= j < |kept|
      ensures SameCheckpoint(s, t, kept[j], t.checkpoints[j], j)
    {
      SameBytes(s, t, m, origin, versions, from, kept[j], t.checkpoints[j], j);
    }
  }

  /** The copies are as long as the live leaves together. */
  lemma CopiesTogether(s: StoreState, w: StoreState, m: map<nat, nat>, origin: seq<nat>, deleted: set<Key>)
    requires Mirror(ViewOf(s), ViewOf(w), m, origin) && |w.arena| == BytesOf(ViewOf(s), m.Keys, |s.nodes|)
    requires forall id :: id in m <==> Live(s, deleted, id)
    ensures |w.arena| == LiveBytes(s, deleted)
  {
    hide ViewOf, BytesOf, Live;
    forall id | id in m
      ensures id < |s.nodes|
    {
      assert NodeMirrored(ViewOf(s), ViewOf(w), m, origin, m[id]);
    }
    assert m.Keys == LiveNodes(s, deleted);
  }

  lemma AllVersionsCopied(s: StoreState, w: StoreState, t: StoreState, m: map<nat, nat>, origin: seq<nat>,
                          versions: map<nat, nat>, from: seq<nat>, deleted: set<Key>)
    requires Inv(s) && |s.checkpoints| <= U32_MAX && LiveSoFar(s, w, versions, deleted, |s.checkpoints|)
    requires Mirror(ViewOf(s), ViewOf(w), m, origin) && VersionsMirrored(s, w, m, versions, from)
    requires from == UsedInOrder(s.checkpoints, deleted)
    requires t == w.(requests := t.requests, retired := t.retired)
    ensures VersionsCopied(s, deleted, t)
  {
    hide Inv, Mirror, ViewOf, LiveSoFar, ExtractVersion, CheckpointMirrored, LinkMirrored, UsedInOrder;
    SameView(w, t);
    ParentsBelong(s);
    forall j | 0 <= j < |from|
      ensures VersionCopied(s, t, from, j)
    {
      assert VersionMirrored(s, w, m, versions, from, from[j]);
      SameExtract(s, w, m, origin, versions, from, from[j]);
      LinkStays(s, w, t, from, j);
    }
    MirroredSoFar(s, w, versions, deleted);
    var kept := Retained(s.checkpoints, deleted);
    forall j | 0 <= j < |kept|
      ensures NamesCopies(kept[j], t.checkpoints[j], from)
    {
      NamesMoved(s, w, m, versions, from, kept[j], w.checkpoints[j], j);
    }
  }

  lemma LinkStays(s: StoreState, w: StoreState, t: StoreState, from: seq<nat>, j: nat)
    requires j < |from| == |w.parents| && from[j] < |s.parents| && LinkMirrored(s, w, from, j) && t.parents == w.parents
    ensures LinkMirrored(s, t, from, j)
  {
  }

  lemma MirroredSoFar(s: StoreState, w: StoreState, versions: map<nat, nat>, deleted: set<Key>)
    requires |s.checkpoints| <= U32_MAX && LiveSoFar(s, w, versions, deleted, |s.checkpoints|)
    ensures CheckpointsMirrored(Retained(s.checkpoints, deleted), w.checkpoints, versions)
  {
    assert s.checkpoints[..|s.checkpoints|] == s.checkpoints;
  }

  lemma NamesMoved(s: StoreState, t: StoreState, m: map<nat, nat>, versions: map<nat, nat>, from: seq<nat>,
                   c: Checkpoint, d: Checkpoint, j: nat)
    requires VersionsMirrored(s, t, m, versions, from) && CheckpointMirrored(c, d, j, versions)
    ensures NamesCopies(c, d, from)
  {
    hide VersionsMirrored;
    MappedIsListed(s, t, m, versions, from, c.identityVersion);
    if c.messagesVersion.Some? { MappedIsListed(s, t, m, versions, from, c.messagesVersion.value); }
    if c.resultVersion.Some? { MappedIsListed(s, t, m, versions, from, c.resultVersion.value); }
  }

  lemma AllSoFar(s: StoreState, deleted: set<Key>)
    ensures PrunableSoFar(s, deleted, |s.checkpoints|) <==> OrphansNone(s, deleted) && KeptCopyable(s, deleted)
  {
    hide ChannelsCopyable;
  }

  /** Pruning by compaction: what stays is renumbered without a byte changing,
      exactly the nodes and versions it needs are copied, each once, and every
      deleted name and every request key is remembered. It happens exactly when the set can
      be pruned. */
  method CompactLiveState(s: StoreState, deleted: set<Key>)
    returns (r: Result<StoreState>)
    requires Inv(s)
    ensures |s.checkpoints| <= U32_MAX
    ensures r.Ok? <==> Prunable(s, deleted)
    ensures r.Ok? ==> Rewritten(s, deleted, r.value)
    ensures r == Err(RequestIdConflict) <==>
      Separable(s, deleted) && !RetiresCleanly(s.requests, Moved(s.checkpoints, deleted), s.retired)
    ensures r.Err? ==> r == Err(Format) || r == Err(RequestIdConflict)
  {
    hide Inv, Mirror, VersionsMirrored, NodesNeeded, ViewOf, ChannelsCopyable, LiveSoFar, Moved, VersionsUsed, Live,
      RetiresCleanly, RetainedIntact, ActiveAfter, RetiredAfter, NewNodesValid, LiveBytes, PrunableSoFar, KeptCopyable,
      OrphansNone, VersionsCopied, Packed, VisitedFor;
    CountFits(s);
    AllSoFar(s, deleted);
    if !(deleted !! s.deleted) { return Err(Format); }
    var w := new Compactor(s, s.deleted + deleted, s.retired);
    var moved := CompactCheckpoints(w, deleted);
    if moved.Err? { return Err(Format); }
    UsedIsMapped(s, w.target, w.versionMap, deleted);
    CopiedIsLive(s, w.target, w.nodeMap, w.origin, w.versionMap, w.versionOrigin, deleted);
    CopiesTogether(s, w.target, w.nodeMap, w.origin, deleted);
    KeysMatch(s);
    var ledger := MoveRequests(s.requests, moved.value, s.retired);
    if ledger.Err? { return Err(ledger.error); }
    var t := w.target.(requests := ledger.value.0, retired := ledger.value.1);
    LiveInv(s, w.target, t, w.nodeMap, w.origin, w.versionMap, w.versionOrigin, deleted);
    AllKept(s, w.target, t, w.nodeMap, w.origin, w.versionMap, w.versionOrigin, deleted);
    AllVersionsCopied(s, w.target, t, w.nodeMap, w.origin, w.versionMap, w.versionOrigin, deleted);
    SameView(w.target, t);
    assert CopiesLive(s, deleted, t, w.nodeMap, w.origin);
    WholeStateValid(t);
    CountsFit(t);
    var valid := ValidateNewNodes(EMPTY_STATE, AsOneTransaction(t));
    if valid.Err? { return Err(Format); }
    return Ok(t);
  }

  lemma KeysMatch(s: StoreState)
    requires Inv(s)
    ensures forall k :: k in s.requests ==> s.requests[k].key == k
  {
  }

  lemma CountsFit(s: StoreState)
    requires Inv(s)
    ensures |s.versions| <= U32_MAX && |s.checkpoints| <= U32_MAX
  {
  }
}
