/** Appending under a bound on the hot log: a full log is sealed first. */
module BoundedWal {
  import opened Wrappers
  import opened Bytes
  import opened Model
  import opened Ranges
  import opened TransactionFormat
  import opened Transactions
  import opened Appends
  import opened HotLog
  import HotWal
  import opened Writer
  import opened Deletion
  import opened Manifests
  import opened Recovery
  import opened SealProtocol
  import opened Oversize

  datatype Policy = Policy(soft: nat, hard: nat)
  {
    predicate Sane() { 0 < soft <= hard }
  }

  /** What the disk may hold after an append attempt: the committed log is
      untouched, success adds exactly the record, and whatever follows is no
      transaction. */
  ghost predicate AppendOutcome(wal: seq<byte>, tail: nat, record: seq<byte>, written: bool, after: seq<byte>,
                                rest: seq<byte>)
  {
    && tail <= |wal| && Dead(rest)
    && after == wal[..tail] + (if written then record else []) + rest
  }

  lemma AlikeAdmit(s: StoreState, t: StoreState, record: seq<byte>)
    requires Alike(s, t)
    ensures Admit(s, record) == Admit(t, record)
  {
    hide ParseTransaction, Prepare, Alike;
    AlikeMeansTheSame(s, t);
    AlikeWatermarks(s, t);
    if ParseTransaction(record, Some(s.Watermarks())).Ok? {
      AlikePrepare(s, t, ParseTransaction(record, Some(s.Watermarks())).value);
    }
  }

  lemma AlikeWatermarks(s: StoreState, t: StoreState)
    requires Alike(s, t)
    ensures s.Watermarks() == t.Watermarks()
  {
    AlikeFields(s, t);
  }

  /** One more admitted record: memory is what the longer log replays to. */
  lemma AppendReplays(base: StoreState, records: seq<seq<byte>>, state: StoreState, record: seq<byte>)
    requires Inv(base) && Chain(base.Watermarks(), records)
    requires Replay(base, Parsed(base.Watermarks(), records)).Ok?
    requires Alike(Replay(base, Parsed(base.Watermarks(), records)).value, state) && Admit(state, record).Ok?
    ensures |Concat(records + [record])| == |Concat(records)| + |record|
    ensures Concat(records + [record]) == Concat(records) + record
    ensures Chain(base.Watermarks(), records + [record])
    ensures Replay(base, Parsed(base.Watermarks(), records + [record])).Ok?
    ensures Alike(Replay(base, Parsed(base.Watermarks(), records + [record])).value,
                  Apply(state, Admit(state, record).value))
  {
    hide Alike, Replay, Parsed, Chain, Admit, Concat, Apply, Inv;
    var c := Replay(base, Parsed(base.Watermarks(), records)).value;
    AlikeAdmit(c, state, record);
    ReplayGrows(base, records, c, record);
    AlikeApply(c, state, Admit(state, record).value);
  }

  /** One more durable record: the directory is consistent with it. */
  lemma AppendConsistent(d: Image, base: StoreState, records: seq<seq<byte>>, tail: seq<byte>, record: seq<byte>,
                         wal: seq<byte>, rest: seq<byte>)
    requires Concat(records + [record]) == Concat(records) + record && Chain(base.Watermarks(), records + [record])
    requires Replay(base, Parsed(base.Watermarks(), records + [record])).Ok?
    requires AppendOutcome(d.wal, |Concat(records)|, record, true, wal, rest)
    requires Consistent(d, base, records, tail)
    ensures Consistent(d.(wal := wal), base, records + [record], rest)
  {
    hide Holds, Replay, Parsed, Chain, Dead, Concat, Inv, Current;
    CurrentParts(d.wal, base.Watermarks(), records, tail);
    assert d.wal[..|Concat(records)|] == Concat(records);
    CurrentIs(wal, base.Watermarks(), records + [record], rest);
  }

  lemma CurrentIs(wal: seq<byte>, g: Geometry, records: seq<seq<byte>>, tail: seq<byte>)
    requires wal == Concat(records) + tail && Chain(g, records) && Dead(tail)
    ensures Current(wal, g, records, tail)
  {
  }

  lemma FailedConsistent(d: Image, base: StoreState, records: seq<seq<byte>>, tail: seq<byte>, record: seq<byte>,
                         wal: seq<byte>, rest: seq<byte>)
    requires Consistent(d, base, records, tail)
    requires AppendOutcome(d.wal, |Concat(records)|, record, false, wal, rest)
    ensures Consistent(d.(wal := wal), base, records, rest)
  {
    hide Holds, Replay, Parsed, Chain, Dead, Concat, Current;
    CurrentParts(d.wal, base.Watermarks(), records, tail);
    assert d.wal[..|Concat(records)|] == Concat(records);
    assert wal == Concat(records) + rest;
    CurrentIs(wal, base.Watermarks(), records, rest);
  }

  /** Prepare, write the log, then publish in memory. */
  method AppendParsed(store: Store, record: seq<byte>, written: bool, after: seq<byte>, ghost rest: seq<byte>)
    returns (r: Result<()>)
    requires store.Valid() && store.usable
    requires AppendOutcome(store.wal, store.hotTail, record, written, after, rest)
    requires Receive(store.state, record).Ok?
    modifies store
    ensures store.Valid()
    ensures r.Ok? <==> Admit(old(store.state), record).Ok? && written
    // Refused before anything is written.
    ensures Admit(old(store.state), record).Err? ==>
      r == Err(Admit(old(store.state), record).error) && unchanged(store)
    ensures r.Ok? ==>
      && store.state == Apply(old(store.state), Admit(old(store.state), record).value)
      && store.hotTail == old(store.hotTail) + |record|
    ensures r.Err? ==> store.state == old(store.state) && store.hotTail == old(store.hotTail)
    ensures r.Err? && Admit(old(store.state), record).Ok? ==> r == Err(Io) && !store.usable
    ensures store.manifest == old(store.manifest) && store.files == old(store.files)
  {
    hide *;
    store.Unpack();
    ReplayOf(store.base, store.records, store.state);
    var admitted := Admit(store.state, record);
    if admitted.Err? { return Err(admitted.error); }
    var tx := admitted.value;
    ghost var d := store.Disk();
    store.wal := after;
    if written {
      AppendReplays(store.base, store.records, store.state, record);
      AppendConsistent(d, store.base, store.records, store.tail, record, after, rest);
      store.records, store.tail := store.records + [record], rest;
      store.hotTail, store.state := store.hotTail + |record|, Apply(store.state, tx);
      store.Repack();
      return Ok(());
    }
    FailedConsistent(d, store.base, store.records, store.tail, record, after, rest);
    store.tail, store.usable := rest, false;
    store.Repack();
    return Err(Io);
  }

  /** A log that is not empty has something to seal, and sealing everything is a
      target the seal accepts. */
  lemma AutomaticTarget(store: Store)
    requires store.Valid() && store.hotTail > 0
    ensures store.manifest.checkpointCount < |store.state.checkpoints|
  {
    hide *;
    store.Unpack();
    ReplayOf(store.base, store.records, store.state);
    NothingConcat(store.records);
  }

  lemma NothingConcat(records: seq<seq<byte>>)
    ensures records == [] ==> |Concat(records)| == 0
  {
  }

  /** The environment of the append that follows a seal or none: an outcome for
      whatever log is then in place. */
  datatype Environment = Environment(written: bool, rest: seq<byte>)

  /** Appending within the limits. The log never exceeds the hard limit; a record
      beyond it changes nothing; when the log is not empty and the record would
      take it over the soft limit, everything is sealed first, and the
      transaction parsed before the seal is the one appended after it. Whether
      the record is valid is asked only then: one that parses but is refused has
      sealed all the same. It succeeds exactly when the record is admitted within
      the limits, the seal it needs has room and is not stopped, and the record
      is written. Every version can still be measured exactly when it could
      before and those of the record can. */
  method AppendBounded(store: Store, record: seq<byte>, policy: Policy, stop: nat, env: Environment)
    returns (r: Result<bool>)
    requires store.Valid() && Dead(env.rest)
    modifies store
    ensures 0 < policy.soft <= policy.hard && old(store.hotTail) <= policy.hard ==> store.hotTail <= policy.hard
    ensures
      var crossing := old(store.hotTail) > 0 && old(store.hotTail) + |record| > policy.soft;
      var begun := old(store.usable) && 0 < policy.soft <= policy.hard && |record| <= policy.hard
                   && Receive(old(store.state), record).Ok?;
      var sealed := crossing && !(1 <= stop <= 4)
                    && RoomToSeal(old(store.manifest), old(store.base), old(store.records),
                                  |old(store.state.checkpoints)| - old(store.manifest.checkpointCount),
                                  store.blockSize);
      && (r.Ok? <==> begun && (crossing ==> sealed) && Admit(old(store.state), record).Ok? && env.written)
      && (r.Ok? ==> r.value == crossing)
      && (!begun ==> unchanged(store))
      && (old(store.usable) && !begun ==>
            var within := 0 < policy.soft <= policy.hard && |record| <= policy.hard;
            r == Err(if within then Receive(old(store.state), record).error else Format))
      // Refused by validation: sealed if it was to be, and otherwise unchanged.
      && (begun && (crossing ==> sealed) && Admit(old(store.state), record).Err? ==>
            && r == Err(Admit(old(store.state), record).error) && store.Valid() && store.usable
            && (if crossing then store.hotTail == 0 && store.manifest.checkpointCount == |store.state.checkpoints|
                else unchanged(store)))
    ensures !old(store.usable) ==> r == Err(RecoveryRequired)
    ensures r.Ok? ==>
      && store.Valid() && Admit(old(store.state), record).Ok?
      && store.state == Apply(old(store.state), Admit(old(store.state), record).value)
      && (if r.value then store.hotTail == |record| && store.manifest.checkpointCount == |old(store.state.checkpoints)|
          else store.hotTail == old(store.hotTail) + |record| && store.manifest == old(store.manifest))
    ensures r.Ok? ==>
      (RootsFit(store.state) <==>
         RootsFit(old(store.state)) && NewRootsFit(old(store.state), Admit(old(store.state), record).value))
    ensures r.Err? ==> store.state == old(store.state)
    ensures Stands(store.Disk(), store.state)
    ensures Loadable(store.manifest, store.files) <==>
      && Loadable(old(store.manifest), old(store.files))
      && (store.manifest == old(store.manifest)
          || ReadsBack(old(store.base),
                       SelectedNames(old(store.base), old(store.records),
                                     |old(store.state.checkpoints)| - old(store.manifest.checkpointCount))))
  {
    hide Store.Valid, Receive, Admit, Apply, Store.Disk, Stands, Dead, RoomToSeal, Loadable, ReadsBack, SelectedNames,
      RootsFit, NewRootsFit, HotWal.Reserves, Extended, OnlyNew, RouteUntouched, Store.IsSuffix;
    store.StandsNow();
    if !store.usable { return Err(RecoveryRequired); }
    if !policy.Sane() { return Err(Format); }
    if |record| > policy.hard { return Err(Format); }
    var received := Receive(store.state, record);
    AdmitReceives(store.state, record);
    if received.Err? { return Err(received.error); }
    StateInv(store);
    AdmittedFits(store.state, record);
    var crossing := store.hotTail > 0 && store.hotTail + |record| > policy.soft;
    if crossing {
      AutomaticTarget(store);
      var sealed := store.SealThrough(|store.state.checkpoints|, stop);
      if sealed.Err? { return Err(sealed.error); }
      EmptyLog(store);
    }
    TailInside(store);
    var after := store.wal[..store.hotTail] + (if env.written then record else []) + env.rest;
    var appended := AppendParsed(store, record, env.written, after, env.rest);
    store.StandsNow();
    if appended.Err? { return Err(appended.error); }
    return Ok(crossing);
  }

  lemma AdmitReceives(s: StoreState, record: seq<byte>)
    ensures Admit(s, record).Ok? ==> Receive(s, record).Ok?
  {
    hide Receive, Prepare;
  }

  lemma AdmittedFits(s: StoreState, record: seq<byte>)
    requires Inv(s)
    ensures Admit(s, record).Ok? ==>
      var tx := Admit(s, record).value;
      (RootsFit(Apply(s, tx)) <==> RootsFit(s) && NewRootsFit(s, tx))
  {
    hide Inv, Apply, ParseTransaction, Prepare, RootsFit, NewRootsFit, Sound;
    if Admit(s, record).Ok? {
      ParsedIsSound(record, Some(s.Watermarks()));
      CommitKeepsFit(s, Admit(s, record).value);
    }
  }

  lemma EmptyLog(store: Store)
    requires store.Valid() && store.manifest.checkpointCount == |store.state.checkpoints|
    ensures store.hotTail == 0
  {
    hide *;
    store.Unpack();
    ReplayOf(store.base, store.records, store.state);
    NothingConcat(store.records);
  }

  lemma TailInside(store: Store)
    requires store.Valid()
    ensures store.hotTail <= |store.wal|
  {
    hide *;
    store.Unpack();
    ReplayOf(store.base, store.records, store.state);
  }
}
