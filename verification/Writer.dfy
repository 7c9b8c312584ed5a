/** The open writer: what is in memory is what replaying the durable log gives. */
module Writer {
  import opened Wrappers
  import opened Bytes
  import opened Model
  import opened TransactionFormat
  import opened Transactions
  import opened Appends
  import opened HotLog
  import opened HotWal

  /** The hot log: a file, its committed logical tail, and its commit state. */
  class Log {
    var file: WalFile
    const committer: Committer
    var logicalTail: nat
    const segment: nat

    /** The committed prefix is durable, and a usable handle stands at its end. */
    ghost predicate Valid()
      reads this, file, committer
    {
      && segment > 0
      && logicalTail <= |file.content| && logicalTail <= |file.durable|
      && file.durable[..logicalTail] == file.content[..logicalTail]
      && (!committer.recoveryRequired ==> file.cursor == logicalTail)
    }

    ghost function Committed(): seq<byte>
      requires Valid()
      reads this, file, committer
    {
      file.content[..logicalTail]
    }

    constructor (content: seq<byte>, tail: nat, segmentBytes: nat, answers: Script)
      requires tail <= |content| && segmentBytes > 0
      ensures Valid() && fresh(file) && fresh(committer)
      ensures Committed() == content[..tail] && !committer.recoveryRequired
    {
      file := new WalFile(content, tail, answers);
      committer := new Committer();
      logicalTail, segment := tail, segmentBytes;
    }

    /** The calls made before a record of this length is committed: none, or the
        extension of the file and the seek back. */
    function Ahead(length: nat): nat
      reads this, file
    {
      if logicalTail + length > |file.content| then 2 else 0
    }

    /** No call refuses before the record is committed. */
    predicate Ready(length: nat)
      reads this, file
    {
      forall i :: file.calls <= i < file.calls + Ahead(length) ==> !At(file.script, i).Refuses?
    }

    /** The next append of a record of this length is made durable. */
    predicate Lands(length: nat)
      reads this, file, committer
    {
      !committer.recoveryRequired && Ready(length) && Commits(file.script, file.calls + Ahead(length), length)
    }

    /** The first write of the record fails, or takes nothing. */
    predicate Bounces(length: nat)
      reads this, file, committer
    {
      !committer.recoveryRequired && Ready(length) && Stalls(At(file.script, file.calls + Ahead(length)))
    }

    method Append(record: seq<byte>) returns (r: Result<()>)
      requires Valid()
      modifies this`logicalTail, file, committer
      ensures Valid()
      ensures r.Ok? <==> old(Lands(|record|))
      ensures r.Ok? ==> Committed() == old(Committed()) + record
      ensures r.Err? ==> Committed() == old(Committed())
      ensures old(committer.recoveryRequired) ==> r == Err(RecoveryRequired) && unchanged(file)
      // A failure is definite exactly when nothing of the record was written.
      ensures record != [] ==> (r == Err(Io) <==> old(Bounces(|record|)))
      ensures committer.recoveryRequired <==> r.Err? && r != Err(Io)
      // The file grows only when it must, and then to the reserve of its tail.
      ensures old(logicalTail) + |record| <= old(|file.content|) ==> |file.content| == old(|file.content|)
      ensures r.Ok? && old(logicalTail) + |record| > old(|file.content|) ==>
        Reserves(|file.content|, logicalTail, segment)
    {
      hide Commits, Torn, Overwrite, Doubled, Segments;
      if committer.recoveryRequired { return Err(RecoveryRequired); }
      ghost var before, start := Committed(), file.calls;
      var required := logicalTail + |record|;
      if required > |file.content| {
        var capacity := RoundCapacity(required, segment);
        ghost var content0, durable0 := file.content, file.durable;
        var ready := file.Preinitialize(capacity);
        assert file.content[..logicalTail] == content0[..logicalTail];
        TornKeeps(durable0, content0, file.content, file.durable, logicalTail);
        if !ready {
          assert At(file.script, start).Refuses?;
          committer.recoveryRequired := true;
          return Err(RecoveryRequired);
        }
        var sought := file.Seek(logicalTail);
        if !sought {
          assert At(file.script, start + 1).Refuses?;
          committer.recoveryRequired := true;
          return Err(RecoveryRequired);
        }
      }
      assert old(Ready(|record|)) && file.calls == start + old(Ahead(|record|));
      ghost var content1, durable1 := file.content, file.durable;
      ghost var reached;
      r, reached := committer.Commit(file, record);
      OverwriteKeeps(content1, logicalTail, record[..reached]);
      TornKeeps(durable1, content1, file.content, file.durable, logicalTail);
      if r.Err? { return; }
      OverwriteKeeps(content1, logicalTail, record);
      assert file.content[..required] == before + record;
      logicalTail := required;
    }
  }

  lemma OverwriteKeeps(file: seq<byte>, at: nat, bytes: seq<byte>)
    requires at + |bytes| <= |file|
    ensures Overwrite(file, at, bytes)[..at] == file[..at]
    ensures Overwrite(file, at, bytes)[..at + |bytes|] == file[..at] + bytes
  {
  }

  lemma {:induction false} ReplayWatermarks(s: StoreState, records: seq<seq<byte>>)
    requires Chain(s.Watermarks(), records) && Inv(s)
    requires Replay(s, Parsed(s.Watermarks(), records)).Ok?
    ensures Replay(s, Parsed(s.Watermarks(), records)).value.Watermarks() == EndOf(s.Watermarks(), records)
    ensures Inv(Replay(s, Parsed(s.Watermarks(), records)).value)
    decreases |records|
  {
    hide ParseTransaction, Inv, Prepare, Sound;
    if records != [] {
      var tx := ParseTransaction(records[0], Some(s.Watermarks())).value;
      ParsedIsSound(records[0], Some(s.Watermarks()));
      ApplyKeepsInv(s, tx);
      ReplayWatermarks(Apply(s, tx), records[1..]);
    }
  }

  /** Admitting one more record extends the replayed log by it. */
  lemma ReplayGrows(base: StoreState, records: seq<seq<byte>>, state: StoreState, record: seq<byte>)
    requires Inv(base) && Chain(base.Watermarks(), records)
    requires Replay(base, Parsed(base.Watermarks(), records)) == Ok(state)
    requires Admit(state, record).Ok?
    ensures Chain(base.Watermarks(), records + [record])
    ensures Replay(base, Parsed(base.Watermarks(), records + [record])) == Ok(Apply(state, Admit(state, record).value))
    ensures Concat(records + [record]) == Concat(records) + record
  {
    hide ParseTransaction, Inv, Prepare, Sound, Apply;
    var g := base.Watermarks();
    ReplayWatermarks(base, records);
    var tx := Admit(state, record).value;
    assert Chain(tx.After(), [record][1..]);
    ChainSplits(g, records, [record]);
    assert Parsed(EndOf(g, records), [record]) == [tx];
    ReplayConcat(base, Parsed(g, records), [tx]);
    assert Replay(state, [tx]) == Replay(Apply(state, tx), [tx][1..]);
    assert record + [] == record;
  }

  /** One writer over a sealed base. */
  class StoreWriter {
    const log: Log
    var state: StoreState
    ghost const base: StoreState
    ghost var records: seq<seq<byte>>

    /** Durable before visible: the durable log is the acknowledged records, and
        memory is their replay over the base. */
    ghost predicate Valid()
      reads this, log, log.file, log.committer
    {
      && log.Valid() && Inv(base)
      && Chain(base.Watermarks(), records)
      && Replay(base, Parsed(base.Watermarks(), records)) == Ok(state)
      && log.Committed() == Concat(records)
    }

    constructor (sealedBase: StoreState, segmentBytes: nat, answers: Script)
      requires Inv(sealedBase) && segmentBytes > 0
      ensures Valid() && base == state == sealedBase && records == []
      ensures fresh(log) && fresh(log.file) && fresh(log.committer)
      ensures !log.committer.recoveryRequired
    {
      log := new Log([], 0, segmentBytes, answers);
      base, state, records := sealedBase, sealedBase, [];
    }

    /** A record is published exactly when it is admitted and its calls are
        answered: success appends exactly this record and publishes exactly its
        effect; any failure leaves memory and the acknowledged log as they were. */
    method Append(record: seq<byte>) returns (r: Result<()>)
      requires Valid()
      modifies this`state, this`records, log`logicalTail, log.file, log.committer
      ensures Valid()
      ensures r.Ok? <==> Admit(old(state), record).Ok? && old(log.Lands(|record|))
      ensures r.Ok? ==>
        && state == Apply(old(state), Admit(old(state), record).value)
        && records == old(records) + [record]
        && log.file.durable[..log.logicalTail] == Concat(records)
      ensures r.Err? ==> state == old(state) && records == old(records)
      ensures old(log.committer.recoveryRequired) ==> r == Err(RecoveryRequired) && unchanged(log, log.file)
      ensures Admit(old(state), record).Err? && !old(log.committer.recoveryRequired) ==>
        r == Err(Admit(old(state), record).error) && unchanged(log, log.file, log.committer)
      // Nothing written: the failure is definite and the writer stays usable.
      ensures Admit(old(state), record).Ok? && old(log.Bounces(|record|)) ==>
        r == Err(Io) && !log.committer.recoveryRequired
      ensures !old(log.committer.recoveryRequired) ==>
        (log.committer.recoveryRequired <==>
           Admit(old(state), record).Ok? && !old(log.Lands(|record|)) && !old(log.Bounces(|record|)))
    {
      hide Inv, Apply, Prepare, ParseTransaction, Admit, Chain, Parsed, Replay, Concat, Log.Ready, Commits;
      if log.committer.recoveryRequired { return Err(RecoveryRequired); }
      var admitted := Admit(state, record);
      if admitted.Err? { return Err(admitted.error); }
      AdmittedIsSome(state, record);
      r := log.Append(record);
      if r.Err? { return; }
      ReplayGrows(base, records, state, record);
      records := records + [record];
      state := Apply(state, admitted.value);
    }
  }

  lemma AdmittedIsSome(s: StoreState, record: seq<byte>)
    requires Admit(s, record).Ok?
    ensures record != []
  {
    hide ParseTransaction, Prepare;
    ParsedIsSound(record, Some(s.Watermarks()));
  }
}
