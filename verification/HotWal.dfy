/** The foreground commit: one record written, flushed and synced once, or the
    writer refuses every later mutation until the store is reopened. */
module HotWal {
  import opened Wrappers
  import opened Bytes
  import opened HotLog

  function Cap(bytes: nat, most: nat): nat {
    if bytes < most then bytes else most
  }

  function CeilDiv(n: nat, d: nat): nat
    requires d > 0
  {
    (n + d - 1) / d
  }

  lemma CeilCovers(n: nat, d: nat)
    requires d > 0
    ensures n <= CeilDiv(n, d) * d < n + d
  {
    var q := CeilDiv(n, d);
    assert n + d - 1 == q * d + (n + d - 1) % d;
  }

  /** No other number of parts covers `n` with none to spare. */
  lemma CeilUnique(n: nat, d: nat, q: int)
    requires d > 0 && n <= q * d < n + d
    ensures CeilDiv(n, d) == q
  {
    CeilCovers(n, d);
    var p := CeilDiv(n, d);
    if p < q { Multiples(p + 1, q, d); }
    if q < p { Multiples(q + 1, p, d); }
  }

  lemma CeilStep(n: nat, d: nat)
    requires d > 0
    ensures CeilDiv(0, d) == 0
    ensures 0 < n <= d ==> CeilDiv(n, d) == 1
    ensures n > d ==> CeilDiv(n, d) == 1 + CeilDiv(n - d, d)
  {
    hide CeilDiv;
    if n > d {
      CeilCovers(n - d, d);
      Multiples(CeilDiv(n - d, d), 1 + CeilDiv(n - d, d), d);
      CeilUnique(n, d, 1 + CeilDiv(n - d, d));
    } else if n > 0 {
      CeilUnique(n, d, 1);
    }
    CeilUnique(0, d, 0);
  }

  lemma Multiples(p: int, q: int, d: nat)
    requires p <= q
    ensures p * d <= q * d
    ensures (p - 1) * d == p * d - d
  {
  }

  datatype IoResult = Wrote(count: nat) | Failed

  /** What one call meets: it is refused, or a write lets at most `most` bytes
      through and says how many, or lets some through and claims more than it
      was offered. Other calls happen unless they are refused. */
  datatype Answer = Refuses | Takes(most: nat) | Claims(landed: nat)

  /** The answers to the calls on one file, in order; none after the last. */
  type Script = seq<Answer>

  function At(script: Script, call: nat): Answer {
    if call < |script| then script[call] else Refuses
  }

  predicate Progresses(a: Answer) { a.Takes? && a.most > 0 }

  /** A write that fails, or reports that nothing was taken. */
  predicate Stalls(a: Answer) { a.Refuses? || a == Takes(0) }

  /** The bytes a write of `offered` ones puts into the file. */
  function Landed(a: Answer, offered: nat): (n: nat)
    ensures n <= offered && (Stalls(a) ==> n == 0)
    ensures Progresses(a) && offered > 0 ==> n > 0
  {
    var n := match a case Refuses => 0 case Takes(most) => most case Claims(landed) => landed;
    Cap(n, offered)
  }

  /** How many writes are made for `left` bytes from call `at` on: until all are
      written, or one makes no progress. */
  function WriteCalls(script: Script, at: nat, left: nat): nat
    decreases left
  {
    if left == 0 then 0
    else if !Progresses(At(script, at)) then 1
    else 1 + WriteCalls(script, at + 1, left - Landed(At(script, at), left))
  }

  /** None of these writes fails, stalls or claims too much. */
  predicate Completes(script: Script, at: nat, left: nat) {
    forall i :: at <= i < at + WriteCalls(script, at, left) ==> Progresses(At(script, i))
  }

  lemma NoWrites(script: Script, at: nat)
    ensures WriteCalls(script, at, 0) == 0
  {
  }

  lemma FirstWrite(script: Script, at: nat, left: nat)
    requires left > 0
    ensures !Progresses(At(script, at)) ==> WriteCalls(script, at, left) == 1 && !Completes(script, at, left)
    ensures Progresses(At(script, at)) ==>
      WriteCalls(script, at, left) == 1 + WriteCalls(script, at + 1, left - Landed(At(script, at), left))
  {
    if !Progresses(At(script, at)) { assert at < at + WriteCalls(script, at, left); }
  }

  /** `made` writes of a record have all progressed and come to `written` bytes. */
  ghost predicate Writing(script: Script, at: nat, made: nat, length: nat, written: nat) {
    && written <= length && (written == 0 <==> made == 0)
    && (forall i :: at <= i < at + made ==> Progresses(At(script, i)))
    && WriteCalls(script, at, length) == made + WriteCalls(script, at + made, length - written)
  }

  /** How the writes of a record end, exactly. It is complete when no write
      fails, stalls or claims too much; the failure is definite when the first
      write stalls, and then nothing was written. */
  ghost predicate WritesEnd(script: Script, at: nat, length: nat, r: Result<()>, reached: nat, calls: nat) {
    && calls == at + WriteCalls(script, at, length) && reached <= length
    && (r.Ok? <==> Completes(script, at, length))
    && (r.Ok? ==> reached == length)
    && (r == Err(Io) <==> length > 0 && Stalls(At(script, at)))
    && (r == Err(Io) ==> reached == 0)
    && (r.Err? && r != Err(Io) ==> r == Err(RecoveryRequired))
  }

  lemma WriteProgresses(script: Script, at: nat, made: nat, length: nat, written: nat)
    requires Writing(script, at, made, length, written) && written < length && Progresses(At(script, at + made))
    ensures Writing(script, at, made + 1, length, written + Landed(At(script, at + made), length - written))
  {
    hide WriteCalls, Landed;
    FirstWrite(script, at + made, length - written);
  }

  lemma WriteStops(script: Script, at: nat, made: nat, length: nat, written: nat)
    requires Writing(script, at, made, length, written) && written < length && !Progresses(At(script, at + made))
    ensures WritesEnd(script, at, length,
                      Err(if written == 0 && Stalls(At(script, at + made)) then Io else RecoveryRequired),
                      written + Landed(At(script, at + made), length - written), at + made + 1)
  {
    hide WriteCalls, Landed;
    FirstWrite(script, at + made, length - written);
    assert at + made < at + WriteCalls(script, at, length);
    assert made > 0 ==> Progresses(At(script, at));
  }

  lemma WritingStarts(script: Script, at: nat, length: nat)
    ensures Writing(script, at, 0, length, 0)
  {
  }

  lemma WritingEnds(script: Script, at: nat, made: nat, length: nat)
    requires Writing(script, at, made, length, length)
    ensures WritesEnd(script, at, length, Ok(()), length, at + made)
  {
    NoWrites(script, at + made);
    assert length > 0 ==> Progresses(At(script, at));
  }

  /** The writes of a record, then its flush, then its sync. */
  predicate Commits(script: Script, at: nat, length: nat) {
    var done := at + WriteCalls(script, at, length);
    length > 0 && Completes(script, at, length) && !At(script, done).Refuses? && !At(script, done + 1).Refuses?
  }

  /** A record whose writes go through is then flushed, and synced if that goes
      through too. */
  predicate Flushes(script: Script, at: nat, length: nat) { length > 0 && Completes(script, at, length) }

  predicate Syncs(script: Script, at: nat, length: nat) {
    Flushes(script, at, length) && !At(script, at + WriteCalls(script, at, length)).Refuses?
  }

  /** All calls a commit of this length makes. */
  function CallsMade(script: Script, at: nat, length: nat): nat {
    WriteCalls(script, at, length) + (if Flushes(script, at, length) then 1 else 0)
    + (if Syncs(script, at, length) then 1 else 0)
  }

  /** Short writes are no failure: they only take more calls. */
  lemma {:induction false} ShortWritesComplete(script: Script, at: nat, left: nat, most: nat)
    requires most > 0 && forall i :: at <= i < at + left + 2 ==> At(script, i) == Takes(most)
    ensures Completes(script, at, left) && WriteCalls(script, at, left) == CeilDiv(left, most)
    ensures left > 0 ==> Commits(script, at, left)
    decreases left
  {
    hide CeilDiv, WriteCalls;
    NoWrites(script, at);
    CeilStep(left, most);
    if left > 0 {
      ShortWritesComplete(script, at + 1, left - Landed(At(script, at), left), most);
      FirstWrite(script, at, left);
    }
  }

  /** Every durable byte was durable before, or in the file before or now. */
  ghost predicate Torn(was: seq<byte>, before: seq<byte>, now: seq<byte>, durable: seq<byte>) {
    && (|durable| == |was| || |durable| == |now|)
    && forall i :: 0 <= i < |durable| ==>
         || (i < |was| && durable[i] == was[i])
         || (i < |before| && durable[i] == before[i])
         || (i < |now| && durable[i] == now[i])
  }

  /** What all three agree on is durable. */
  lemma TornKeeps(was: seq<byte>, before: seq<byte>, now: seq<byte>, durable: seq<byte>, n: nat)
    requires Torn(was, before, now, durable)
    requires n <= |was| && n <= |before| && n <= |now| && was[..n] == before[..n] == now[..n]
    ensures n <= |durable| && durable[..n] == was[..n]
  {
    forall i | 0 <= i < n
      ensures durable[i] == was[i]
    {
      assert was[i] == was[..n][i] && before[i] == before[..n][i] && now[i] == now[..n][i];
    }
  }

  /** `bytes` laid over a file at a position. */
  function Overwrite(file: seq<byte>, at: nat, bytes: seq<byte>): (r: seq<byte>)
    requires at + |bytes| <= |file|
    ensures |r| == |file|
  {
    file[..at] + bytes + file[at + |bytes|..]
  }

  lemma OverwriteTwice(file: seq<byte>, at: nat, a: seq<byte>, b: seq<byte>)
    requires at + |a| + |b| <= |file|
    ensures Overwrite(Overwrite(file, at, a), at + |a|, b) == Overwrite(file, at, a + b)
  {
  }

  lemma OverwriteNothing(file: seq<byte>, at: nat, record: seq<byte>)
    requires at <= |file|
    ensures record[..0] == [] && Overwrite(file, at, record[..0]) == file
  {
  }

  /** Tearing one more write of a record. */
  lemma TornAgain(was: seq<byte>, file: seq<byte>, at: nat, record: seq<byte>, written: nat, reached: nat,
                  between: seq<byte>, durable: seq<byte>)
    requires at + |record| <= |file| && written <= reached <= |record|
    requires Torn(was, file, Overwrite(file, at, record[..written]), between)
    requires Torn(between, Overwrite(file, at, record[..written]), Overwrite(file, at, record[..reached]), durable)
    ensures Torn(was, file, Overwrite(file, at, record[..reached]), durable)
  {
  }

  /** One more short write. */
  lemma OverwriteGrows(file: seq<byte>, at: nat, record: seq<byte>, written: nat, more: nat)
    requires at + |record| <= |file| && written + more <= |record|
    ensures Overwrite(Overwrite(file, at, record[..written]), at + written, record[written..][..more])
         == Overwrite(file, at, record[..written + more])
  {
    hide Overwrite;
    OverwriteTwice(file, at, record[..written], record[written..][..more]);
    assert record[..written] + record[written..][..more] == record[..written + more];
  }

  /** What writes have made of a file: the first `n` bytes of the record stand at
      the position; some of them may have left the buffer, and be durable. */
  datatype Held = Held(content: seq<byte>, cursor: nat, flushed: seq<byte>, durable: seq<byte>)

  ghost predicate Partly(was: Held, record: seq<byte>, n: nat, now: Held) {
    && was.cursor + |record| <= |was.content| && n <= |record|
    && now.content == Overwrite(was.content, was.cursor, record[..n]) && now.cursor == was.cursor + n
    && Torn(was.flushed, was.content, now.content, now.flushed)
    && Torn(was.durable, was.content, now.content, now.durable)
    && (n == 0 ==> now.flushed == was.flushed && now.durable == was.durable)
  }

  /** What is durable now was before, or has been flushed. */
  ghost predicate Through(was: seq<byte>, flushed: seq<byte>, durable: seq<byte>) {
    Torn(was, flushed, flushed, durable)
  }

  /** One more write of what is left. */
  lemma PartlyNext(was: Held, record: seq<byte>, n: nat, between: Held, more: nat, now: Held)
    requires Partly(was, record, n, between) && n <= |record| && Partly(between, record[n..], more, now)
    ensures Partly(was, record, n + more, now)
  {
    hide Overwrite, Torn;
    OverwriteGrows(was.content, was.cursor, record, n, more);
    TornAgain(was.flushed, was.content, was.cursor, record, n, n + more, between.flushed, now.flushed);
    TornAgain(was.durable, was.content, was.cursor, record, n, n + more, between.durable, now.durable);
  }

  lemma PartlyNone(was: Held, record: seq<byte>)
    requires was.cursor + |record| <= |was.content|
    ensures Partly(was, record, 0, was)
  {
    hide Overwrite;
    OverwriteNothing(was.content, was.cursor, record);
    NothingTorn(was.content, was.flushed);
    NothingTorn(was.content, was.durable);
  }

  predicate Stalled(outcome: IoResult) { outcome.Failed? || outcome.count == 0 }

  /** The write went forward, and by no more than it was offered. */
  predicate Proceeds(outcome: IoResult, offered: nat) { !Stalled(outcome) && outcome.count <= offered }

  /** What a write that meets an answer puts into the file and reports: exactly
      that, unless it claims more than it was offered. */
  predicate Reports(a: Answer, offered: nat, landed: nat, outcome: IoResult) {
    && landed == Landed(a, offered)
    && match a
       case Refuses => outcome == Failed
       case Takes(_) => outcome == Wrote(landed)
       case Claims(_) => outcome.Wrote? && outcome.count > offered
  }

  /** The writes of a record so far: all have progressed. */
  ghost predicate Midway(was: Held, record: seq<byte>, script: Script, at: nat, n: nat, now: Held, calls: nat) {
    && at <= calls && Partly(was, record, n, now) && Writing(script, at, calls - at, |record|, n)
  }

  /** One write: either the next step is again midway, or the writes end here. */
  lemma MidwayStep(was: Held, record: seq<byte>, script: Script, at: nat, n: nat, between: Held, calls: nat, now: Held,
                   landed: nat, outcome: IoResult)
    requires Midway(was, record, script, at, n, between, calls) && n < |record|
    requires Partly(between, record[n..], landed, now) && Reports(At(script, calls), |record| - n, landed, outcome)
    ensures Partly(was, record, n + landed, now)
    ensures Stalled(outcome) ==> !Proceeds(outcome, |record| - n)
    ensures Proceeds(outcome, |record| - n) ==>
      && outcome.Wrote? && 0 < outcome.count == landed <= |record| - n
      && Midway(was, record, script, at, n + landed, now, calls + 1)
    ensures !Proceeds(outcome, |record| - n) ==>
      WritesEnd(script, at, |record|, Err(if n == 0 && Stalled(outcome) then Io else RecoveryRequired), n + landed,
                calls + 1)
  {
    hide Partly, Writing, WritesEnd, At;
    PartlyNext(was, record, n, between, landed, now);
    if Progresses(At(script, calls)) {
      WriteProgresses(script, at, calls - at, |record|, n);
    } else {
      WriteStops(script, at, calls - at, |record|, n);
    }
  }

  lemma MidwayStarts(was: Held, record: seq<byte>, script: Script, at: nat)
    requires was.cursor + |record| <= |was.content|
    ensures Midway(was, record, script, at, 0, was, at)
  {
    hide Partly, Writing;
    PartlyNone(was, record);
    WritingStarts(script, at, |record|);
  }

  lemma MidwayParts(was: Held, record: seq<byte>, script: Script, at: nat, n: nat, now: Held, calls: nat)
    requires Midway(was, record, script, at, n, now, calls)
    ensures at <= calls && n <= |record| && now.cursor + (|record| - n) <= |now.content| && Partly(was, record, n, now)
    ensures n == |record| ==> WritesEnd(script, at, |record|, Ok(()), n, calls)
  {
    hide WritesEnd, Torn;
    if n == |record| { WritingEnds(script, at, calls - at, |record|); }
  }

  /** One open file. What happens to each call is fixed by a script no caller
      knows; what reaches the disk before a sync succeeds is not fixed at all. */
  class WalFile {
    var content: seq<byte>
    var cursor: nat
    ghost var flushed: seq<byte>
    ghost var durable: seq<byte>
    var calls: nat
    var flushes: nat
    var syncs: nat
    const script: Script

    constructor (bytes: seq<byte>, position: nat, answers: Script)
      ensures content == flushed == durable == bytes && cursor == position && flushes == syncs == calls == 0
      ensures script == answers
    {
      content, flushed, durable, cursor, flushes, syncs, calls := bytes, bytes, bytes, position, 0, 0, 0;
      script := answers;
    }

    /** Puts a prefix of `bytes` into the buffer, which may let some of it out. */
    method Write(bytes: seq<byte>) returns (r: IoResult, ghost landed: nat)
      requires cursor + |bytes| <= |content|
      modifies this`content, this`cursor, this`flushed, this`durable, this`calls
      ensures Reports(At(script, old(calls)), |bytes|, landed, r) && calls == old(calls) + 1
      ensures Partly(Held(old(content), old(cursor), old(flushed), old(durable)), bytes, landed,
                     Held(content, cursor, flushed, durable))
      ensures Through(old(durable), flushed, durable)
    {
      var answer := At(script, calls);
      var k := Landed(answer, |bytes|);
      calls, landed := calls + 1, k;
      content := Overwrite(content, cursor, bytes[..k]);
      cursor := cursor + k;
      NothingTorn(flushed, durable);
      if k > 0 {
        Spill(old(content));
      } else {
        NothingTorn(content, flushed);
        NothingTorn(content, durable);
      }
      r := match answer
        case Refuses => Failed
        case Takes(_) => Wrote(k)
        case Claims(_) => Wrote(|bytes| + 1);
    }

    /** Success empties the buffer; a refusal may have let some of it out. */
    method Flush() returns (ok: bool)
      modifies this`flushes, this`flushed, this`calls
      ensures flushes == old(flushes) + 1 && calls == old(calls) + 1
      ensures ok <==> !At(script, old(calls)).Refuses?
      ensures ok ==> flushed == content
      ensures Torn(old(flushed), content, content, flushed)
    {
      ok := !At(script, calls).Refuses?;
      flushes, calls := flushes + 1, calls + 1;
      NothingTorn(content, flushed);
      ghost var out :| Torn(flushed, content, content, out);
      flushed := if ok then content else out;
    }

    /** Success makes durable what has been flushed, and no more; after a failure
        any part of that may be. */
    method SyncData() returns (ok: bool)
      modifies this`syncs, this`durable, this`calls
      ensures syncs == old(syncs) + 1 && calls == old(calls) + 1
      ensures ok <==> !At(script, old(calls)).Refuses?
      ensures ok ==> durable == flushed
      ensures Through(old(durable), flushed, durable)
    {
      ok := !At(script, calls).Refuses?;
      syncs, calls := syncs + 1, calls + 1;
      NothingTorn(flushed, durable);
      assert Through(durable, flushed, durable);
      ghost var torn :| Through(durable, flushed, torn);
      durable := if ok then flushed else torn;
    }

    /** Some of the new content, or none, leaves the buffer, and some of that, or
        none, becomes durable. */
    ghost method Spill(before: seq<byte>)
      modifies this`flushed, this`durable
      ensures Torn(old(flushed), before, content, flushed) && Torn(old(durable), before, content, durable)
      ensures Through(old(durable), flushed, durable)
    {
      NothingTorn(content, flushed);
      NothingTorn(content, durable);
      NothingTorn(flushed, durable);
      assert Through(durable, flushed, durable);
      assert Torn(flushed, before, content, flushed) && Torn(durable, before, content, durable);
      ghost var out, torn :| Torn(flushed, before, content, out) && Torn(durable, before, content, torn)
        && Through(durable, out, torn);
      flushed, durable := out, torn;
    }

    /** Extends the file with flushed and synced zeros; a failure may leave it
        longer. */
    method Preinitialize(capacity: nat) returns (ok: bool)
      requires |content| < capacity
      modifies this`content, this`cursor, this`flushed, this`durable, this`calls
      ensures calls == old(calls) + 1
      ensures ok <==> !At(script, old(calls)).Refuses?
      ensures exists n :: content == old(content) + Blank(n)
      ensures ok ==> |content| == capacity && durable == flushed == content && cursor == capacity
      ensures Torn(old(durable), old(content), content, durable)
    {
      ok := !At(script, calls).Refuses?;
      calls := calls + 1;
      var grown: int := *;
      if ok || grown < 0 || |content| + grown > capacity { grown := capacity - |content|; }
      content := content + Blank(grown);
      cursor := |content|;
      Spill(old(content));
      if ok { flushed, durable := content, content; }
    }

    method Seek(position: nat) returns (ok: bool)
      modifies this`cursor, this`calls
      ensures calls == old(calls) + 1
      ensures ok <==> !At(script, old(calls)).Refuses?
      ensures ok ==> cursor == position
    {
      ok := !At(script, calls).Refuses?;
      calls := calls + 1;
      if ok { cursor := position; }
    }
  }

  /** Commit state of one open writer handle. */
  class Committer {
    var recoveryRequired: bool

    constructor ()
      ensures !recoveryRequired
    {
      recoveryRequired := false;
    }

    /** The record sits at the old position, flushed once and synced once. */
    twostate predicate Committed(file: WalFile, record: seq<byte>)
      requires old(file.cursor) + |record| <= |old(file.content)|
      reads this, file
    {
      && !recoveryRequired
      && file.content == Overwrite(old(file.content), old(file.cursor), record)
      && file.cursor == old(file.cursor) + |record|
      && file.durable == file.flushed == file.content
      && file.flushes == old(file.flushes) + 1 && file.syncs == old(file.syncs) + 1
    }

    /** Short writes until the record is complete. Before its first byte a
        failure is definite; after it the handle has to be poisoned. */
    static method WriteAll(file: WalFile, record: seq<byte>) returns (r: Result<()>, ghost reached: nat)
      requires file.cursor + |record| <= |file.content|
      modifies file`content, file`cursor, file`flushed, file`durable, file`calls
      ensures Partly(Held(old(file.content), old(file.cursor), old(file.flushed), old(file.durable)), record, reached,
                     Held(file.content, file.cursor, file.flushed, file.durable))
      ensures WritesEnd(file.script, old(file.calls), |record|, r, reached, file.calls)
    {
      reached := 0;
      hide *;
      ghost var was, at := Held(file.content, file.cursor, file.flushed, file.durable), file.calls;
      MidwayStarts(was, record, file.script, at);
      var written := 0;
      while written < |record|
        invariant 0 <= written == reached <= |record|
        invariant Midway(was, record, file.script, at, written,
                         Held(file.content, file.cursor, file.flushed, file.durable), file.calls)
        decreases |record| - written
      {
        var remaining := record[written..];
        ghost var between, calls := Held(file.content, file.cursor, file.flushed, file.durable), file.calls;
        MidwayParts(was, record, file.script, at, written, between, calls);
        var outcome, landed := file.Write(remaining);
        reached := written + landed;
        MidwayStep(was, record, file.script, at, written, between, calls,
                   Held(file.content, file.cursor, file.flushed, file.durable), landed, outcome);
        if !Proceeds(outcome, |remaining|) {
          return Err(if Stalled(outcome) && written == 0 then Io else RecoveryRequired), reached;
        }
        written := written + outcome.count;
      }
      MidwayParts(was, record, file.script, at, written,
                  Held(file.content, file.cursor, file.flushed, file.durable), file.calls);
      return Ok(()), reached;
    }

    /** The commit state machine, exactly: what comes of a commit is settled by
        the answers its calls meet. */
    method Commit(file: WalFile, record: seq<byte>) returns (r: Result<()>, ghost reached: nat)
      requires file.cursor + |record| <= |file.content|
      modifies this, file
      ensures r.Ok? <==> !old(recoveryRequired) && Commits(file.script, old(file.calls), |record|)
      ensures r.Ok? ==> Committed(file, record)
      // A definite failure, and a refusal, change nothing at all.
      ensures r == Err(Io) <==>
        !old(recoveryRequired) && (record == [] || Stalls(At(file.script, old(file.calls))))
      ensures r == Err(Io) ==>
        unchanged(file`content, file`cursor, file`flushed, file`durable, file`flushes, file`syncs)
      ensures old(recoveryRequired) ==> r == Err(RecoveryRequired) && unchanged(file)
      // Every other failure poisons the handle, and nothing else does.
      ensures recoveryRequired <==> r.Err? && r != Err(Io)
      // Complete but not known to be durable.
      ensures r == Err(DurabilityIndeterminate) <==>
        && !old(recoveryRequired) && record != [] && Completes(file.script, old(file.calls), |record|)
        && !Commits(file.script, old(file.calls), |record|)
      // A flush is tried after complete writes only, a sync after a flush only.
      ensures !old(recoveryRequired) ==>
        && file.calls == old(file.calls) + CallsMade(file.script, old(file.calls), |record|)
        && file.flushes == old(file.flushes) + (if Flushes(file.script, old(file.calls), |record|) then 1 else 0)
        && file.syncs == old(file.syncs) + (if Syncs(file.script, old(file.calls), |record|) then 1 else 0)
      // Whatever happened, only a prefix of the record reached the file.
      ensures reached <= |record|
      ensures file.content == Overwrite(old(file.content), old(file.cursor), record[..reached])
      ensures Torn(old(file.durable), old(file.content), file.content, file.durable)
    {
      reached := 0;
      hide Overwrite, Torn, Completes, WriteCalls;
      OverwriteNothing(file.content, file.cursor, record);
      NothingTorn(file.content, file.durable);
      if recoveryRequired { return Err(RecoveryRequired), reached; }
      if record == [] { return Err(Io), reached; }
      FirstWrite(file.script, file.calls, |record|);
      NoWrites(file.script, file.calls);
      r, reached := WriteAll(file, record);
      assert record[..|record|] == record;
      if r.Err? {
        recoveryRequired := r != Err(Io);
        return;
      }
      var flushed := file.Flush();
      if !flushed {
        recoveryRequired := true;
        return Err(DurabilityIndeterminate), reached;
      }
      ghost var between := file.durable;
      var synced := file.SyncData();
      TornSync(old(file.durable), old(file.content), file.content, between, file.durable);
      if !synced {
        recoveryRequired := true;
        return Err(DurabilityIndeterminate), reached;
      }
    }
  }

  lemma NothingTorn(file: seq<byte>, durable: seq<byte>)
    ensures Torn(durable, file, file, durable)
  {
  }

  lemma TornSync(was: seq<byte>, before: seq<byte>, now: seq<byte>, between: seq<byte>, durable: seq<byte>)
    requires Torn(was, before, now, between) && Torn(between, now, now, durable)
    ensures Torn(was, before, now, durable)
  {
  }

  const MIN_RESERVE_BYTES := 0x10_0000

  /** The bytes reserved at first. */
  function InitialReserve(segment: nat): nat {
    Cap(MIN_RESERVE_BYTES, segment)
  }

  /** The initial reserve doubled as often as it takes to cover `required`, but
      never more than a segment. */
  ghost predicate Doubled(capacity: nat, required: nat, segment: nat, times: nat) {
    && capacity == Cap(Cap(MIN_RESERVE_BYTES, segment) * Pow2(times), segment)
    && (times > 0 ==> Cap(MIN_RESERVE_BYTES, segment) * Pow2(times - 1) < required)
  }

  predicate Segments(capacity: nat, segment: nat, count: nat) { capacity == count * segment }

  /** The room kept for `required` bytes: up to a segment the first doubling that
      covers them, beyond it the fewest whole segments. */
  ghost predicate Reserves(capacity: nat, required: nat, segment: nat) {
    && capacity >= required && capacity > 0
    && (required <= segment ==> exists times :: Doubled(capacity, required, segment, times))
    && (required > segment ==> capacity < required + segment && exists count :: Segments(capacity, segment, count))
  }

  /** A file with at least that room. */
  ghost predicate Reserved(length: nat, required: nat, segment: nat) {
    exists capacity: nat :: Reserves(capacity, required, segment) && length >= capacity
  }

  method RoundCapacity(required: nat, segment: nat) returns (capacity: nat)
    requires segment > 0
    ensures Reserves(capacity, required, segment)
  {
    ghost var times: nat := 0;
    var floor := if required > 1 then required else 1;
    if floor <= segment {
      capacity := InitialReserve(segment);
      while capacity < floor
        invariant 0 < capacity <= segment && capacity == InitialReserve(segment) * Pow2(times)
        invariant times > 0 ==> InitialReserve(segment) * Pow2(times - 1) < floor
        decreases segment - capacity
      {
        var doubled := capacity * 2;
        times := times + 1;
        assert InitialReserve(segment) * Pow2(times) == doubled;
        if doubled >= segment {
          assert Doubled(segment, required, segment, times);
          return segment;
        }
        capacity := doubled;
      }
      assert Doubled(capacity, required, segment, times);
      return;
    }
    CeilCovers(floor, segment);
    capacity := CeilDiv(floor, segment) * segment;
    assert Segments(capacity, segment, CeilDiv(floor, segment));
  }
}
