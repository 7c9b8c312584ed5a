/** Sealing: committed transactions written column by column to one segment,
    continuing every stream where the earlier generations ended. */
module Sealing {
  import opened Wrappers
  import opened Bytes
  import opened Format
  import opened Dag
  import opened Model
  import opened TransactionFormat
  import opened Transactions
  import opened Appends
  import opened Segment
  import opened Columns
  import opened BlockReader
  import opened RouteFile

  // What a commit adds to each stream

  lemma {:induction false} ThreadIn(cps: seq<Checkpoint>, i: nat)
    requires i < |cps|
    ensures cps[i].thread in Threads(cps)
  {
    if i < |cps| - 1 { ThreadIn(cps[..|cps| - 1], i); }
  }

  /** Under the invariant every thread ordinal is exact. */
  lemma ThreadOrdinalKnown(s: StoreState, i: nat)
    requires ThreadsIndexed(s) && i < |s.checkpoints| <= U32_MAX
    ensures s.checkpoints[i].thread in s.threadOrdinals
    ensures s.threadOrdinals[s.checkpoints[i].thread] < |s.threads|
    ensures ThreadOrdinal(s, s.checkpoints[i]) == s.threadOrdinals[s.checkpoints[i].thread]
    ensures s.threads[ThreadOrdinal(s, s.checkpoints[i])] == s.checkpoints[i].thread
  {
    ThreadIn(s.checkpoints, i);
    var t := s.checkpoints[i].thread;
    var k :| 0 <= k < |s.threads| && s.threads[k] == t;
  }

  lemma ParentOrdinalKnown(s: StoreState, i: nat)
    requires i < |s.checkpoints| <= U32_MAX && CheckpointOk(s, i) && CheckpointsIndexed(s)
    ensures var c := s.checkpoints[i];
      if c.parent.None? then ParentOrdinal(s, c) == NONE_PARENT
      else ParentOrdinal(s, c) < i && s.checkpoints[ParentOrdinal(s, c)].id == c.parent.value
  {
  }

  lemma ThreadColumnGrows(s: StoreState, tx: Transaction, final: StoreState)
    requires Admitted(s, tx) && Inv(Apply(s, tx)) && Later(Apply(s, tx), final)
    ensures var t := Apply(s, tx);
      ThreadColumn(t, t.checkpoints) == ThreadColumn(s, s.checkpoints) + [ThreadOrdinal(final, tx.checkpoint)]
  {
    hide WellFormed, VersionsOk, CheckpointOk, CheckpointsIndexed, RequestsOk, Sound, Prepare;
    var t := Apply(s, tx);
    forall i | 0 <= i < |s.checkpoints|
      ensures ThreadOrdinal(t, t.checkpoints[i]) == ThreadOrdinal(s, s.checkpoints[i])
    {
      ThreadOrdinalKnown(s, i);
      ThreadOrdinalKnown(t, i);
    }
    ThreadOrdinalKnown(t, |s.checkpoints|);
  }

  lemma ParentColumnGrows(s: StoreState, tx: Transaction, final: StoreState)
    requires Admitted(s, tx) && Inv(Apply(s, tx)) && Later(Apply(s, tx), final)
    ensures var t := Apply(s, tx);
      ParentColumn(t, t.checkpoints) == ParentColumn(s, s.checkpoints) + [ParentOrdinal(final, tx.checkpoint)]
  {
    hide WellFormed, VersionsOk, ThreadsIndexed, RequestsOk, Sound, Prepare;
    var t := Apply(s, tx);
    forall i | 0 <= i < |s.checkpoints|
      ensures ParentOrdinal(t, t.checkpoints[i]) == ParentOrdinal(s, s.checkpoints[i])
    {
      assert CheckpointOk(s, i) && CheckpointOk(t, i);
      assert t.checkpoints[i] == s.checkpoints[i];
    }
    var n := |s.checkpoints|;
    assert CheckpointOk(t, n) && t.checkpoints[n] == tx.checkpoint;
    var c := tx.checkpoint;
    if c.parent.Some? {
      var k := Key(c.thread, c.parent.value);
      assert k in t.checkpointOrdinals && t.checkpointOrdinals[k] < n;
      assert k in final.checkpointOrdinals && final.checkpointOrdinals[k] == t.checkpointOrdinals[k];
    }
  }

  lemma NamesFitBefore(s: StoreState, tx: Transaction)
    requires NamesFit(Apply(s, tx))
    ensures NamesFit(s)
    ensures tx.checkpoint.thread !in s.threadOrdinals ==> TableFits(s.threads + [tx.checkpoint.thread])
    ensures TableFits(Map(IdOf, s.checkpoints) + [tx.checkpoint.id])
    ensures Map(IdOf, Apply(s, tx).checkpoints) == Map(IdOf, s.checkpoints) + [tx.checkpoint.id]
  {
    var c := tx.checkpoint;
    MapAppend(IdOf, s.checkpoints, [c]);
    assert Map(IdOf, [c]) == [c.id];
    JoinedAppend(s.threads, c.thread);
    JoinedAppend(Map(IdOf, s.checkpoints), c.id);
  }

  lemma JoinedAppend(names: seq<Id>, name: Id)
    ensures Joined(names + [name]) == Joined(names) + name
  {
    assert (names + [name])[..|names|] == names;
  }

  ghost predicate GrowsBy(s: StoreState, tx: Transaction, final: StoreState, id: nat)
    requires NamesFit(s) && NamesFit(Apply(s, tx)) && id < STREAMS
  {
    StreamsOf(Apply(s, tx))[id] == StreamsOf(s)[id] + Delta(s, tx, final)[id]
  }

  lemma NodeStreamsGrow(s: StoreState, tx: Transaction, final: StoreState)
    requires NamesFit(s) && NamesFit(Apply(s, tx))
    ensures forall id :: 0 <= id < WIDE_KIND ==> GrowsBy(s, tx, final, id)
  {
    hide Col32, Col64, TableFits, OffsetBytes, Joined, OffsetDelta, Map, ThreadColumn, ParentColumn, U32, U64,
      ThreadOrdinal, ParentOrdinal;
    MapCol64(Field0, s.nodes, tx.nodes);
    MapCol32(Field1, s.nodes, tx.nodes);
    MapAppend(KindCode, s.nodes, tx.nodes);
  }

  lemma WideStreamsGrow(s: StoreState, tx: Transaction, final: StoreState)
    requires NamesFit(s) && NamesFit(Apply(s, tx))
    ensures forall id :: WIDE_KIND <= id < VERSION_ROOT ==> GrowsBy(s, tx, final, id)
  {
    hide Col32, Col64, TableFits, OffsetBytes, Joined, OffsetDelta, Map, ThreadColumn, ParentColumn, U32, U64,
      ThreadOrdinal, ParentOrdinal;
    MapAppend(WideCode, s.wides, tx.wides);
    MapCol64(FieldA, s.wides, tx.wides);
    MapCol64(FieldB, s.wides, tx.wides);
    MapCol64(FieldC, s.wides, tx.wides);
  }

  lemma VersionStreamsGrow(s: StoreState, tx: Transaction, final: StoreState)
    requires NamesFit(s) && NamesFit(Apply(s, tx))
    ensures GrowsBy(s, tx, final, VERSION_ROOT) && GrowsBy(s, tx, final, VERSION_PARENT)
  {
    hide Col32, Col64, TableFits, OffsetBytes, Joined, OffsetDelta, Map, ThreadColumn, ParentColumn, U32, U64,
      ThreadOrdinal, ParentOrdinal;
    MapCol64(RawRoot, s.versions, tx.roots);
    MapCol32(RawParent, s.parents, tx.parents);
  }

  /** The bytes of a table grow by what its next name adds. */
  lemma TableGrows(names: seq<Id>, name: Id)
    requires TableFits(names + [name])
    ensures TableFits(names)
    ensures OffsetBytes(names + [name]) == OffsetBytes(names) + OffsetDelta(names, name)
    ensures Joined(names + [name]) == Joined(names) + name
  {
    hide Col32, Ends, U32, Joined;
    OffsetBytesAppend(names, name);
    JoinedAppend(names, name);
  }

  /** The four streams of the name tables. */
  lemma TableStreams(s: StoreState)
    requires NamesFit(s)
    ensures TableFits(s.threads) && TableFits(Map(IdOf, s.checkpoints))
    ensures StreamsOf(s)[THREAD_OFFSETS] == OffsetBytes(s.threads) && StreamsOf(s)[THREAD_BYTES] == Joined(s.threads)
    ensures StreamsOf(s)[CP_ID_OFFSETS] == OffsetBytes(Map(IdOf, s.checkpoints))
    ensures StreamsOf(s)[CP_ID_BYTES] == Joined(Map(IdOf, s.checkpoints))
  {
    hide Col32, Col64, Map, Joined, OffsetBytes, TableFits, ThreadColumn, ParentColumn;
  }

  lemma ThreadStreamsGrow(s: StoreState, tx: Transaction, final: StoreState)
    requires NamesFit(s) && NamesFit(Apply(s, tx))
    ensures GrowsBy(s, tx, final, THREAD_OFFSETS) && GrowsBy(s, tx, final, THREAD_BYTES)
  {
    hide StreamsOf, Delta, DataParts, FieldParts, Map, Joined, OffsetBytes, OffsetDelta, U32, TableFits, ThreadOrdinal,
      ParentOrdinal;
    NamesFitBefore(s, tx);
    TableStreams(s);
    TableStreams(Apply(s, tx));
    DeltaParts(s, tx, final);
    var c := tx.checkpoint;
    if c.thread !in s.threadOrdinals {
      TableGrows(s.threads, c.thread);
    } else {
      Nothing(OffsetBytes(s.threads));
      Nothing(Joined(s.threads));
    }
  }

  lemma NameStreamsGrow(s: StoreState, tx: Transaction, final: StoreState)
    requires NamesFit(s) && NamesFit(Apply(s, tx))
    ensures GrowsBy(s, tx, final, CP_ID_OFFSETS) && GrowsBy(s, tx, final, CP_ID_BYTES)
  {
    hide StreamsOf, Delta, DataParts, FieldParts, Map, Joined, OffsetBytes, OffsetDelta, U32, TableFits, ThreadOrdinal,
      ParentOrdinal;
    NamesFitBefore(s, tx);
    TableStreams(s);
    TableStreams(Apply(s, tx));
    DeltaParts(s, tx, final);
    TableGrows(Map(IdOf, s.checkpoints), tx.checkpoint.id);
  }

  lemma CheckpointStreamsGrow(s: StoreState, tx: Transaction, final: StoreState)
    requires Admitted(s, tx) && Inv(Apply(s, tx)) && Later(Apply(s, tx), final)
    requires NamesFit(s) && NamesFit(Apply(s, tx))
    ensures GrowsBy(s, tx, final, CP_THREAD) && GrowsBy(s, tx, final, CP_NO)
    ensures forall id :: CP_PARENT_ORDINAL <= id < STREAMS ==> GrowsBy(s, tx, final, id)
  {
    hide Col32, Col64, TableFits, OffsetBytes, Joined, OffsetDelta, Ends, Map, ThreadColumn, ParentColumn, U32, U64,
      Inv, Prepare, Sound, Later;
    var c := tx.checkpoint;
    ThreadColumnGrows(s, tx, final);
    Col32Append(ThreadColumn(s, s.checkpoints), ThreadOrdinal(final, c));
    ParentColumnGrows(s, tx, final);
    Col32Append(ParentColumn(s, s.checkpoints), ParentOrdinal(final, c));
    MapCol32One(NumberOf, s.checkpoints, c);
    MapCol32One(IdentityOf, s.checkpoints, c);
    MapCol32One(MessagesOf, s.checkpoints, c);
    MapCol32One(ResultOf, s.checkpoints, c);
    MapCol64One(LenOf, s.checkpoints, c);
    MapCol64One(HashOf, s.checkpoints, c);
  }

  /** Every stream of the state after a commit is the stream before it followed
      by what this commit contributes, whatever has been committed since. */
  lemma StreamsGrow(s: StoreState, tx: Transaction, final: StoreState)
    requires Admitted(s, tx) && Later(Apply(s, tx), final) && NamesFit(Apply(s, tx))
    ensures NamesFit(s)
    ensures forall id :: 0 <= id < STREAMS ==> GrowsBy(s, tx, final, id)
  {
    hide Inv, Prepare, Sound, Later, NamesFit, GrowsBy;
    NamesFitBefore(s, tx);
    ApplyKeepsInv(s, tx);
    NodeStreamsGrow(s, tx, final);
    WideStreamsGrow(s, tx, final);
    VersionStreamsGrow(s, tx, final);
    ThreadStreamsGrow(s, tx, final);
    NameStreamsGrow(s, tx, final);
    CheckpointStreamsGrow(s, tx, final);
  }

  // Writing one transaction

  lemma Nothing(a: seq<byte>)
    ensures a + [] == a
  {
  }

  lemma Assoc(a: seq<byte>, b: seq<byte>, c: seq<byte>)
    ensures (a + b) + c == a + (b + c)
  {
  }

  /** Three pushes to different streams. */
  method WriteNode(w: SegmentWriter, slot: Slot) returns (ok: bool)
    requires w.Valid() && KindCode(slot) != 3
    modifies w`states, w`payload, w`contents
    ensures var after := old(w.contents)[
      NODE_FIELD0 := old(w.contents[NODE_FIELD0]) + U64(slot.field0)][
      NODE_FIELD1 := old(w.contents[NODE_FIELD1]) + U32(slot.field1)][
      NODE_KIND := old(w.contents[NODE_KIND]) + [KindCode(slot)]];
      (ok <==> Fitting(after, w.blockSize)) && (ok ==> w.Valid() && w.contents == after)
  {
    hide Ready, U64, U32, KindCode, FullBlocksFit;
    ghost var after := w.contents[
      NODE_FIELD0 := w.contents[NODE_FIELD0] + U64(slot.field0)][
      NODE_FIELD1 := w.contents[NODE_FIELD1] + U32(slot.field1)][
      NODE_KIND := w.contents[NODE_KIND] + [KindCode(slot)]];
    ok := w.Push(NODE_FIELD0, U64(slot.field0));
    if !ok {
      assert !FullBlocksFit(after[NODE_FIELD0], w.blockSize);
      return;
    }
    ok := w.Push(NODE_FIELD1, U32(slot.field1));
    if !ok {
      assert !FullBlocksFit(after[NODE_FIELD1], w.blockSize);
      return;
    }
    ok := w.Push(NODE_KIND, [KindCode(slot)]);
    if !ok {
      assert !FullBlocksFit(after[NODE_KIND], w.blockSize);
      return;
    }
    w.Fits();
  }

  lemma MapStep<T, U>(f: T -> U, xs: seq<T>, i: nat)
    requires i < |xs|
    ensures Map(f, xs[..i + 1]) == Map(f, xs[..i]) + [f(xs[i])]
  {
  }

  lemma NodeStep(nodes: seq<Slot>, i: nat)
    requires i < |nodes|
    ensures Col64(Map(Field0, nodes[..i + 1])) == Col64(Map(Field0, nodes[..i])) + U64(nodes[i].field0)
    ensures Col32(Map(Field1, nodes[..i + 1])) == Col32(Map(Field1, nodes[..i])) + U32(nodes[i].field1)
    ensures Map(KindCode, nodes[..i + 1]) == Map(KindCode, nodes[..i]) + [KindCode(nodes[i])]
  {
    MapStep(Field0, nodes, i);
    MapStep(Field1, nodes, i);
    MapStep(KindCode, nodes, i);
    Col64Append(Map(Field0, nodes[..i]), nodes[i].field0);
    Col32Append(Map(Field1, nodes[..i]), nodes[i].field1);
  }

  /** Whole columns begin with the columns of the first nodes. */
  lemma NodePrefix(nodes: seq<Slot>, i: nat)
    requires i <= |nodes|
    ensures Col64(Map(Field0, nodes[..i])) <= Col64(Map(Field0, nodes))
    ensures Col32(Map(Field1, nodes[..i])) <= Col32(Map(Field1, nodes))
    ensures Map(KindCode, nodes[..i]) <= Map(KindCode, nodes)
  {
    hide Col32, Col64, Map, KindCode;
    assert nodes == nodes[..i] + nodes[i..];
    MapCol64(Field0, nodes[..i], nodes[i..]);
    MapCol32(Field1, nodes[..i], nodes[i..]);
    MapAppend(KindCode, nodes[..i], nodes[i..]);
  }

  function NodesPushed(contents: seq<seq<byte>>, nodes: seq<Slot>): (r: seq<seq<byte>>)
    requires |contents| == STREAMS
    ensures |r| == STREAMS
  {
    contents[
      NODE_FIELD0 := contents[NODE_FIELD0] + Col64(Map(Field0, nodes))][
      NODE_FIELD1 := contents[NODE_FIELD1] + Col32(Map(Field1, nodes))][
      NODE_KIND := contents[NODE_KIND] + Map(KindCode, nodes)]
  }

  lemma NodesPushedStep(c: seq<seq<byte>>, nodes: seq<Slot>, i: nat)
    requires |c| == STREAMS && i < |nodes|
    ensures var before, slot := NodesPushed(c, nodes[..i]), nodes[i];
      NodesPushed(c, nodes[..i + 1]) == before[
        NODE_FIELD0 := before[NODE_FIELD0] + U64(slot.field0)][
        NODE_FIELD1 := before[NODE_FIELD1] + U32(slot.field1)][
        NODE_KIND := before[NODE_KIND] + [KindCode(slot)]]
    ensures Below(NodesPushed(c, nodes[..i + 1]), NodesPushed(c, nodes))
  {
    hide U64, U32, Col32, Col64, Map, KindCode;
    NodeStep(nodes, i);
    NodePrefix(nodes, i + 1);
    Assoc(c[NODE_FIELD0], Col64(Map(Field0, nodes[..i])), U64(nodes[i].field0));
    Assoc(c[NODE_FIELD1], Col32(Map(Field1, nodes[..i])), U32(nodes[i].field1));
    Assoc(c[NODE_KIND], Map(KindCode, nodes[..i]), [KindCode(nodes[i])]);
  }

  lemma NoNodesPushed(c: seq<seq<byte>>, nodes: seq<Slot>)
    requires |c| == STREAMS
    ensures NodesPushed(c, nodes[..0]) == c
  {
    Nothing(c[NODE_FIELD0]);
    Nothing(c[NODE_FIELD1]);
    Nothing(c[NODE_KIND]);
  }

  method WriteNodes(w: SegmentWriter, nodes: seq<Slot>) returns (r: Result<()>)
    requires w.Valid()
    modifies w`states, w`payload, w`contents
    ensures |old(w.contents)| == STREAMS
    ensures r.Ok? <==> KindsKnown(nodes) && Fitting(NodesPushed(old(w.contents), nodes), w.blockSize)
    ensures r.Ok? ==> w.Valid() && w.contents == NodesPushed(old(w.contents), nodes)
  {
    hide Ready, Fitting, KindCode, NodesPushed;
    ghost var c0 := w.contents;
    NoNodesPushed(c0, nodes);
    for i := 0 to |nodes|
      invariant w.Valid() && KindsKnown(nodes[..i]) && w.contents == NodesPushed(c0, nodes[..i])
    {
      if KindCode(nodes[i]) == 3 { return Err(Format); }
      NodesPushedStep(c0, nodes, i);
      var ok := WriteNode(w, nodes[i]);
      if !ok {
        if Fitting(NodesPushed(c0, nodes), w.blockSize) {
          FittingBelow(NodesPushed(c0, nodes[..i + 1]), NodesPushed(c0, nodes), w.blockSize);
        }
        return Err(Format);
      }
    }
    assert nodes[..|nodes|] == nodes;
    w.Fits();
    return Ok(());
  }

  method WriteWide(w: SegmentWriter, record: WideRecord) returns (ok: bool)
    requires w.Valid() && WideCode(record) != 2
    modifies w`states, w`payload, w`contents
    ensures var after := old(w.contents)[
      WIDE_KIND := old(w.contents[WIDE_KIND]) + [WideCode(record)]][
      WIDE_A := old(w.contents[WIDE_A]) + U64(record.a)][
      WIDE_B := old(w.contents[WIDE_B]) + U64(record.b)][
      WIDE_C := old(w.contents[WIDE_C]) + U64(record.c)];
      (ok <==> Fitting(after, w.blockSize)) && (ok ==> w.Valid() && w.contents == after)
  {
    hide Ready, U64, WideCode, FullBlocksFit;
    ghost var after := w.contents[
      WIDE_KIND := w.contents[WIDE_KIND] + [WideCode(record)]][
      WIDE_A := w.contents[WIDE_A] + U64(record.a)][
      WIDE_B := w.contents[WIDE_B] + U64(record.b)][
      WIDE_C := w.contents[WIDE_C] + U64(record.c)];
    ok := w.Push(WIDE_KIND, [WideCode(record)]);
    if !ok {
      assert !FullBlocksFit(after[WIDE_KIND], w.blockSize);
      return;
    }
    ok := w.Push(WIDE_A, U64(record.a));
    if !ok {
      assert !FullBlocksFit(after[WIDE_A], w.blockSize);
      return;
    }
    ok := w.Push(WIDE_B, U64(record.b));
    if !ok {
      assert !FullBlocksFit(after[WIDE_B], w.blockSize);
      return;
    }
    ok := w.Push(WIDE_C, U64(record.c));
    if !ok {
      assert !FullBlocksFit(after[WIDE_C], w.blockSize);
      return;
    }
    w.Fits();
  }

  lemma WideStep(wides: seq<WideRecord>, i: nat)
    requires i < |wides|
    ensures Map(WideCode, wides[..i + 1]) == Map(WideCode, wides[..i]) + [WideCode(wides[i])]
    ensures Col64(Map(FieldA, wides[..i + 1])) == Col64(Map(FieldA, wides[..i])) + U64(wides[i].a)
    ensures Col64(Map(FieldB, wides[..i + 1])) == Col64(Map(FieldB, wides[..i])) + U64(wides[i].b)
    ensures Col64(Map(FieldC, wides[..i + 1])) == Col64(Map(FieldC, wides[..i])) + U64(wides[i].c)
  {
    MapStep(WideCode, wides, i);
    MapStep(FieldA, wides, i);
    MapStep(FieldB, wides, i);
    MapStep(FieldC, wides, i);
    Col64Append(Map(FieldA, wides[..i]), wides[i].a);
    Col64Append(Map(FieldB, wides[..i]), wides[i].b);
    Col64Append(Map(FieldC, wides[..i]), wides[i].c);
  }

  lemma WidePrefix(wides: seq<WideRecord>, i: nat)
    requires i <= |wides|
    ensures Map(WideCode, wides[..i]) <= Map(WideCode, wides)
    ensures Col64(Map(FieldA, wides[..i])) <= Col64(Map(FieldA, wides))
    ensures Col64(Map(FieldB, wides[..i])) <= Col64(Map(FieldB, wides))
    ensures Col64(Map(FieldC, wides[..i])) <= Col64(Map(FieldC, wides))
  {
    hide Col64, Map, WideCode;
    assert wides == wides[..i] + wides[i..];
    MapAppend(WideCode, wides[..i], wides[i..]);
    MapCol64(FieldA, wides[..i], wides[i..]);
    MapCol64(FieldB, wides[..i], wides[i..]);
    MapCol64(FieldC, wides[..i], wides[i..]);
  }

  function WidesPushed(contents: seq<seq<byte>>, wides: seq<WideRecord>): (r: seq<seq<byte>>)
    requires |contents| == STREAMS
    ensures |r| == STREAMS
  {
    contents[
      WIDE_KIND := contents[WIDE_KIND] + Map(WideCode, wides)][
      WIDE_A := contents[WIDE_A] + Col64(Map(FieldA, wides))][
      WIDE_B := contents[WIDE_B] + Col64(Map(FieldB, wides))][
      WIDE_C := contents[WIDE_C] + Col64(Map(FieldC, wides))]
  }

  lemma WidesPushedStep(c: seq<seq<byte>>, wides: seq<WideRecord>, i: nat)
    requires |c| == STREAMS && i < |wides|
    ensures var before, record := WidesPushed(c, wides[..i]), wides[i];
      WidesPushed(c, wides[..i + 1]) == before[
        WIDE_KIND := before[WIDE_KIND] + [WideCode(record)]][
        WIDE_A := before[WIDE_A] + U64(record.a)][
        WIDE_B := before[WIDE_B] + U64(record.b)][
        WIDE_C := before[WIDE_C] + U64(record.c)]
    ensures Below(WidesPushed(c, wides[..i + 1]), WidesPushed(c, wides))
  {
    hide U64, Col64, Map, WideCode;
    WideStep(wides, i);
    WidePrefix(wides, i + 1);
    Assoc(c[WIDE_KIND], Map(WideCode, wides[..i]), [WideCode(wides[i])]);
    Assoc(c[WIDE_A], Col64(Map(FieldA, wides[..i])), U64(wides[i].a));
    Assoc(c[WIDE_B], Col64(Map(FieldB, wides[..i])), U64(wides[i].b));
    Assoc(c[WIDE_C], Col64(Map(FieldC, wides[..i])), U64(wides[i].c));
  }

  lemma NoWidesPushed(c: seq<seq<byte>>, wides: seq<WideRecord>)
    requires |c| == STREAMS
    ensures WidesPushed(c, wides[..0]) == c
  {
    Nothing(c[WIDE_KIND]);
    Nothing(c[WIDE_A]);
    Nothing(c[WIDE_B]);
    Nothing(c[WIDE_C]);
  }

  method WriteWides(w: SegmentWriter, wides: seq<WideRecord>) returns (r: Result<()>)
    requires w.Valid()
    modifies w`states, w`payload, w`contents
    ensures |old(w.contents)| == STREAMS
    ensures r.Ok? <==> WidesKnown(wides) && Fitting(WidesPushed(old(w.contents), wides), w.blockSize)
    ensures r.Ok? ==> w.Valid() && w.contents == WidesPushed(old(w.contents), wides)
  {
    hide Ready, Fitting, WidesPushed;
    ghost var c0 := w.contents;
    NoWidesPushed(c0, wides);
    for i := 0 to |wides|
      invariant w.Valid() && WidesKnown(wides[..i]) && w.contents == WidesPushed(c0, wides[..i])
    {
      if WideCode(wides[i]) == 2 { return Err(Format); }
      WidesPushedStep(c0, wides, i);
      var ok := WriteWide(w, wides[i]);
      if !ok {
        if Fitting(WidesPushed(c0, wides), w.blockSize) {
          FittingBelow(WidesPushed(c0, wides[..i + 1]), WidesPushed(c0, wides), w.blockSize);
        }
        return Err(Format);
      }
    }
    assert wides[..|wides|] == wides;
    w.Fits();
    return Ok(());
  }

  function VersionsPushed(contents: seq<seq<byte>>, roots: seq<Option<u64>>,
                          parents: seq<Option<u32>>): (r: seq<seq<byte>>)
    requires |contents| == STREAMS
    ensures |r| == STREAMS
  {
    contents[
      VERSION_ROOT := contents[VERSION_ROOT] + Col64(Map(RawRoot, roots))][
      VERSION_PARENT := contents[VERSION_PARENT] + Col32(Map(RawParent, parents))]
  }

  lemma VersionsPushedStep(c: seq<seq<byte>>, roots: seq<Option<u64>>, parents: seq<Option<u32>>, i: nat)
    requires |c| == STREAMS && i < |roots| == |parents|
    ensures var before := VersionsPushed(c, roots[..i], parents[..i]);
      VersionsPushed(c, roots[..i + 1], parents[..i + 1]) == before[
        VERSION_ROOT := before[VERSION_ROOT] + U64(RawRoot(roots[i]))][
        VERSION_PARENT := before[VERSION_PARENT] + U32(RawParent(parents[i]))]
    ensures Below(VersionsPushed(c, roots[..i + 1], parents[..i + 1]), VersionsPushed(c, roots, parents))
  {
    hide U64, U32, Col32, Col64, Map, RawRoot, RawParent;
    MapStep(RawRoot, roots, i);
    MapStep(RawParent, parents, i);
    Col64Append(Map(RawRoot, roots[..i]), RawRoot(roots[i]));
    Col32Append(Map(RawParent, parents[..i]), RawParent(parents[i]));
    Assoc(c[VERSION_ROOT], Col64(Map(RawRoot, roots[..i])), U64(RawRoot(roots[i])));
    Assoc(c[VERSION_PARENT], Col32(Map(RawParent, parents[..i])), U32(RawParent(parents[i])));
    assert roots == roots[..i + 1] + roots[i + 1..] && parents == parents[..i + 1] + parents[i + 1..];
    MapCol64(RawRoot, roots[..i + 1], roots[i + 1..]);
    MapCol32(RawParent, parents[..i + 1], parents[i + 1..]);
  }

  lemma NoVersionsPushed(c: seq<seq<byte>>, roots: seq<Option<u64>>, parents: seq<Option<u32>>)
    requires |c| == STREAMS
    ensures VersionsPushed(c, roots[..0], parents[..0]) == c
  {
    Nothing(c[VERSION_ROOT]);
    Nothing(c[VERSION_PARENT]);
  }

  method WriteVersions(w: SegmentWriter, roots: seq<Option<u64>>, parents: seq<Option<u32>>) returns (ok: bool)
    requires w.Valid() && |roots| == |parents|
    modifies w`states, w`payload, w`contents
    ensures |old(w.contents)| == STREAMS
    ensures ok <==> Fitting(VersionsPushed(old(w.contents), roots, parents), w.blockSize)
    ensures ok ==> w.Valid() && w.contents == VersionsPushed(old(w.contents), roots, parents)
  {
    hide Ready, U64, U32, VersionsPushed, FullBlocksFit, RawRoot, RawParent;
    ghost var c0 := w.contents;
    NoVersionsPushed(c0, roots, parents);
    for i := 0 to |roots|
      invariant w.Valid() && w.contents == VersionsPushed(c0, roots[..i], parents[..i])
    {
      VersionsPushedStep(c0, roots, parents, i);
      ghost var next := VersionsPushed(c0, roots[..i + 1], parents[..i + 1]);
      ok := w.Push(VERSION_ROOT, U64(RawRoot(roots[i])));
      if !ok {
        assert !FullBlocksFit(next[VERSION_ROOT], w.blockSize);
        if Fitting(VersionsPushed(c0, roots, parents), w.blockSize) {
          FittingBelow(next, VersionsPushed(c0, roots, parents), w.blockSize);
        }
        return;
      }
      ok := w.Push(VERSION_PARENT, U32(RawParent(parents[i])));
      if !ok {
        assert !FullBlocksFit(next[VERSION_PARENT], w.blockSize);
        if Fitting(VersionsPushed(c0, roots, parents), w.blockSize) {
          FittingBelow(next, VersionsPushed(c0, roots, parents), w.blockSize);
        }
        return;
      }
    }
    assert roots[..|roots|] == roots && parents[..|parents|] == parents;
    w.Fits();
    ok := true;
  }

  /** One more name in a table of offsets and bytes. The table so far is what
      `names` need; a fresh table begins with a zero offset. */
  method WriteName(w: SegmentWriter, offsets: nat, bytes: nat, name: Id, ghost names: seq<Id>)
    returns (r: Result<()>)
    requires w.Valid() && offsets < STREAMS && bytes < STREAMS && offsets != bytes
    requires TableFits(names)
    requires w.starts[offsets] + |w.contents[offsets]| == |OffsetBytes(names)|
    requires w.starts[bytes] + |w.contents[bytes]| == |Joined(names)|
    modifies w`states, w`payload, w`contents
    ensures var after := old(w.contents)[
      offsets := old(w.contents[offsets]) + OffsetDelta(names, name)][
      bytes := old(w.contents[bytes]) + name];
      && (r.Ok? <==> TableFits(names + [name]) && Fitting(after, w.blockSize))
      && (r.Ok? ==> w.Valid() && w.contents == after)
  {
    hide U32, Col32, Ends, Joined, Staged, FullBlocksFit;
    ghost var c0 := w.contents;
    ghost var after := c0[offsets := c0[offsets] + OffsetDelta(names, name)][bytes := c0[bytes] + name];
    JoinedAppend(names, name);
    assert names == [] <==> OffsetBytes(names) == [];
    if w.CurrentStreamLen(offsets) == 0 {
      var first := w.Push(offsets, U32(0));
      if !first {
        if Fitting(after, w.blockSize) { FullPrefix(c0[offsets] + U32(0), after[offsets], w.blockSize); }
        return Err(Format);
      }
    }
    var named := w.Push(bytes, name);
    if !named {
      assert !FullBlocksFit(after[bytes], w.blockSize);
      return Err(Format);
    }
    var end := w.CurrentStreamLen(bytes);
    assert end == |Joined(names + [name])|;
    if end > U32_MAX { return Err(Format); }
    var ended := w.Push(offsets, U32(end));
    assert (if names == [] then c0[offsets] + U32(0) else c0[offsets]) + U32(end)
        == c0[offsets] + OffsetDelta(names, name);
    if !ended {
      assert !FullBlocksFit(after[offsets], w.blockSize);
      return Err(Format);
    }
    w.Fits();
    assert w.contents == after;
    return Ok(());
  }

  /** The fixed-width fields that follow a checkpoint's name. */
  method WriteCheckpointFields(w: SegmentWriter, c: Checkpoint, parentOrdinal: u32) returns (ok: bool)
    requires w.Valid()
    modifies w`states, w`payload, w`contents
    ensures var after := old(w.contents)[
      CP_PARENT_ORDINAL := old(w.contents[CP_PARENT_ORDINAL]) + U32(parentOrdinal)][
      CP_IDENTITY_VERSION := old(w.contents[CP_IDENTITY_VERSION]) + U32(IdentityOf(c))][
      CP_MESSAGES_VERSION := old(w.contents[CP_MESSAGES_VERSION]) + U32(MessagesOf(c))][
      CP_RESULT_VERSION := old(w.contents[CP_RESULT_VERSION]) + U32(ResultOf(c))][
      CP_LOGICAL_LEN := old(w.contents[CP_LOGICAL_LEN]) + U64(LenOf(c))][
      CP_STATE_HASH := old(w.contents[CP_STATE_HASH]) + U64(HashOf(c))];
      (ok <==> Fitting(after, w.blockSize)) && (ok ==> w.Valid() && w.contents == after)
  {
    hide Ready, U64, U32, FullBlocksFit;
    ghost var after := w.contents[
      CP_PARENT_ORDINAL := w.contents[CP_PARENT_ORDINAL] + U32(parentOrdinal)][
      CP_IDENTITY_VERSION := w.contents[CP_IDENTITY_VERSION] + U32(IdentityOf(c))][
      CP_MESSAGES_VERSION := w.contents[CP_MESSAGES_VERSION] + U32(MessagesOf(c))][
      CP_RESULT_VERSION := w.contents[CP_RESULT_VERSION] + U32(ResultOf(c))][
      CP_LOGICAL_LEN := w.contents[CP_LOGICAL_LEN] + U64(LenOf(c))][
      CP_STATE_HASH := w.contents[CP_STATE_HASH] + U64(HashOf(c))];
    ok := w.Push(CP_PARENT_ORDINAL, U32(parentOrdinal));
    if !ok {
      assert !FullBlocksFit(after[CP_PARENT_ORDINAL], w.blockSize);
      return;
    }
    ok := w.Push(CP_IDENTITY_VERSION, U32(c.identityVersion));
    if !ok {
      assert !FullBlocksFit(after[CP_IDENTITY_VERSION], w.blockSize);
      return;
    }
    ok := w.Push(CP_MESSAGES_VERSION, U32(RawVersion(c.messagesVersion)));
    if !ok {
      assert !FullBlocksFit(after[CP_MESSAGES_VERSION], w.blockSize);
      return;
    }
    ok := w.Push(CP_RESULT_VERSION, U32(RawVersion(c.resultVersion)));
    if !ok {
      assert !FullBlocksFit(after[CP_RESULT_VERSION], w.blockSize);
      return;
    }
    ok := w.Push(CP_LOGICAL_LEN, U64(c.logicalLen));
    if !ok {
      assert !FullBlocksFit(after[CP_LOGICAL_LEN], w.blockSize);
      return;
    }
    ok := w.Push(CP_STATE_HASH, U64(c.stateHash));
    if !ok {
      assert !FullBlocksFit(after[CP_STATE_HASH], w.blockSize);
      return;
    }
    w.Fits();
  }

  function AddedBy(s: StoreState, tx: Transaction): Additions {
    var c := tx.checkpoint;
    Additions(
      if c.thread in s.threadOrdinals then [] else [(c.thread, |s.threads|)],
      [(c.Name(), c.ordinal)],
      if tx.request.None? then [] else [RequestRecord(tx.request.value, tx.digest, c.ordinal)])
  }

  function Plus(a: Additions, b: Additions): Additions {
    Additions(a.threads + b.threads, a.checkpoints + b.checkpoints, a.requests + b.requests)
  }

  /** A writer stands where the streams of `s` end. */
  ghost predicate StandsAt(starts: seq<nat>, contents: seq<seq<byte>>, s: StoreState)
    requires NamesFit(s)
  {
    && |starts| == |contents| == STREAMS
    && forall id :: 0 <= id < STREAMS ==> starts[id] + |contents[id]| == |StreamsOf(s)[id]|
  }

  /** Contents of which the streams below `n` have been given their part. */
  function Grown(before: seq<seq<byte>>, parts: seq<seq<byte>>, n: nat): (r: seq<seq<byte>>)
    requires |before| == |parts| == STREAMS
    ensures |r| == STREAMS
    ensures forall id :: 0 <= id < STREAMS ==> r[id] == if id < n then before[id] + parts[id] else before[id]
  {
    seq(STREAMS, id requires 0 <= id < STREAMS => if id < n then before[id] + parts[id] else before[id])
  }

  /** Streams below `n` grew by the matching part, the others not yet. */
  ghost predicate GrownBelow(before: seq<seq<byte>>, after: seq<seq<byte>>, parts: seq<seq<byte>>, n: nat) {
    && |before| == |parts| == STREAMS && after == Grown(before, parts, n)
  }

  lemma FittingGrown(before: seq<seq<byte>>, parts: seq<seq<byte>>, m: nat, n: nat, blockSize: nat)
    requires |before| == |parts| == STREAMS && m <= n
    ensures Fitting(Grown(before, parts, n), blockSize) ==> Fitting(Grown(before, parts, m), blockSize)
  {
    hide Fitting;
    if Fitting(Grown(before, parts, n), blockSize) {
      FittingBelow(Grown(before, parts, m), Grown(before, parts, n), blockSize);
    }
  }

  predicate DataParts(tx: Transaction, parts: seq<seq<byte>>)
    requires |parts| == STREAMS
  {
    && parts[PAYLOAD] == tx.payload
    && parts[NODE_FIELD0] == Col64(Map(Field0, tx.nodes))
    && parts[NODE_FIELD1] == Col32(Map(Field1, tx.nodes))
    && parts[NODE_KIND] == Map(KindCode, tx.nodes)
    && parts[WIDE_KIND] == Map(WideCode, tx.wides)
    && parts[WIDE_A] == Col64(Map(FieldA, tx.wides))
    && parts[WIDE_B] == Col64(Map(FieldB, tx.wides))
    && parts[WIDE_C] == Col64(Map(FieldC, tx.wides))
    && parts[VERSION_ROOT] == Col64(Map(RawRoot, tx.roots))
    && parts[VERSION_PARENT] == Col32(Map(RawParent, tx.parents))
  }

  /** Pushing the data of a transaction stream by stream. */
  lemma DataGrown(c: seq<seq<byte>>, tx: Transaction, parts: seq<seq<byte>>)
    requires |c| == |parts| == STREAMS && DataParts(tx, parts)
    ensures c[PAYLOAD := c[PAYLOAD] + tx.payload] == Grown(c, parts, NODE_FIELD0)
    ensures NodesPushed(Grown(c, parts, NODE_FIELD0), tx.nodes) == Grown(c, parts, WIDE_KIND)
    ensures WidesPushed(Grown(c, parts, WIDE_KIND), tx.wides) == Grown(c, parts, VERSION_ROOT)
    ensures VersionsPushed(Grown(c, parts, VERSION_ROOT), tx.roots, tx.parents) == Grown(c, parts, THREAD_OFFSETS)
  {
    hide Col32, Col64, Map;
  }

  /** Payload, nodes, wide records and versions. */
  method WriteData(w: SegmentWriter, tx: Transaction, ghost parts: seq<seq<byte>>) returns (r: Result<()>)
    requires w.Valid() && |tx.roots| == |tx.parents|
    requires |parts| == STREAMS && DataParts(tx, parts)
    modifies w`states, w`payload, w`contents
    ensures |old(w.contents)| == STREAMS
    ensures r.Ok? <==>
      && KindsKnown(tx.nodes) && WidesKnown(tx.wides)
      && Fitting(Grown(old(w.contents), parts, THREAD_OFFSETS), w.blockSize)
    ensures r.Ok? ==> w.Valid() && GrownBelow(old(w.contents), w.contents, parts, THREAD_OFFSETS)
  {
    hide Ready, Fitting, Grown, DataParts, NodesPushed, WidesPushed, VersionsPushed, KindsKnown, WidesKnown;
    ghost var c0 := w.contents;
    DataGrown(c0, tx, parts);
    FittingGrown(c0, parts, NODE_FIELD0, THREAD_OFFSETS, w.blockSize);
    FittingGrown(c0, parts, WIDE_KIND, THREAD_OFFSETS, w.blockSize);
    FittingGrown(c0, parts, VERSION_ROOT, THREAD_OFFSETS, w.blockSize);
    var ok := w.Push(PAYLOAD, tx.payload);
    if !ok {
      UnfitAt(c0[PAYLOAD := c0[PAYLOAD] + tx.payload], PAYLOAD, w.blockSize);
      return Err(Format);
    }
    r := WriteNodes(w, tx.nodes);
    if r.Err? { return; }
    r := WriteWides(w, tx.wides);
    if r.Err? { return; }
    ok := WriteVersions(w, tx.roots, tx.parents);
    if !ok { return Err(Format); }
  }

  lemma UnfitAt(contents: seq<seq<byte>>, id: nat, blockSize: nat)
    requires |contents| == STREAMS && id < STREAMS && !FullBlocksFit(contents[id], blockSize)
    ensures !Fitting(contents, blockSize)
  {
    hide FullBlocksFit;
  }

  /** A thread seen for the first time joins the thread table. Ordinals are
      dense, so one beyond the next is impossible. */
  method WriteThread(w: SegmentWriter, thread: Id, ordinal: nat, nextThread: nat,
                     ghost names: seq<Id>, ghost before: seq<seq<byte>>, ghost parts: seq<seq<byte>>)
    returns (r: Result<bool>)
    requires w.Valid() && TableFits(names) && nextThread == |names| && ordinal <= |names|
    requires w.starts[THREAD_OFFSETS] + |w.contents[THREAD_OFFSETS]| == |OffsetBytes(names)|
    requires w.starts[THREAD_BYTES] + |w.contents[THREAD_BYTES]| == |Joined(names)|
    requires GrownBelow(before, w.contents, parts, THREAD_OFFSETS)
    requires if ordinal < |names| then parts[THREAD_OFFSETS] == parts[THREAD_BYTES] == []
             else parts[THREAD_OFFSETS] == OffsetDelta(names, thread) && parts[THREAD_BYTES] == thread
    modifies w`states, w`payload, w`contents
    ensures r.Ok? <==>
      (ordinal == |names| ==> TableFits(names + [thread])) && Fitting(Grown(before, parts, CP_THREAD), w.blockSize)
    ensures r.Ok? ==>
      w.Valid() && r.value == (ordinal == |names|) && GrownBelow(before, w.contents, parts, CP_THREAD)
  {
    hide Ready, OffsetDelta, OffsetBytes, Joined, TableFits, Ends, Fitting;
    if ordinal == nextThread {
      assert Grown(before, parts, CP_THREAD) == w.contents[
        THREAD_OFFSETS := w.contents[THREAD_OFFSETS] + OffsetDelta(names, thread)][
        THREAD_BYTES := w.contents[THREAD_BYTES] + thread];
      var named := WriteName(w, THREAD_OFFSETS, THREAD_BYTES, thread, names);
      if named.Err? { return Err(Format); }
      return Ok(true);
    } else if ordinal > nextThread {
      assert false;
    }
    w.Fits();
    Nothing(w.contents[THREAD_OFFSETS]);
    Nothing(w.contents[THREAD_BYTES]);
    assert w.contents == Grown(before, parts, CP_THREAD);
    return Ok(false);
  }

  /** Thread ordinal, number and name of the checkpoint. */
  method WriteCheckpointName(w: SegmentWriter, c: Checkpoint, ordinal: u32,
                             ghost ids: seq<Id>, ghost before: seq<seq<byte>>, ghost parts: seq<seq<byte>>)
    returns (r: Result<()>)
    requires w.Valid() && TableFits(ids)
    requires w.starts[CP_ID_OFFSETS] + |w.contents[CP_ID_OFFSETS]| == |OffsetBytes(ids)|
    requires w.starts[CP_ID_BYTES] + |w.contents[CP_ID_BYTES]| == |Joined(ids)|
    requires GrownBelow(before, w.contents, parts, CP_THREAD)
    requires parts[CP_THREAD] == U32(ordinal) && parts[CP_NO] == U32(c.number)
    requires parts[CP_ID_OFFSETS] == OffsetDelta(ids, c.id) && parts[CP_ID_BYTES] == c.id
    modifies w`states, w`payload, w`contents
    ensures r.Ok? <==>
      TableFits(ids + [c.id]) && Fitting(Grown(before, parts, CP_PARENT_ORDINAL), w.blockSize)
    ensures r.Ok? ==> w.Valid() && GrownBelow(before, w.contents, parts, CP_PARENT_ORDINAL)
  {
    hide Ready, U32, OffsetDelta, OffsetBytes, Joined, TableFits, Ends, FullBlocksFit;
    ghost var c0, after := w.contents, Grown(before, parts, CP_PARENT_ORDINAL);
    var ok := w.Push(CP_THREAD, U32(ordinal));
    if !ok {
      assert !FullBlocksFit(after[CP_THREAD], w.blockSize);
      return Err(Format);
    }
    ok := w.Push(CP_NO, U32(c.number));
    if !ok {
      assert !FullBlocksFit(after[CP_NO], w.blockSize);
      return Err(Format);
    }
    assert after == w.contents[CP_ID_OFFSETS := w.contents[CP_ID_OFFSETS] + OffsetDelta(ids, c.id)][
      CP_ID_BYTES := w.contents[CP_ID_BYTES] + c.id];
    r := WriteName(w, CP_ID_OFFSETS, CP_ID_BYTES, c.id, ids);
  }

  predicate FieldParts(c: Checkpoint, parentOrdinal: u32, parts: seq<seq<byte>>)
    requires |parts| == STREAMS
  {
    && parts[CP_PARENT_ORDINAL] == U32(parentOrdinal)
    && parts[CP_IDENTITY_VERSION] == U32(IdentityOf(c))
    && parts[CP_MESSAGES_VERSION] == U32(MessagesOf(c))
    && parts[CP_RESULT_VERSION] == U32(ResultOf(c))
    && parts[CP_LOGICAL_LEN] == U64(LenOf(c))
    && parts[CP_STATE_HASH] == U64(HashOf(c))
  }

  method WriteRest(w: SegmentWriter, c: Checkpoint, parentOrdinal: u32,
                   ghost before: seq<seq<byte>>, ghost parts: seq<seq<byte>>) returns (ok: bool)
    requires w.Valid() && GrownBelow(before, w.contents, parts, CP_PARENT_ORDINAL)
    requires FieldParts(c, parentOrdinal, parts)
    modifies w`states, w`payload, w`contents
    ensures ok <==> Fitting(Grown(before, parts, STREAMS), w.blockSize)
    ensures ok ==> w.Valid() && GrownBelow(before, w.contents, parts, STREAMS)
  {
    hide Ready, U32, U64, Fitting;
    assert Grown(before, parts, STREAMS) == w.contents[
      CP_PARENT_ORDINAL := w.contents[CP_PARENT_ORDINAL] + U32(parentOrdinal)][
      CP_IDENTITY_VERSION := w.contents[CP_IDENTITY_VERSION] + U32(IdentityOf(c))][
      CP_MESSAGES_VERSION := w.contents[CP_MESSAGES_VERSION] + U32(MessagesOf(c))][
      CP_RESULT_VERSION := w.contents[CP_RESULT_VERSION] + U32(ResultOf(c))][
      CP_LOGICAL_LEN := w.contents[CP_LOGICAL_LEN] + U64(LenOf(c))][
      CP_STATE_HASH := w.contents[CP_STATE_HASH] + U64(HashOf(c))];
    ok := WriteCheckpointFields(w, c, parentOrdinal);
  }

  // Where the ordinals of a commit stand in any later state

  lemma OrdinalsOf(s: StoreState, tx: Transaction, final: StoreState)
    requires Admitted(s, tx) && Later(Apply(s, tx), final)
    ensures var c := tx.checkpoint;
      && c.thread in final.threadOrdinals
      && final.threadOrdinals[c.thread] <= |s.threads| <= U32_MAX
      && (final.threadOrdinals[c.thread] == |s.threads| <==> c.thread !in s.threadOrdinals)
      && ThreadOrdinal(final, c) == final.threadOrdinals[c.thread]
      && (c.parent.Some? ==>
           var k := Key(c.thread, c.parent.value);
           k in final.checkpointOrdinals && final.checkpointOrdinals[k] <= U32_MAX
           && ParentOrdinal(final, c) == final.checkpointOrdinals[k])
  {
    hide WellFormed, VersionsOk, RequestsOk, CheckpointsIndexed;
    ApplyKeepsInv(s, tx);
    var t := Apply(s, tx);
    var n := |s.checkpoints|;
    assert CheckpointOk(t, n) && t.checkpoints[n] == tx.checkpoint;
    ThreadOrdinalKnown(t, n);
    if tx.checkpoint.thread in s.threadOrdinals {
      assert tx.checkpoint.thread in s.threads;
    }
  }

  lemma DeltaParts(s: StoreState, tx: Transaction, final: StoreState)
    ensures var c, parts := tx.checkpoint, Delta(s, tx, final);
      && DataParts(tx, parts)
      && FieldParts(c, ParentOrdinal(final, c), parts)
      && parts[CP_THREAD] == U32(ThreadOrdinal(final, c)) && parts[CP_NO] == U32(c.number)
      && parts[CP_ID_OFFSETS] == OffsetDelta(Map(IdOf, s.checkpoints), c.id) && parts[CP_ID_BYTES] == c.id
      && (if c.thread in s.threadOrdinals then parts[THREAD_OFFSETS] == parts[THREAD_BYTES] == []
          else parts[THREAD_OFFSETS] == OffsetDelta(s.threads, c.thread) && parts[THREAD_BYTES] == c.thread)
  {
    hide Col32, Col64, Map, U32, U64, Joined, OffsetDelta, ThreadOrdinal, ParentOrdinal, IdentityOf, MessagesOf,
      ResultOf, LenOf, HashOf;
  }

  lemma NamesFitAfter(s: StoreState, tx: Transaction)
    requires NamesFit(s)
    ensures NamesFit(Apply(s, tx)) <==>
      && TableFits(Map(IdOf, s.checkpoints) + [tx.checkpoint.id])
      && (tx.checkpoint.thread !in s.threadOrdinals ==> TableFits(s.threads + [tx.checkpoint.thread]))
  {
    MapAppend(IdOf, s.checkpoints, [tx.checkpoint]);
    assert Map(IdOf, [tx.checkpoint]) == [tx.checkpoint.id];
  }

  lemma StandsAtTables(starts: seq<nat>, contents: seq<seq<byte>>, s: StoreState)
    requires NamesFit(s) && StandsAt(starts, contents, s)
    ensures TableFits(s.threads) && TableFits(Map(IdOf, s.checkpoints))
    ensures |starts| == |contents| == STREAMS
    ensures starts[THREAD_OFFSETS] + |contents[THREAD_OFFSETS]| == |OffsetBytes(s.threads)|
    ensures starts[THREAD_BYTES] + |contents[THREAD_BYTES]| == |Joined(s.threads)|
    ensures starts[CP_ID_OFFSETS] + |contents[CP_ID_OFFSETS]| == |OffsetBytes(Map(IdOf, s.checkpoints))|
    ensures starts[CP_ID_BYTES] + |contents[CP_ID_BYTES]| == |Joined(Map(IdOf, s.checkpoints))|
  {
    hide StreamsOf, Map, Joined, OffsetBytes, TableFits;
    TableStreams(s);
  }

  lemma NodesKnown(s: StoreState, tx: Transaction)
    requires Admitted(s, tx)
    ensures KindsKnown(tx.nodes)
  {
    hide Inv, Sound;
    forall i | 0 <= i < |tx.nodes|
      ensures KindCode(tx.nodes[i]) != 3
    {
      assert SlotValid(s, tx, tx.nodes[i], s.Watermarks().nodeCount + i);
    }
  }

  lemma StandsAfter(starts: seq<nat>, before: seq<seq<byte>>, after: seq<seq<byte>>,
                    s: StoreState, tx: Transaction, final: StoreState)
    requires Admitted(s, tx) && Later(Apply(s, tx), final) && NamesFit(Apply(s, tx)) && NamesFit(s)
    requires StandsAt(starts, before, s)
    requires GrownBelow(before, after, Delta(s, tx, final), STREAMS)
    ensures StandsAt(starts, after, Apply(s, tx))
  {
    hide Inv, Prepare, Sound, NamesFit, Later, StreamsOf, Delta, Apply;
    StreamsGrow(s, tx, final);
    forall id | 0 <= id < STREAMS
      ensures starts[id] + |after[id]| == |StreamsOf(Apply(s, tx))[id]|
    {
      assert GrowsBy(s, tx, final, id);
    }
  }

  /** The name tables are still where the state left them. */
  lemma TablesUntouched(before: seq<seq<byte>>, after: seq<seq<byte>>, parts: seq<seq<byte>>, n: nat)
    requires GrownBelow(before, after, parts, n) && n < STREAMS
    ensures n <= THREAD_OFFSETS ==>
      after[THREAD_OFFSETS] == before[THREAD_OFFSETS] && after[THREAD_BYTES] == before[THREAD_BYTES]
    ensures n <= CP_THREAD ==>
      after[CP_ID_OFFSETS] == before[CP_ID_OFFSETS] && after[CP_ID_BYTES] == before[CP_ID_BYTES]
  {
  }

  lemma RootsPaired(tx: Transaction)
    requires Sound(tx)
    ensures |tx.roots| == |tx.parents|
  {
  }

  lemma NoParent(state: StoreState, c: Checkpoint)
    requires c.parent.None?
    ensures ParentOrdinal(state, c) == NONE_PARENT
  {
  }

  /** One committed transaction, in the order the source pushes its parts. The
      ordinals come from the committed state, which may already hold later
      commits. Every stream grows by exactly its part, and this fails exactly on
      a wide record of unknown kind, a full name table, or a block that does not
      compress into its field. */
  method WriteTransaction(w: SegmentWriter, tx: Transaction, state: StoreState, nextThread: nat, added: Additions,
                          ghost s: StoreState)
    returns (r: Result<(nat, Additions)>)
    requires w.Valid() && Admitted(s, tx) && Later(Apply(s, tx), state)
    requires NamesFit(s) && StandsAt(w.starts, w.contents, s) && nextThread == |s.threads|
    modifies w`states, w`payload, w`contents
    ensures |old(w.contents)| == STREAMS
    ensures r.Ok? <==>
      && WidesKnown(tx.wides) && NamesFit(Apply(s, tx))
      && Fitting(Grown(old(w.contents), Delta(s, tx, state), STREAMS), w.blockSize)
    ensures r.Ok? ==>
      && w.Valid() && GrownBelow(old(w.contents), w.contents, Delta(s, tx, state), STREAMS)
      && StandsAt(w.starts, w.contents, Apply(s, tx))
      && r.value == (|Apply(s, tx).threads|, Plus(added, AddedBy(s, tx)))
  {
    hide Inv, Prepare, Sound, NamesFit, Later, StreamsOf, Delta, DataParts, FieldParts, StandsAt, Joined, OffsetBytes,
      TableFits, Map, U32, OffsetDelta, ThreadOrdinal, ParentOrdinal, GrownBelow, Grown, Fitting, KindsKnown,
      WidesKnown, SegmentWriter.Valid;
    w.Fits();
    var c := tx.checkpoint;
    ghost var before, parts := w.contents, Delta(s, tx, state);
    OrdinalsOf(s, tx, state);
    DeltaParts(s, tx, state);
    NamesFitAfter(s, tx);
    StandsAtTables(w.starts, before, s);
    NodesKnown(s, tx);
    RootsPaired(tx);
    FittingGrown(before, parts, THREAD_OFFSETS, STREAMS, w.blockSize);
    FittingGrown(before, parts, CP_THREAD, STREAMS, w.blockSize);
    FittingGrown(before, parts, CP_PARENT_ORDINAL, STREAMS, w.blockSize);
    var data := WriteData(w, tx, parts);
    if data.Err? { return Err(Format); }
    TablesUntouched(before, w.contents, parts, THREAD_OFFSETS);
    var ordinal := state.threadOrdinals[c.thread];
    var isNew := WriteThread(w, c.thread, ordinal, nextThread, s.threads, before, parts);
    if isNew.Err? { return Err(Format); }
    TablesUntouched(before, w.contents, parts, CP_THREAD);
    var named := WriteCheckpointName(w, c, ordinal, Map(IdOf, s.checkpoints), before, parts);
    if named.Err? { return Err(Format); }
    var parentOrdinal: u32 := if c.parent.None? then NONE_PARENT
      else state.checkpointOrdinals[Key(c.thread, c.parent.value)];
    if c.parent.None? { NoParent(state, c); }
    var ok := WriteRest(w, c, parentOrdinal, before, parts);
    if !ok { return Err(Format); }
    StandsAfter(w.starts, before, w.contents, s, tx, state);
    var request := if tx.request.None? then []
      else [RequestRecord(tx.request.value, tx.digest, c.ordinal)];
    var threads := if isNew.value then [(c.thread, ordinal)] else [];
    return Ok((if isNew.value then nextThread + 1 else nextThread,
               Additions(added.threads + threads, added.checkpoints + [(c.Name(), c.ordinal)],
                         added.requests + request)));
  }

  // Sealing a generation

  function AddedByAll(s: StoreState, txs: seq<Transaction>): Additions
    decreases |txs|
  {
    if txs == [] then Additions([], [], [])
    else Plus(AddedBy(s, txs[0]), AddedByAll(Apply(s, txs[0]), txs[1..]))
  }

  lemma {:induction false} AddedByOneMore(s: StoreState, txs: seq<Transaction>, tx: Transaction)
    requires Replay(s, txs).Ok?
    ensures AddedByAll(s, txs + [tx]) == Plus(AddedByAll(s, txs), AddedBy(Replay(s, txs).value, tx))
    decreases |txs|
  {
    hide Prepare, AddedBy, Apply;
    if txs == [] {
      assert ([] + [tx])[1..] == [];
    } else {
      AddedByOneMore(Apply(s, txs[0]), txs[1..], tx);
      assert (txs + [tx])[1..] == txs[1..] + [tx];
    }
  }

  predicate ThreadAdded(s: StoreState, t: StoreState, added: Additions, i: nat)
    requires i < |added.threads| && |t.threads| == |s.threads| + |added.threads|
  {
    added.threads[i] == (t.threads[|s.threads| + i], |s.threads| + i)
  }

  predicate CheckpointAdded(s: StoreState, t: StoreState, added: Additions, i: nat)
    requires i < |added.checkpoints| && |t.checkpoints| == |s.checkpoints| + |added.checkpoints|
  {
    var j := |s.checkpoints| + i;
    added.checkpoints[i].0 == t.checkpoints[j].Name() && added.checkpoints[i].1 == t.checkpoints[j].ordinal == j
  }

  /** The names of `t` that `s` does not have, each at its ordinal. */
  ghost predicate NamesAdded(s: StoreState, t: StoreState, added: Additions) {
    && |t.threads| == |s.threads| + |added.threads|
    && |t.checkpoints| == |s.checkpoints| + |added.checkpoints|
    && (forall i :: 0 <= i < |added.threads| ==> ThreadAdded(s, t, added, i))
    && (forall i :: 0 <= i < |added.checkpoints| ==> CheckpointAdded(s, t, added, i))
  }

  /** What a generation lists is what its transactions add to threads and
      checkpoints, in commit order. */
  lemma {:induction false} NamesAreAdded(s: StoreState, txs: seq<Transaction>)
    requires Inv(s) && (forall t :: t in txs ==> Sound(t)) && Replay(s, txs).Ok?
    ensures NamesAdded(s, Replay(s, txs).value, AddedByAll(s, txs))
    decreases |txs|
  {
    hide Inv, Prepare, Sound, Apply, AddedBy, NamesAdded;
    if txs == [] {
      assert NamesAdded(s, s, AddedByAll(s, [])) by { NoneAdded(s); }
    } else {
      var n := |txs| - 1;
      var init, tx := txs[..n], txs[n];
      assert txs == init + [tx] && txs[..n + 1] == txs;
      ReplayStep(s, txs, n);
      NamesAreAdded(s, init);
      AddedByOneMore(s, init, tx);
      ReplayKeepsInv(s, txs);
      OneAdded(s, Replay(s, init).value, AddedByAll(s, init), tx);
    }
  }

  lemma NoneAdded(s: StoreState)
    ensures NamesAdded(s, s, AddedByAll(s, []))
  {
  }

  lemma OneAdded(s: StoreState, t: StoreState, added: Additions, tx: Transaction)
    requires NamesAdded(s, t, added) && Inv(Apply(t, tx))
    ensures NamesAdded(s, Apply(t, tx), Plus(added, AddedBy(t, tx)))
  {
    hide Inv;
    var after, all := Apply(t, tx), Plus(added, AddedBy(t, tx));
    LastOrdinal(after);
    forall i | 0 <= i < |all.threads|
      ensures ThreadAdded(s, after, all, i)
    {
      if i < |added.threads| { assert ThreadAdded(s, t, added, i); }
    }
    forall i | 0 <= i < |all.checkpoints|
      ensures CheckpointAdded(s, after, all, i)
    {
      if i < |added.checkpoints| { assert CheckpointAdded(s, t, added, i); }
    }
  }

  lemma LastOrdinal(s: StoreState)
    requires Inv(s)
    ensures s.checkpoints != [] ==> s.checkpoints[|s.checkpoints| - 1].ordinal == |s.checkpoints| - 1
  {
    if s.checkpoints != [] { assert CheckpointOk(s, |s.checkpoints| - 1); }
  }

  lemma LaterChains(a: StoreState, b: StoreState, c: StoreState)
    requires Later(a, b) && Later(b, c)
    ensures Later(a, c)
  {
  }

  lemma {:induction false} ReplayIsLater(s: StoreState, txs: seq<Transaction>)
    requires Replay(s, txs).Ok?
    ensures Later(s, Replay(s, txs).value)
    decreases |txs|
  {
    if txs != [] {
      assert Later(s, Apply(s, txs[0]));
      ReplayIsLater(Apply(s, txs[0]), txs[1..]);
      LaterChains(s, Apply(s, txs[0]), Replay(s, txs).value);
    }
  }

  lemma {:induction false} NamesFitEarlier(s: StoreState, txs: seq<Transaction>)
    requires Replay(s, txs).Ok? && NamesFit(Replay(s, txs).value)
    ensures NamesFit(s)
    decreases |txs|
  {
    hide Prepare, NamesFit;
    if txs != [] {
      NamesFitEarlier(Apply(s, txs[0]), txs[1..]);
      NamesFitBefore(s, txs[0]);
    }
  }

  /** Replaying one transaction more. */
  lemma ReplayStep(s: StoreState, txs: seq<Transaction>, i: nat)
    requires Replay(s, txs).Ok? && i < |txs|
    ensures Replay(s, txs[..i]).Ok?
    ensures var t := Replay(s, txs[..i]).value;
      && Prepare(t, txs[i]).Ok?
      && Replay(s, txs[..i + 1]) == Ok(Apply(t, txs[i]))
      && Replay(Apply(t, txs[i]), txs[i + 1..]) == Replay(s, txs)
  {
    hide Prepare, Apply;
    ReplayPrefix(s, txs, i);
    var t := Replay(s, txs[..i]).value;
    assert txs == txs[..i] + txs[i..];
    ReplayConcat(s, txs[..i], txs[i..]);
    assert txs[i..][0] == txs[i] && txs[i..][1..] == txs[i + 1..];
    assert Prepare(t, txs[i]).Ok?;
    assert txs[..i + 1] == txs[..i] + [txs[i]];
    ReplayConcat(s, txs[..i], [txs[i]]);
    assert [txs[i]][1..] == [];
    assert Replay(Apply(t, txs[i]), []) == Ok(Apply(t, txs[i]));
  }

  lemma {:induction false} ReplayPrefix(s: StoreState, txs: seq<Transaction>, i: nat)
    requires Replay(s, txs).Ok? && i <= |txs|
    ensures Replay(s, txs[..i]).Ok?
    decreases |txs|
  {
    hide Prepare, Apply;
    if i > 0 {
      ReplayPrefix(Apply(s, txs[0]), txs[1..], i - 1);
      assert txs[..i][0] == txs[0] && txs[..i][1..] == txs[1..][..i - 1];
    }
  }

  /** Each stream of `before` continued by one part is the stream of `after`. */
  ghost predicate Continued(before: seq<seq<byte>>, parts: seq<seq<byte>>, after: seq<seq<byte>>) {
    && |before| == |parts| == |after| == STREAMS
    && forall id :: 0 <= id < STREAMS ==> after[id] == before[id] + parts[id]
  }

  lemma ContinuedStep(s0: seq<seq<byte>>, c0: seq<seq<byte>>, s: StoreState, tx: Transaction, final: StoreState,
                      c1: seq<seq<byte>>)
    requires Admitted(s, tx) && Later(Apply(s, tx), final) && NamesFit(Apply(s, tx)) && NamesFit(s)
    requires Continued(s0, c0, StreamsOf(s)) && GrownBelow(c0, c1, Delta(s, tx, final), STREAMS)
    ensures Continued(s0, c1, StreamsOf(Apply(s, tx)))
  {
    hide Inv, Prepare, Sound, NamesFit, Later, StreamsOf, Delta, Apply;
    StreamsGrow(s, tx, final);
    forall id | 0 <= id < STREAMS
      ensures StreamsOf(Apply(s, tx))[id] == s0[id] + c1[id]
    {
      assert GrowsBy(s, tx, final, id);
      Assoc(s0[id], c0[id], Delta(s, tx, final)[id]);
    }
  }

  predicate AllWidesKnown(txs: seq<Transaction>) {
    forall i :: 0 <= i < |txs| ==> WidesKnown(txs[i].wides)
  }

  /** Lengths of the sealed streams, where the next segment continues. */
  function Lengths(streams: seq<seq<byte>>): (r: seq<nat>)
    requires |streams| == STREAMS
    ensures |r| == STREAMS && forall id :: 0 <= id < STREAMS ==> r[id] == |streams[id]|
  {
    seq(STREAMS, id requires 0 <= id < STREAMS => |streams[id]|)
  }

  /** What each stream grows by. */
  ghost function Suffixes(before: seq<seq<byte>>, after: seq<seq<byte>>): (parts: seq<seq<byte>>)
    requires |before| == |after| == STREAMS && Below(before, after)
    ensures |parts| == STREAMS && Continued(before, parts, after)
  {
    seq(STREAMS, id requires 0 <= id < STREAMS => after[id][|before[id]|..])
  }

  /** Committing only ever adds to the end of a stream. */
  lemma {:induction false} StreamsBelow(s: StoreState, txs: seq<Transaction>)
    requires Inv(s) && (forall t :: t in txs ==> Sound(t)) && Replay(s, txs).Ok?
    requires NamesFit(Replay(s, txs).value)
    ensures NamesFit(s) && Below(StreamsOf(s), StreamsOf(Replay(s, txs).value))
    decreases |txs|
  {
    hide Inv, Sound, Prepare, Apply, NamesFit, StreamsOf, Later, Delta;
    if txs != [] {
      var t, final := Apply(s, txs[0]), Replay(s, txs).value;
      ApplyKeepsInv(s, txs[0]);
      StreamsBelow(t, txs[1..]);
      ReplayIsLater(t, txs[1..]);
      StreamsGrow(s, txs[0], final);
      forall id | 0 <= id < STREAMS
        ensures StreamsOf(s)[id] <= StreamsOf(final)[id]
      {
        assert GrowsBy(s, txs[0], final, id);
        assert StreamsOf(s)[id] <= StreamsOf(t)[id] <= StreamsOf(final)[id];
      }
    }
  }

  /** The transactions can go to one segment over the state `base`: their wide
      records have known kinds, the names fit the tables, and what the streams
      grow by fits a segment. */
  ghost predicate Sealable(base: StoreState, txs: seq<Transaction>, blockSize: nat)
    requires Inv(base) && (forall t :: t in txs ==> Sound(t)) && Replay(base, txs).Ok?
  {
    && AllWidesKnown(txs) && NamesFit(Replay(base, txs).value)
    && (StreamsBelow(base, txs);
        var before, after := StreamsOf(base), StreamsOf(Replay(base, txs).value);
        Packs(Lengths(before), Suffixes(before, after), blockSize))
  }

  /** A part that does not fit keeps the whole from being sealed. */
  lemma UnfitPart(base: StoreState, txs: seq<Transaction>, blockSize: nat, i: nat, contents: seq<seq<byte>>,
                  state: StoreState)
    requires Inv(base) && (forall t :: t in txs ==> Sound(t)) && Replay(base, txs).Ok? && i < |txs|
    requires Replay(base, txs[..i]).Ok? && Inv(Replay(base, txs[..i]).value) && NamesFit(base)
    requires NamesFit(Replay(base, txs[..i]).value)
    requires Continued(StreamsOf(base), contents, StreamsOf(Replay(base, txs[..i]).value))
    requires Later(Apply(Replay(base, txs[..i]).value, txs[i]), state)
    requires var s := Replay(base, txs[..i]).value;
      || !WidesKnown(txs[i].wides) || !NamesFit(Apply(s, txs[i]))
      || !Fitting(Grown(contents, Delta(s, txs[i], state), STREAMS), blockSize)
    ensures !Sealable(base, txs, blockSize)
  {
    hide Inv, Sound, Prepare, Apply, NamesFit, StreamsOf, Delta, WidesKnown, Replay, Later, Grown, Packs, Fitting;
    if Sealable(base, txs, blockSize) {
      var s, final := Replay(base, txs[..i]).value, Replay(base, txs).value;
      ReplayStep(base, txs, i);
      var t := Apply(s, txs[i]);
      ApplyKeepsInv(s, txs[i]);
      StreamsBelow(t, txs[i + 1..]);
      StreamsBelow(base, txs);
      StreamsGrow(s, txs[i], state);
      var parts := Suffixes(StreamsOf(base), StreamsOf(final));
      forall id | 0 <= id < STREAMS
        ensures StreamsOf(t)[id] == StreamsOf(s)[id] + Delta(s, txs[i], state)[id]
      {
        assert GrowsBy(s, txs[i], state, id);
      }
      PartBelow(StreamsOf(base), contents, StreamsOf(s), Delta(s, txs[i], state), StreamsOf(t), StreamsOf(final),
                parts);
      PacksFits(Lengths(StreamsOf(base)), parts, blockSize);
      FittingBelow(Grown(contents, Delta(s, txs[i], state), STREAMS), parts, blockSize);
    }
  }

  lemma PartBelow(base: seq<seq<byte>>, contents: seq<seq<byte>>, s: seq<seq<byte>>, delta: seq<seq<byte>>,
                  t: seq<seq<byte>>, final: seq<seq<byte>>, parts: seq<seq<byte>>)
    requires |delta| == STREAMS && Continued(base, contents, s) && Continued(base, parts, final)
    requires |t| == STREAMS && Below(t, final) && forall id :: 0 <= id < STREAMS ==> t[id] == s[id] + delta[id]
    ensures Below(Grown(contents, delta, STREAMS), parts)
  {
    forall id | 0 <= id < STREAMS
      ensures contents[id] + delta[id] <= parts[id]
    {
      var all, n := final[id], |base[id]|;
      assert t[id] == base[id] + (contents[id] + delta[id]);
      assert parts[id] == all[n..] && contents[id] + delta[id] == t[id][n..];
    }
  }

  /** The hot transactions of one seal go to one segment, which then holds
      exactly what turns the sealed streams into those of the state after them;
      there is one exactly when the transactions are sealable. `state` is the
      whole committed state, with or without a hot suffix. */
  method SealGeneration(txs: seq<Transaction>, state: StoreState, starts: seq<nat>, threadCount: nat, blockSize: u32,
                        ghost base: StoreState)
    returns (r: Result<(SegmentFile, nat, Additions)>, ghost parts: seq<seq<byte>>)
    requires Inv(base) && NamesFit(base) && (forall t :: t in txs ==> Sound(t))
    requires Replay(base, txs).Ok? && Later(Replay(base, txs).value, state)
    requires starts == Lengths(StreamsOf(base)) && threadCount == |base.threads| && blockSize > 0
    ensures r.Ok? <==> Sealable(base, txs, blockSize)
    ensures r.Ok? ==>
      var sealed := Replay(base, txs).value;
      && NamesFit(sealed) && AllWidesKnown(txs)
      && r.value.1 == |sealed.threads| && r.value.2 == AddedByAll(base, txs)
    ensures r.Ok? ==>
      && NamesFit(Replay(base, txs).value)
      && SegmentHolds(r.value.0, starts, parts)
      && Continued(StreamsOf(base), parts, StreamsOf(Replay(base, txs).value))
  {
    hide Inv, Prepare, Apply, Sound, NamesFit, Later, StreamsOf, Delta, WidesKnown, AddedBy, GrownBelow, Replay,
      AddedByAll, Sealable, Fitting, Packs, Grown;
    var w := new SegmentWriter(starts, blockSize);
    var nextThread, added := threadCount, Additions([], [], []);
    NothingYet(base, txs);
    for i := 0 to |txs|
      invariant w.Valid() && w.starts == starts && w.blockSize == blockSize && fresh(w)
      invariant AllWidesKnown(txs[..i])
      invariant Replay(base, txs[..i]).Ok? && Inv(Replay(base, txs[..i]).value)
      invariant var s := Replay(base, txs[..i]).value;
        && NamesFit(s) && nextThread == |s.threads|
        && Continued(StreamsOf(base), w.contents, StreamsOf(s))
        && added == AddedByAll(base, txs[..i])
    {
      ghost var s := Replay(base, txs[..i]).value;
      ReplayStep(base, txs, i);
      ReplayIsLater(Apply(s, txs[i]), txs[i + 1..]);
      LaterChains(Apply(s, txs[i]), Replay(base, txs).value, state);
      StandsThere(base, w.contents, s);
      ghost var c0 := w.contents;
      var wrote := WriteTransaction(w, txs[i], state, nextThread, added, s);
      if wrote.Err? {
        UnfitPart(base, txs, blockSize, i, c0, state);
        return Err(Format), [];
      }
      ContinuedStep(StreamsOf(base), c0, s, txs[i], state, w.contents);
      ApplyKeepsInv(s, txs[i]);
      AddedByOneMore(base, txs[..i], txs[i]);
      assert txs[..i + 1] == txs[..i] + [txs[i]];
      nextThread, added := wrote.value.0, wrote.value.1;
    }
    assert txs[..|txs|] == txs;
    parts := w.contents;
    SealableIs(base, txs, blockSize, parts);
    var file := w.Finalize();
    if file.Err? { return Err(Format), []; }
    return Ok((file.value, nextThread, added)), parts;
  }

  lemma SealableIs(base: StoreState, txs: seq<Transaction>, blockSize: nat, parts: seq<seq<byte>>)
    requires Inv(base) && (forall t :: t in txs ==> Sound(t)) && Replay(base, txs).Ok? && NamesFit(base)
    requires NamesFit(Replay(base, txs).value) && AllWidesKnown(txs)
    requires Continued(StreamsOf(base), parts, StreamsOf(Replay(base, txs).value))
    ensures Sealable(base, txs, blockSize) <==> Packs(Lengths(StreamsOf(base)), parts, blockSize)
  {
    hide Inv, Sound, Replay, NamesFit, StreamsOf, AllWidesKnown, Packs;
    StreamsBelow(base, txs);
    var before, after := StreamsOf(base), StreamsOf(Replay(base, txs).value);
    forall id | 0 <= id < STREAMS
      ensures Suffixes(before, after)[id] == parts[id]
    {
      assert after[id] == before[id] + Suffixes(before, after)[id];
    }
    assert Suffixes(before, after) == parts;
  }

  lemma NothingYet(base: StoreState, txs: seq<Transaction>)
    requires NamesFit(base)
    ensures Replay(base, txs[..0]) == Ok(base) && AddedByAll(base, txs[..0]) == Additions([], [], [])
    ensures Continued(StreamsOf(base), seq(STREAMS, _ => []), StreamsOf(base))
  {
    forall id | 0 <= id < STREAMS
      ensures StreamsOf(base)[id] == StreamsOf(base)[id] + []
    {
      Nothing(StreamsOf(base)[id]);
    }
  }

  lemma StandsThere(base: StoreState, contents: seq<seq<byte>>, s: StoreState)
    requires NamesFit(base) && NamesFit(s) && Continued(StreamsOf(base), contents, StreamsOf(s))
    ensures StandsAt(Lengths(StreamsOf(base)), contents, s)
  {
    hide StreamsOf;
  }

  /** A wide record that no node names is admitted whatever its kind, and its
      transaction can never be sealed: an admitted record and no block size. */
  lemma UnknownWideUnsealable(thread: Id, id: Id) returns (tx: Transaction, record: seq<byte>)
    requires IdentifierOk(thread) && IdentifierOk(id)
    ensures Admit(EMPTY_STATE, record) == Ok(tx) && Sound(tx) && !WidesKnown(tx.wides)
    ensures Inv(EMPTY_STATE) && Replay(EMPTY_STATE, [tx]).Ok?
    ensures forall blockSize: nat :: !Sealable(EMPTY_STATE, [tx], blockSize)
  {
    hide IdentifierOk, Inv, Prepare, Sound, EncodeTransaction, Admit, Encodable, Replay, NamesFit, StreamsOf;
    var wide := WideRecord(7, 0, 0, 0, 0);
    tx := FirstCommit(thread, id, [], LeafSlot(0, 0), [wide], None);
    record := EncodeTransaction(tx.(digest := NO_DIGEST));
    EmptyStateInv();
    assert !WidesKnown(tx.wides) by { assert tx.wides[0] == wide; }
    assert !AllWidesKnown([tx]) by { assert [tx][0] == tx; }
  }

  // Any number of generations

  /** A further segment that continues the sealed streams leaves a store sealed
      as the longer streams. */
  lemma SealedAsGrows(files: seq<SegmentFile>, starts: seq<seq<nat>>, before: seq<seq<byte>>,
                      f: SegmentFile, parts: seq<seq<byte>>, after: seq<seq<byte>>)
    requires SealedAs(files, starts, before) && |before| == STREAMS
    requires SegmentHolds(f, Lengths(before), parts) && Continued(before, parts, after)
    ensures SealedAs(files + [f], starts + [Lengths(after)], after)
  {
    hide StreamHeld;
    var files', starts' := files + [f], starts + [Lengths(after)];
    var n := |files|;
    forall j, id | 0 <= j <= n && 0 <= id < STREAMS
      ensures PieceHeld(files', starts', after, j, id)
    {
      if j < n {
        assert PieceHeld(files, starts, before, j, id);
        assert after[id][starts[j][id]..starts[j + 1][id]] == before[id][starts[j][id]..starts[j + 1][id]];
      } else {
        assert starts'[n][id] == |before[id]| && starts'[n + 1][id] == |after[id]|;
        assert after[id][|before[id]|..|after[id]|] == parts[id];
      }
    }
  }

  lemma NothingSealed()
    ensures NamesFit(EMPTY_STATE)
    ensures SealedAs([], [Lengths(StreamsOf(EMPTY_STATE))], StreamsOf(EMPTY_STATE))
  {
  }
}
