/** The 22 byte streams that represent a sealed state, column by column. */
module Columns {
  import opened Wrappers
  import opened Bytes
  import opened Format
  import opened Dag
  import opened Model
  import opened TransactionFormat
  import opened Transactions
  import opened Segment

  // Stream numbers of the format
  const NODE_FIELD0 := 1
  const NODE_FIELD1 := 2
  const NODE_KIND := 3
  const WIDE_KIND := 4
  const WIDE_A := 5
  const WIDE_B := 6
  const WIDE_C := 7
  const VERSION_ROOT := 8
  const VERSION_PARENT := 9
  const THREAD_OFFSETS := 10
  const THREAD_BYTES := 11
  const CP_THREAD := 12
  const CP_NO := 13
  const CP_ID_OFFSETS := 14
  const CP_ID_BYTES := 15
  const CP_PARENT_ORDINAL := 16
  const CP_IDENTITY_VERSION := 17
  const CP_MESSAGES_VERSION := 18
  const CP_RESULT_VERSION := 19
  const CP_LOGICAL_LEN := 20
  const CP_STATE_HASH := 21

  // Fixed-width columns

  function Col32(xs: seq<u32>): (r: seq<byte>)
    ensures |r| == 4 * |xs|
  {
    if xs == [] then [] else Col32(xs[..|xs| - 1]) + U32(xs[|xs| - 1])
  }

  function Col64(xs: seq<u64>): (r: seq<byte>)
    ensures |r| == 8 * |xs|
  {
    if xs == [] then [] else Col64(xs[..|xs| - 1]) + U64(xs[|xs| - 1])
  }

  lemma Col32Append(xs: seq<u32>, x: u32)
    ensures Col32(xs + [x]) == Col32(xs) + U32(x)
  {
    assert (xs + [x])[..|xs|] == xs;
  }

  lemma Col64Append(xs: seq<u64>, x: u64)
    ensures Col64(xs + [x]) == Col64(xs) + U64(x)
  {
    assert (xs + [x])[..|xs|] == xs;
  }

  /** The `i`-th value of a column is read at `i` times its width. */
  lemma {:induction false} Col32At(xs: seq<u32>, i: nat)
    requires i < |xs|
    ensures U32At(Col32(xs), 4 * i) == xs[i]
  {
    hide U32, Num32;
    var n := |xs| - 1;
    var col := Col32(xs);
    if i < n {
      Col32At(xs[..n], i);
      assert col[4 * i..4 * i + 4] == Col32(xs[..n])[4 * i..4 * i + 4];
    } else {
      assert col[4 * i..4 * i + 4] == U32(xs[i]);
    }
  }

  lemma {:induction false} Col64At(xs: seq<u64>, i: nat)
    requires i < |xs|
    ensures U64At(Col64(xs), 8 * i) == xs[i]
  {
    hide U64, Num64;
    var n := |xs| - 1;
    var col := Col64(xs);
    if i < n {
      Col64At(xs[..n], i);
      assert col[8 * i..8 * i + 8] == Col64(xs[..n])[8 * i..8 * i + 8];
    } else {
      assert col[8 * i..8 * i + 8] == U64(xs[i]);
    }
  }

  // String tables

  /** Every offset of the table fits its 32-bit field. */
  predicate TableFits(names: seq<Id>) {
    |Joined(names)| <= U32_MAX
  }

  /** Where each name ends in the joined bytes, after a leading zero. */
  function Ends(names: seq<Id>): (r: seq<u32>)
    requires TableFits(names)
    ensures |r| == |names| + 1 && r[0] == 0 && r[|names|] == |Joined(names)|
  {
    if names == [] then [0] else Ends(names[..|names| - 1]) + [|Joined(names)|]
  }

  lemma {:induction false} EndsCut(names: seq<Id>, i: nat)
    requires TableFits(names) && i <= |names|
    ensures Ends(names)[i] == |Joined(names[..i])| <= |Joined(names)|
    ensures Joined(names)[..Ends(names)[i]] == Joined(names[..i])
  {
    if names == [] {
    } else if i == |names| {
      assert names[..i] == names;
      assert Joined(names)[..|Joined(names)|] == Joined(names);
    } else {
      var init := names[..|names| - 1];
      EndsCut(init, i);
      assert init[..i] == names[..i];
      assert Joined(names)[..|Joined(init)|] == Joined(init);
      assert Joined(names)[..Ends(init)[i]] == Joined(init)[..Ends(init)[i]];
    }
  }

  /** Each name is the stretch between two neighbouring ends. */
  lemma NameAt(names: seq<Id>, i: nat)
    requires TableFits(names) && i < |names|
    ensures Ends(names)[i] <= Ends(names)[i + 1] <= |Joined(names)|
    ensures Joined(names)[Ends(names)[i]..Ends(names)[i + 1]] == names[i]
  {
    EndsCut(names, i);
    EndsCut(names, i + 1);
    var upto := names[..i + 1];
    assert upto[..i] == names[..i] && upto[i] == names[i];
    assert Joined(upto) == Joined(names[..i]) + names[i];
    var a, b := Ends(names)[i], Ends(names)[i + 1];
    assert Joined(names)[a..b] == Joined(names)[..b][a..];
  }

  /** No offsets at all for an empty table; otherwise a zero and every end. */
  function OffsetBytes(names: seq<Id>): seq<byte>
    requires TableFits(names)
  {
    if names == [] then [] else Col32(Ends(names))
  }

  lemma OffsetBytesAppend(names: seq<Id>, name: Id)
    requires TableFits(names + [name])
    ensures TableFits(names)
    ensures OffsetBytes(names + [name])
         == (if names == [] then U32(0) else OffsetBytes(names)) + U32(|Joined(names + [name])|)
  {
    var more := names + [name];
    assert more[..|names|] == names;
    Col32Append(Ends(names), |Joined(more)|);
    if names == [] {
      assert [0][..0] == [] && Col32([0]) == [] + U32(0);
    }
  }

  lemma EmptyTable()
    ensures Joined([]) == []
  {
  }

  // Mapping columns over records

  function Map<T, U>(f: T -> U, xs: seq<T>): (r: seq<U>)
    ensures |r| == |xs| && forall i :: 0 <= i < |xs| ==> r[i] == f(xs[i])
  {
    seq(|xs|, i requires 0 <= i < |xs| => f(xs[i]))
  }

  lemma MapAppend<T, U>(f: T -> U, xs: seq<T>, ys: seq<T>)
    ensures Map(f, xs + ys) == Map(f, xs) + Map(f, ys)
  {
  }

  function Field0(s: Slot): u64 { s.field0 }
  function Field1(s: Slot): u32 { s.field1 }

  /** One byte per node kind; 3 stands for a kind sealing refuses. */
  function KindCode(s: Slot): byte {
    if s.kind == KIND_LEAF then 0 else if s.kind == KIND_BINARY then 1 else if s.kind == KIND_WIDE then 2 else 3
  }

  /** Every node has a kind the columns can express. */
  predicate KindsKnown(nodes: seq<Slot>) {
    forall i :: 0 <= i < |nodes| ==> KindCode(nodes[i]) != 3
  }

  function WideCode(w: WideRecord): byte {
    if w.kind == WIDE_KIND_LEAF then 0 else if w.kind == WIDE_KIND_BINARY then 1 else 2
  }

  function FieldA(w: WideRecord): u64 { w.a }
  function FieldB(w: WideRecord): u64 { w.b }
  function FieldC(w: WideRecord): u64 { w.c }
  function RawRoot(root: Option<u64>): u64 { if root.Some? then root.value else NONE_ROOT }
  function RawParent(parent: Option<u32>): u32 { if parent.Some? then parent.value else NONE_PARENT }
  function RawVersion(version: Option<u32>): u32 { if version.Some? then version.value else NONE_VERSION }
  function NumberOf(c: Checkpoint): u32 { c.number }
  function IdOf(c: Checkpoint): Id { c.id }
  function IdentityOf(c: Checkpoint): u32 { c.identityVersion }
  function MessagesOf(c: Checkpoint): u32 { RawVersion(c.messagesVersion) }
  function ResultOf(c: Checkpoint): u32 { RawVersion(c.resultVersion) }
  function LenOf(c: Checkpoint): u64 { c.logicalLen }
  function HashOf(c: Checkpoint): u64 { c.stateHash }

  // Ordinals that stand for names

  function ThreadOrdinal(s: StoreState, c: Checkpoint): u32 {
    if c.thread in s.threadOrdinals && s.threadOrdinals[c.thread] <= U32_MAX then s.threadOrdinals[c.thread] else 0
  }

  function ParentOrdinal(s: StoreState, c: Checkpoint): u32 {
    if c.parent.Some? && Key(c.thread, c.parent.value) in s.checkpointOrdinals
       && s.checkpointOrdinals[Key(c.thread, c.parent.value)] <= U32_MAX
    then s.checkpointOrdinals[Key(c.thread, c.parent.value)] else NONE_PARENT
  }

  function ThreadColumn(s: StoreState, cps: seq<Checkpoint>): (r: seq<u32>)
    ensures |r| == |cps|
  {
    seq(|cps|, i requires 0 <= i < |cps| => ThreadOrdinal(s, cps[i]))
  }

  function ParentColumn(s: StoreState, cps: seq<Checkpoint>): (r: seq<u32>)
    ensures |r| == |cps|
  {
    seq(|cps|, i requires 0 <= i < |cps| => ParentOrdinal(s, cps[i]))
  }

  /** The names of a state fit the 32-bit offset tables. */
  predicate NamesFit(s: StoreState) {
    TableFits(s.threads) && TableFits(Map(IdOf, s.checkpoints))
  }

  /** Every wide record has a kind the columns can express. */
  predicate WidesKnown(wides: seq<WideRecord>) {
    forall i :: 0 <= i < |wides| ==> wides[i].kind == WIDE_KIND_LEAF || wides[i].kind == WIDE_KIND_BINARY
  }

  /** The 22 streams of a state. */
  function StreamsOf(s: StoreState): (r: seq<seq<byte>>)
    requires NamesFit(s)
    ensures |r| == STREAMS
  {
    var cps := s.checkpoints;
    [ s.arena,
      Col64(Map(Field0, s.nodes)), Col32(Map(Field1, s.nodes)), Map(KindCode, s.nodes),
      Map(WideCode, s.wides), Col64(Map(FieldA, s.wides)), Col64(Map(FieldB, s.wides)), Col64(Map(FieldC, s.wides)),
      Col64(Map(RawRoot, s.versions)), Col32(Map(RawParent, s.parents)),
      OffsetBytes(s.threads), Joined(s.threads),
      Col32(ThreadColumn(s, cps)), Col32(Map(NumberOf, cps)),
      OffsetBytes(Map(IdOf, cps)), Joined(Map(IdOf, cps)),
      Col32(ParentColumn(s, cps)), Col32(Map(IdentityOf, cps)), Col32(Map(MessagesOf, cps)),
      Col32(Map(ResultOf, cps)), Col64(Map(LenOf, cps)), Col64(Map(HashOf, cps)) ]
  }

  /** Node and wide columns of the streams. */
  lemma NodeColumns(s: StoreState)
    requires NamesFit(s)
    ensures StreamsOf(s)[PAYLOAD] == s.arena
    ensures StreamsOf(s)[NODE_FIELD0] == Col64(Map(Field0, s.nodes))
    ensures StreamsOf(s)[NODE_FIELD1] == Col32(Map(Field1, s.nodes))
    ensures StreamsOf(s)[NODE_KIND] == Map(KindCode, s.nodes) && StreamsOf(s)[WIDE_KIND] == Map(WideCode, s.wides)
    ensures StreamsOf(s)[WIDE_A] == Col64(Map(FieldA, s.wides)) && StreamsOf(s)[WIDE_B] == Col64(Map(FieldB, s.wides))
  {
    hide Map, Col32, Col64, OffsetBytes, Joined, TableFits, ThreadColumn, ParentColumn;
  }

  // What one transaction adds to each stream

  /** The end a table records for its last name. */
  function LastEnd(names: seq<Id>): u32 {
    if TableFits(names) then |Joined(names)| else U32_MAX
  }

  /** A fresh table begins with a zero. */
  function OffsetDelta(names: seq<Id>, name: Id): seq<byte> {
    (if names == [] then U32(0) else []) + U32(LastEnd(names + [name]))
  }

  function Delta(s: StoreState, tx: Transaction, final: StoreState): (r: seq<seq<byte>>)
    ensures |r| == STREAMS
  {
    var c := tx.checkpoint;
    var isNew := c.thread !in s.threadOrdinals;
    var ids := Map(IdOf, s.checkpoints);
    [ tx.payload,
      Col64(Map(Field0, tx.nodes)), Col32(Map(Field1, tx.nodes)), Map(KindCode, tx.nodes),
      Map(WideCode, tx.wides), Col64(Map(FieldA, tx.wides)), Col64(Map(FieldB, tx.wides)), Col64(Map(FieldC, tx.wides)),
      Col64(Map(RawRoot, tx.roots)), Col32(Map(RawParent, tx.parents)),
      if isNew then OffsetDelta(s.threads, c.thread) else [], if isNew then c.thread else [],
      U32(ThreadOrdinal(final, c)), U32(c.number),
      OffsetDelta(ids, c.id), c.id,
      U32(ParentOrdinal(final, c)), U32(IdentityOf(c)), U32(MessagesOf(c)),
      U32(ResultOf(c)), U64(LenOf(c)), U64(HashOf(c)) ]
  }

  /** A state whose name indexes include those of an earlier one. */
  ghost predicate Later(s: StoreState, final: StoreState) {
    && (forall t :: t in s.threadOrdinals ==>
          t in final.threadOrdinals && final.threadOrdinals[t] == s.threadOrdinals[t])
    && (forall k :: k in s.checkpointOrdinals ==>
          k in final.checkpointOrdinals && final.checkpointOrdinals[k] == s.checkpointOrdinals[k])
  }

  lemma {:induction false} Col32Concat(a: seq<u32>, b: seq<u32>)
    ensures Col32(a + b) == Col32(a) + Col32(b)
  {
    if b == [] {
      assert a + b == a;
    } else {
      var init := b[..|b| - 1];
      assert (a + b)[..|a + b| - 1] == a + init;
      Col32Concat(a, init);
    }
  }

  lemma {:induction false} Col64Concat(a: seq<u64>, b: seq<u64>)
    ensures Col64(a + b) == Col64(a) + Col64(b)
  {
    if b == [] {
      assert a + b == a;
    } else {
      var init := b[..|b| - 1];
      assert (a + b)[..|a + b| - 1] == a + init;
      Col64Concat(a, init);
    }
  }

  lemma MapCol64<T>(f: T -> u64, a: seq<T>, b: seq<T>)
    ensures Col64(Map(f, a + b)) == Col64(Map(f, a)) + Col64(Map(f, b))
  {
    MapAppend(f, a, b);
    Col64Concat(Map(f, a), Map(f, b));
  }

  lemma MapCol32<T>(f: T -> u32, a: seq<T>, b: seq<T>)
    ensures Col32(Map(f, a + b)) == Col32(Map(f, a)) + Col32(Map(f, b))
  {
    MapAppend(f, a, b);
    Col32Concat(Map(f, a), Map(f, b));
  }

  lemma MapCol32One<T>(f: T -> u32, a: seq<T>, x: T)
    ensures Col32(Map(f, a + [x])) == Col32(Map(f, a)) + U32(f(x))
  {
    MapAppend(f, a, [x]);
    assert Map(f, [x]) == [f(x)];
    Col32Append(Map(f, a), f(x));
  }

  lemma MapCol64One<T>(f: T -> u64, a: seq<T>, x: T)
    ensures Col64(Map(f, a + [x])) == Col64(Map(f, a)) + U64(f(x))
  {
    MapAppend(f, a, [x]);
    assert Map(f, [x]) == [f(x)];
    Col64Append(Map(f, a), f(x));
  }
}
