/** Reading sealed columns back, whatever bytes they hold: each reader accepts
    exactly the columns of something and returns that. */
module ColumnReader {
  import opened Wrappers
  import opened Bytes
  import opened Format
  import opened Model
  import opened TransactionFormat
  import opened Columns

  // Fixed-width columns

  /** One more value of a column. */
  lemma Col32Next(col: seq<byte>, xs: seq<u32>)
    requires 4 * |xs| + 4 <= |col| && col[..4 * |xs|] == Col32(xs)
    ensures col[..4 * (|xs| + 1)] == Col32(xs + [U32At(col, 4 * |xs|)])
  {
    hide Num32, U32, Col32;
    var n := 4 * |xs|;
    Col32Append(xs, U32At(col, n));
    assert col[..n + 4] == col[..n] + col[n..n + 4];
  }

  lemma Col64Next(col: seq<byte>, xs: seq<u64>)
    requires 8 * |xs| + 8 <= |col| && col[..8 * |xs|] == Col64(xs)
    ensures col[..8 * (|xs| + 1)] == Col64(xs + [U64At(col, 8 * |xs|)])
  {
    hide Num64, U64, Col64;
    var n := 8 * |xs|;
    Col64Append(xs, U64At(col, n));
    assert col[..n + 8] == col[..n] + col[n..n + 8];
  }

  /** A column has one reading. */
  lemma Col32Once(a: seq<u32>, b: seq<u32>)
    requires Col32(a) == Col32(b)
    ensures a == b
  {
    hide Col32, U32At;
    assert |a| == |b|;
    forall i | 0 <= i < |a|
      ensures a[i] == b[i]
    {
      Col32At(a, i);
      Col32At(b, i);
    }
  }

  lemma Col64Once(a: seq<u64>, b: seq<u64>)
    requires Col64(a) == Col64(b)
    ensures a == b
  {
    hide Col64, U64At;
    assert |a| == |b|;
    forall i | 0 <= i < |a|
      ensures a[i] == b[i]
    {
      Col64At(a, i);
      Col64At(b, i);
    }
  }

  lemma MapOne<T, U>(f: T -> U, xs: seq<T>, x: T)
    ensures Map(f, xs + [x]) == Map(f, xs) + [f(x)]
  {
  }

  // String tables

  /** The two streams of a table of names: no offsets or one zero for none,
      otherwise a zero and every end. */
  ghost predicate TableRead(offsets: seq<byte>, bytes: seq<byte>, names: seq<Id>) {
    && TableFits(names) && bytes == Joined(names) && (forall n :: n in names ==> IsUtf8(n))
    && (offsets == Col32(Ends(names)) || (offsets == [] && names == []))
  }

  lemma TableOnce(offsets: seq<byte>, bytes: seq<byte>, a: seq<Id>, b: seq<Id>)
    requires TableRead(offsets, bytes, a) && TableRead(offsets, bytes, b)
    ensures a == b
  {
    hide Joined, Ends, Col32;
    if offsets != [] {
      Col32Once(Ends(a), Ends(b));
      forall i | 0 <= i < |a|
        ensures a[i] == b[i]
      {
        NameAt(a, i);
        NameAt(b, i);
      }
    }
  }

  /** The first `|names|` names of a table. */
  ghost predicate TableSoFar(offsets: seq<byte>, bytes: seq<byte>, names: seq<Id>) {
    && TableFits(names) && |Joined(names)| <= |bytes| && bytes[..|Joined(names)|] == Joined(names)
    && 4 * (|names| + 1) <= |offsets| && offsets[..4 * (|names| + 1)] == Col32(Ends(names))
    && forall n :: n in names ==> IsUtf8(n)
  }

  lemma TableNext(offsets: seq<byte>, bytes: seq<byte>, names: seq<Id>)
    requires TableSoFar(offsets, bytes, names) && 4 * (|names| + 2) <= |offsets|
    requires |Joined(names)| <= U32At(offsets, 4 * (|names| + 1)) <= |bytes|
    requires IsUtf8(bytes[|Joined(names)|..U32At(offsets, 4 * (|names| + 1))])
    ensures var end := U32At(offsets, 4 * (|names| + 1));
      var more := names + [bytes[|Joined(names)|..end]];
      TableSoFar(offsets, bytes, more) && |Joined(more)| == end
  {
    hide Num32, Col32;
    var start, end := |Joined(names)|, U32At(offsets, 4 * (|names| + 1));
    var name := bytes[start..end];
    var more := names + [name];
    assert more[..|names|] == names && Joined(more) == Joined(names) + name;
    assert Ends(more) == Ends(names) + [end];
    Col32Next(offsets, Ends(names));
    assert bytes[..end] == bytes[..start] + name;
  }

  lemma TableStart(offsets: seq<byte>, bytes: seq<byte>)
    requires |offsets| >= 4 && U32At(offsets, 0) == 0
    ensures TableSoFar(offsets, bytes, []) && Joined([]) == []
  {
    hide Num32;
    Col32Next(offsets, []);
    assert [] + [U32At(offsets, 0)] == [0];
  }

  lemma TableDone(offsets: seq<byte>, bytes: seq<byte>, names: seq<Id>)
    requires TableSoFar(offsets, bytes, names) && |offsets| == 4 * (|names| + 1) && |Joined(names)| == |bytes|
    ensures TableRead(offsets, bytes, names)
  {
    assert offsets[..|offsets|] == offsets && bytes[..|bytes|] == bytes;
  }

  /** What the table of given names holds at its `i`-th offset. */
  lemma TableStep(offsets: seq<byte>, bytes: seq<byte>, names: seq<Id>, i: nat)
    requires TableRead(offsets, bytes, names) && offsets != [] && i <= |names|
    ensures |offsets| == 4 * (|names| + 1) && U32At(offsets, 4 * i) == Ends(names)[i]
    ensures i < |names| ==>
      && Ends(names)[i] <= Ends(names)[i + 1] <= |bytes| && bytes[Ends(names)[i]..Ends(names)[i + 1]] == names[i]
      && IsUtf8(names[i])
    ensures Ends(names)[0] == 0 && Ends(names)[|names|] == |bytes|
  {
    hide Joined, Col32, U32At;
    Col32At(Ends(names), i);
    if i < |names| { NameAt(names, i); }
  }

  /** Decoding walks the offsets, cutting one name at a time. */
  method DecodeStringTable(offsets: seq<byte>, bytes: seq<byte>) returns (r: Result<seq<Id>>)
    ensures r.Ok? <==> exists names :: TableRead(offsets, bytes, names)
    ensures r.Ok? ==> TableRead(offsets, bytes, r.value)
  {
    hide Joined, Ends, Col32, U32At, TableSoFar, TableRead;
    ghost var known, names: seq<Id> := exists names :: TableRead(offsets, bytes, names), [];
    if known { names :| TableRead(offsets, bytes, names); }
    if offsets == [] {
      NoTable(bytes);
      if bytes == [] {
        assert TableRead(offsets, bytes, []);
        return Ok([]);
      }
      return Err(Format);
    }
    if known { TableStep(offsets, bytes, names, 0); }
    if |offsets| % 4 != 0 || |offsets| < 4 { return Err(Format); }
    var count := |offsets| / 4 - 1;
    var previous := U32At(offsets, 0);
    if previous != 0 { return Err(Format); }
    TableStart(offsets, bytes);
    var result: seq<Id> := [];
    for i := 0 to count
      invariant |result| == i && TableSoFar(offsets, bytes, result) && |Joined(result)| == previous
      invariant known ==> count == |names| && previous == Ends(names)[i]
    {
      if known { TableStep(offsets, bytes, names, i); TableStep(offsets, bytes, names, i + 1); }
      var next := U32At(offsets, 4 * (i + 1));
      if next < previous || next > |bytes| || !IsUtf8(bytes[previous..next]) { return Err(Format); }
      TableNext(offsets, bytes, result);
      result := result + [bytes[previous..next]];
      previous := next;
    }
    if previous != |bytes| { return Err(Format); }
    TableDone(offsets, bytes, result);
    return Ok(result);
  }

  lemma NoTable(bytes: seq<byte>)
    ensures forall names :: TableRead([], bytes, names) <==> names == [] && bytes == []
  {
    forall names | TableFits(names)
      ensures |Col32(Ends(names))| > 0
    {
    }
  }

  // Nodes and wide records

  ghost predicate NodesRead(field0: seq<byte>, field1: seq<byte>, kinds: seq<byte>, nodes: seq<Slot>) {
    && KindsKnown(nodes) && kinds == Map(KindCode, nodes)
    && field0 == Col64(Map(Field0, nodes)) && field1 == Col32(Map(Field1, nodes))
  }

  lemma SameKind(a: Slot, b: Slot)
    requires KindCode(a) == KindCode(b) != 3
    ensures a.kind == b.kind
  {
  }

  lemma NodesOnce(field0: seq<byte>, field1: seq<byte>, kinds: seq<byte>, a: seq<Slot>, b: seq<Slot>)
    requires NodesRead(field0, field1, kinds, a) && NodesRead(field0, field1, kinds, b)
    ensures a == b
  {
    hide Col32, Col64, KindCode;
    Col64Once(Map(Field0, a), Map(Field0, b));
    Col32Once(Map(Field1, a), Map(Field1, b));
    forall i | 0 <= i < |a|
      ensures a[i] == b[i]
    {
      assert Map(Field0, a)[i] == Map(Field0, b)[i] && Map(Field1, a)[i] == Map(Field1, b)[i];
      assert Map(KindCode, a)[i] == Map(KindCode, b)[i];
      SameKind(a[i], b[i]);
    }
  }

  /** One more node: its fields and a kind the columns can express. */
  lemma NodesNext(field0: seq<byte>, field1: seq<byte>, kinds: seq<byte>, nodes: seq<Slot>, slot: Slot)
    requires var n := |nodes|; n < |kinds| && 8 * n + 8 <= |field0| && 4 * n + 4 <= |field1|
    requires var n := |nodes|; NodesRead(field0[..8 * n], field1[..4 * n], kinds[..n], nodes)
    requires var n := |nodes|; slot.field0 == U64At(field0, 8 * n) && slot.field1 == U32At(field1, 4 * n)
    requires KindCode(slot) == kinds[|nodes|] != 3
    ensures var n := |nodes| + 1; NodesRead(field0[..8 * n], field1[..4 * n], kinds[..n], nodes + [slot])
  {
    hide Col32, Col64, KindCode, U32At, U64At, Map;
    Col64Next(field0, Map(Field0, nodes));
    Col32Next(field1, Map(Field1, nodes));
    MapOne(Field0, nodes, slot);
    MapOne(Field1, nodes, slot);
    MapOne(KindCode, nodes, slot);
  }

  method ReadNodes(field0: seq<byte>, field1: seq<byte>, kinds: seq<byte>) returns (r: Result<seq<Slot>>)
    ensures r.Ok? <==> exists nodes :: NodesRead(field0, field1, kinds, nodes)
    ensures r.Ok? ==> NodesRead(field0, field1, kinds, r.value)
  {
    hide Col32, Col64, U32At, U64At, NodesRead;
    NodesShape(field0, field1, kinds);
    if |field0| != 8 * |kinds| || |field1| != 4 * |kinds| { return Err(Format); }
    var out: seq<Slot> := [];
    for i := 0 to |kinds|
      invariant |out| == i && NodesRead(field0[..8 * i], field1[..4 * i], kinds[..i], out)
    {
      if kinds[i] > 2 { return Err(Format); }
      var kind := if kinds[i] == 0 then KIND_LEAF else if kinds[i] == 1 then KIND_BINARY else KIND_WIDE;
      var slot := Slot(U64At(field0, 8 * i), U32At(field1, 4 * i), kind);
      NodesNext(field0, field1, kinds, out, slot);
      out := out + [slot];
    }
    assert field0[..|field0|] == field0 && field1[..|field1|] == field1 && kinds[..|kinds|] == kinds;
    return Ok(out);
  }

  /** What node columns look like; none at all are those of no node. */
  lemma NodesShape(field0: seq<byte>, field1: seq<byte>, kinds: seq<byte>)
    ensures forall nodes :: NodesRead(field0, field1, kinds, nodes) ==>
      |field0| == 8 * |kinds| && |field1| == 4 * |kinds| && forall i :: 0 <= i < |kinds| ==> kinds[i] <= 2
    ensures NodesRead(field0[..0], field1[..0], kinds[..0], [])
  {
    hide Col32, Col64;
    assert Col64([]) == [] && Col32([]) == [] by { EmptyColumns(); }
    assert Map(Field0, []) == [] && Map(Field1, []) == [] && Map(KindCode, []) == [];
    forall nodes, i | NodesRead(field0, field1, kinds, nodes) && 0 <= i < |kinds|
      ensures kinds[i] <= 2
    {
      assert kinds[i] == KindCode(nodes[i]);
    }
  }

  lemma EmptyColumns()
    ensures Col32([]) == [] && Col64([]) == []
  {
  }

  ghost predicate WidesRead(kinds: seq<byte>, a: seq<byte>, b: seq<byte>, c: seq<byte>, wides: seq<WideRecord>) {
    && WidesKnown(wides) && (forall i :: 0 <= i < |wides| ==> wides[i].pad == 0) && kinds == Map(WideCode, wides)
    && a == Col64(Map(FieldA, wides)) && b == Col64(Map(FieldB, wides)) && c == Col64(Map(FieldC, wides))
  }

  lemma WidesOnce(kinds: seq<byte>, a: seq<byte>, b: seq<byte>, c: seq<byte>, x: seq<WideRecord>, y: seq<WideRecord>)
    requires WidesRead(kinds, a, b, c, x) && WidesRead(kinds, a, b, c, y)
    ensures x == y
  {
    hide Col64;
    Col64Once(Map(FieldA, x), Map(FieldA, y));
    Col64Once(Map(FieldB, x), Map(FieldB, y));
    Col64Once(Map(FieldC, x), Map(FieldC, y));
    forall i | 0 <= i < |x|
      ensures x[i] == y[i]
    {
      assert Map(FieldA, x)[i] == Map(FieldA, y)[i] && Map(FieldB, x)[i] == Map(FieldB, y)[i];
      assert Map(FieldC, x)[i] == Map(FieldC, y)[i] && Map(WideCode, x)[i] == Map(WideCode, y)[i];
    }
  }

  lemma WidesNext(kinds: seq<byte>, a: seq<byte>, b: seq<byte>, c: seq<byte>, wides: seq<WideRecord>, w: WideRecord)
    requires var n := |wides|; n < |kinds| && 8 * n + 8 <= |a| == |b| == |c|
    requires var n := |wides|; WidesRead(kinds[..n], a[..8 * n], b[..8 * n], c[..8 * n], wides)
    requires var n := |wides|; w.a == U64At(a, 8 * n) && w.b == U64At(b, 8 * n) && w.c == U64At(c, 8 * n)
    requires WidesKnown([w]) && w.pad == 0 && WideCode(w) == kinds[|wides|]
    ensures var n := |wides| + 1; WidesRead(kinds[..n], a[..8 * n], b[..8 * n], c[..8 * n], wides + [w])
  {
    hide Col64, U64At, Map, WideCode;
    Col64Next(a, Map(FieldA, wides));
    Col64Next(b, Map(FieldB, wides));
    Col64Next(c, Map(FieldC, wides));
    MapOne(FieldA, wides, w);
    MapOne(FieldB, wides, w);
    MapOne(FieldC, wides, w);
    MapOne(WideCode, wides, w);
    assert [w][0] == w;
  }

  method ReadWides(kinds: seq<byte>, a: seq<byte>, b: seq<byte>, c: seq<byte>) returns (r: Result<seq<WideRecord>>)
    ensures r.Ok? <==> exists wides :: WidesRead(kinds, a, b, c, wides)
    ensures r.Ok? ==> WidesRead(kinds, a, b, c, r.value)
  {
    hide Col64, U64At, WidesRead;
    WidesShape(kinds, a, b, c);
    if |a| != 8 * |kinds| || |b| != 8 * |kinds| || |c| != 8 * |kinds| { return Err(Format); }
    var out: seq<WideRecord> := [];
    for i := 0 to |kinds|
      invariant |out| == i && WidesRead(kinds[..i], a[..8 * i], b[..8 * i], c[..8 * i], out)
    {
      if kinds[i] > 1 { return Err(Format); }
      var w := WideRecord(if kinds[i] == 0 then WIDE_KIND_LEAF else WIDE_KIND_BINARY, 0,
                          U64At(a, 8 * i), U64At(b, 8 * i), U64At(c, 8 * i));
      WidesNext(kinds, a, b, c, out, w);
      out := out + [w];
    }
    assert kinds[..|kinds|] == kinds && a[..|a|] == a && b[..|b|] == b && c[..|c|] == c;
    return Ok(out);
  }

  lemma WidesShape(kinds: seq<byte>, a: seq<byte>, b: seq<byte>, c: seq<byte>)
    ensures forall wides :: WidesRead(kinds, a, b, c, wides) ==>
      |a| == |b| == |c| == 8 * |kinds| && forall i :: 0 <= i < |kinds| ==> kinds[i] <= 1
    ensures WidesRead(kinds[..0], a[..0], b[..0], c[..0], [])
  {
    hide Col64;
    EmptyColumns();
    assert Map(FieldA, []) == [] && Map(FieldB, []) == [] && Map(FieldC, []) == [] && Map(WideCode, []) == [];
    forall wides, i | WidesRead(kinds, a, b, c, wides) && 0 <= i < |kinds|
      ensures kinds[i] <= 1
    {
      assert kinds[i] == WideCode(wides[i]);
    }
  }

  // Versions

  /** No root and no parent is the number that stands for none. */
  ghost predicate VersionsRead(roots: seq<byte>, parents: seq<byte>, versions: seq<Option<u64>>,
                               links: seq<Option<u32>>)
  {
    && |versions| == |links| && (forall v :: v in versions ==> v != Some(NONE_ROOT))
    && (forall v :: v in links ==> v != Some(NONE_PARENT))
    && roots == Col64(Map(RawRoot, versions)) && parents == Col32(Map(RawParent, links))
  }

  lemma VersionsOnce(roots: seq<byte>, parents: seq<byte>, v: seq<Option<u64>>, l: seq<Option<u32>>,
                     w: seq<Option<u64>>, m: seq<Option<u32>>)
    requires VersionsRead(roots, parents, v, l) && VersionsRead(roots, parents, w, m)
    ensures v == w && l == m
  {
    hide Col32, Col64;
    Col64Once(Map(RawRoot, v), Map(RawRoot, w));
    Col32Once(Map(RawParent, l), Map(RawParent, m));
    forall i | 0 <= i < |v|
      ensures v[i] == w[i] && l[i] == m[i]
    {
      assert Map(RawRoot, v)[i] == Map(RawRoot, w)[i] && Map(RawParent, l)[i] == Map(RawParent, m)[i];
      assert v[i] in v && w[i] in w && l[i] in l && m[i] in m;
    }
  }

  lemma VersionsNext(roots: seq<byte>, parents: seq<byte>, versions: seq<Option<u64>>, links: seq<Option<u32>>,
                     version: Option<u64>, link: Option<u32>)
    requires |versions| == |links| && 8 * |versions| + 8 <= |roots| && 4 * |versions| + 4 <= |parents|
    requires VersionsRead(roots[..8 * |versions|], parents[..4 * |versions|], versions, links)
    requires version != Some(NONE_ROOT) && link != Some(NONE_PARENT)
    requires RawRoot(version) == U64At(roots, 8 * |versions|) && RawParent(link) == U32At(parents, 4 * |versions|)
    ensures var n := |versions| + 1;
      VersionsRead(roots[..8 * n], parents[..4 * n], versions + [version], links + [link])
  {
    hide Col32, Col64, U32At, U64At, Map;
    Col64Next(roots, Map(RawRoot, versions));
    Col32Next(parents, Map(RawParent, links));
    MapOne(RawRoot, versions, version);
    MapOne(RawParent, links, link);
  }

  method ReadVersions(roots: seq<byte>, parents: seq<byte>) returns (r: Result<(seq<Option<u64>>, seq<Option<u32>>)>)
    ensures r.Ok? <==> exists versions, links :: VersionsRead(roots, parents, versions, links)
    ensures r.Ok? ==> VersionsRead(roots, parents, r.value.0, r.value.1)
  {
    hide Col32, Col64, U32At, U64At, VersionsRead;
    VersionsShape(roots, parents);
    if |roots| % 8 != 0 || |parents| % 4 != 0 || |roots| / 8 != |parents| / 4 { return Err(Format); }
    var versions: seq<Option<u64>>, links: seq<Option<u32>> := [], [];
    for i := 0 to |roots| / 8
      invariant |versions| == |links| == i && VersionsRead(roots[..8 * i], parents[..4 * i], versions, links)
    {
      var root, parent := U64At(roots, 8 * i), U32At(parents, 4 * i);
      var version, link := if root == NONE_ROOT then None else Some(root),
                           if parent == NONE_PARENT then None else Some(parent);
      VersionsNext(roots, parents, versions, links, version, link);
      versions, links := versions + [version], links + [link];
    }
    assert roots[..|roots|] == roots && parents[..|parents|] == parents;
    return Ok((versions, links));
  }

  lemma VersionsShape(roots: seq<byte>, parents: seq<byte>)
    ensures forall v, l :: VersionsRead(roots, parents, v, l) ==> |roots| == 8 * |v| && |parents| == 4 * |v|
    ensures VersionsRead(roots[..0], parents[..0], [], [])
  {
    hide Col32, Col64;
    EmptyColumns();
    assert Map(RawRoot, []) == [] && Map(RawParent, []) == [];
  }

  // Names and their ordinals

  /** Every name of the list, at the last place it stands. */
  ghost predicate LastPlaces<N(!new)>(names: seq<N>, ordinals: map<N, nat>) {
    && (forall i :: 0 <= i < |names| ==> names[i] in ordinals && ordinals[names[i]] >= i)
    && (forall n :: n in ordinals ==> ordinals[n] < |names| && names[ordinals[n]] == n)
  }

  lemma PlacesOnce<N(!new)>(names: seq<N>, a: map<N, nat>, b: map<N, nat>)
    requires LastPlaces(names, a) && LastPlaces(names, b)
    ensures a == b
  {
    forall n | n in a || n in b
      ensures n in a && n in b && a[n] == b[n]
    {
      assert n in a ==> names[a[n]] == n;
      assert n in b ==> names[b[n]] == n;
    }
  }

  lemma PlacesNext<N(!new)>(names: seq<N>, ordinals: map<N, nat>, name: N)
    requires LastPlaces(names, ordinals)
    ensures LastPlaces(names + [name], ordinals[name := |names|])
  {
  }

  /** The table of threads; each ordinal fits 32 bits. */
  method IndexThreads(threads: seq<Id>) returns (r: Result<map<Id, nat>>)
    ensures r.Ok? <==> |threads| <= U32_MAX + 1
    ensures r.Ok? ==> LastPlaces(threads, r.value)
  {
    hide LastPlaces;
    var ordinals: map<Id, nat> := map[];
    assert LastPlaces([], ordinals) by { NoPlaces(); }
    assert threads[..0] == [];
    for i := 0 to |threads|
      invariant LastPlaces(threads[..i], ordinals) && i <= U32_MAX + 1
    {
      if i > U32_MAX { return Err(Format); }
      PlacesNext(threads[..i], ordinals, threads[i]);
      assert threads[..i + 1] == threads[..i] + [threads[i]];
      ordinals := ordinals[threads[i] := i];
    }
    assert threads[..|threads|] == threads;
    return Ok(ordinals);
  }

  lemma NoPlaces()
    ensures LastPlaces<Id>([], map[]) && LastPlaces<Key>([], map[])
  {
  }

  // Checkpoints

  /** The eight fixed-width checkpoint columns. */
  datatype CheckpointColumns = CheckpointColumns(
    thread: seq<byte>, number: seq<byte>, parent: seq<byte>, identity: seq<byte>,
    messages: seq<byte>, result: seq<byte>, len: seq<byte>, hash: seq<byte>)

  /** One value of every column for each of `count` checkpoints. */
  predicate Wide(k: CheckpointColumns, count: nat) {
    && |k.thread| == |k.number| == |k.parent| == |k.identity| == |k.messages| == |k.result| == 4 * count
    && |k.len| == |k.hash| == 8 * count
  }

  function Given(raw: u32): Option<u32> {
    if raw == NONE_VERSION then None else Some(raw)
  }

  /** Row `i` of the columns is that of the checkpoint: its thread and its parent
      by ordinal, the parent an earlier one, the rest as stored. */
  predicate CheckpointRead(k: CheckpointColumns, threads: seq<Id>, ids: seq<Id>, i: nat, c: Checkpoint)
    requires Wide(k, |ids|) && i < |ids|
  {
    && c.ordinal == i && c.id == ids[i]
    && U32At(k.thread, 4 * i) < |threads| && c.thread == threads[U32At(k.thread, 4 * i)]
    && (if c.parent.None? then U32At(k.parent, 4 * i) == NONE_PARENT
        else U32At(k.parent, 4 * i) < i && U32At(k.parent, 4 * i) != NONE_PARENT
             && c.parent.value == ids[U32At(k.parent, 4 * i)])
    && U32At(k.number, 4 * i) == c.number && U32At(k.identity, 4 * i) == c.identityVersion
    && U32At(k.messages, 4 * i) == MessagesOf(c) && c.messagesVersion != Some(NONE_VERSION)
    && U32At(k.result, 4 * i) == ResultOf(c) && c.resultVersion != Some(NONE_VERSION)
    && U64At(k.len, 8 * i) == c.logicalLen && U64At(k.hash, 8 * i) == c.stateHash
  }

  ghost predicate CheckpointsRead(k: CheckpointColumns, threads: seq<Id>, ids: seq<Id>, count: nat,
                                  cps: seq<Checkpoint>)
  {
    && |ids| == |cps| == count && Wide(k, count)
    && forall i :: 0 <= i < count ==> CheckpointRead(k, threads, ids, i, cps[i])
  }

  lemma CheckpointOnce(k: CheckpointColumns, threads: seq<Id>, ids: seq<Id>, i: nat, c: Checkpoint, d: Checkpoint)
    requires Wide(k, |ids|) && i < |ids|
    requires CheckpointRead(k, threads, ids, i, c) && CheckpointRead(k, threads, ids, i, d)
    ensures c == d
  {
    hide U32At, U64At;
  }

  lemma CheckpointsOnce(k: CheckpointColumns, threads: seq<Id>, ids: seq<Id>, count: nat, a: seq<Checkpoint>,
                        b: seq<Checkpoint>)
    requires CheckpointsRead(k, threads, ids, count, a) && CheckpointsRead(k, threads, ids, count, b)
    ensures a == b
  {
    hide CheckpointRead;
    forall i | 0 <= i < count
      ensures a[i] == b[i]
    {
      CheckpointOnce(k, threads, ids, i, a[i], b[i]);
    }
  }

  method ReadCheckpoint(k: CheckpointColumns, threads: seq<Id>, ids: seq<Id>, index: nat)
    returns (r: Result<Checkpoint>)
    requires Wide(k, |ids|) && index < |ids|
    ensures r.Ok? <==> exists c :: CheckpointRead(k, threads, ids, index, c)
    ensures r.Ok? ==> CheckpointRead(k, threads, ids, index, r.value)
  {
    hide U32At, U64At;
    if index > U32_MAX { return Err(Format); }
    var thread := U32At(k.thread, 4 * index);
    if thread >= |threads| { return Err(Format); }
    var parentOrdinal := U32At(k.parent, 4 * index);
    var parent: Option<Id> := None;
    if parentOrdinal != NONE_PARENT {
      if parentOrdinal >= index { return Err(Format); }
      parent := Some(ids[parentOrdinal]);
    }
    var c := Checkpoint(index, threads[thread], U32At(k.number, 4 * index), ids[index], parent,
                        U32At(k.identity, 4 * index), Given(U32At(k.messages, 4 * index)),
                        Given(U32At(k.result, 4 * index)), U64At(k.len, 8 * index), U64At(k.hash, 8 * index));
    assert CheckpointRead(k, threads, ids, index, c);
    return Ok(c);
  }

  function NamesOf(cps: seq<Checkpoint>): (r: seq<Key>)
    ensures |r| == |cps|
  {
    seq(|cps|, i requires 0 <= i < |cps| => cps[i].Name())
  }

  method ReadCheckpoints(k: CheckpointColumns, threads: seq<Id>, ids: seq<Id>, count: nat)
    returns (r: Result<(seq<Checkpoint>, map<Key, nat>)>)
    ensures r.Ok? <==> exists cps :: CheckpointsRead(k, threads, ids, count, cps)
    ensures r.Ok? ==> CheckpointsRead(k, threads, ids, count, r.value.0) && LastPlaces(NamesOf(r.value.0), r.value.1)
  {
    hide CheckpointRead, LastPlaces;
    if |ids| != count { return Err(Format); }
    if |k.thread| != 4 * count || |k.number| != 4 * count || |k.parent| != 4 * count || |k.identity| != 4 * count
       || |k.messages| != 4 * count || |k.result| != 4 * count || |k.len| != 8 * count || |k.hash| != 8 * count {
      return Err(Format);
    }
    var cps: seq<Checkpoint>, ordinals: map<Key, nat> := [], map[];
    NoPlaces();
    for i := 0 to count
      invariant |cps| == i && LastPlaces(NamesOf(cps), ordinals)
      invariant forall j :: 0 <= j < i ==> CheckpointRead(k, threads, ids, j, cps[j])
    {
      RowOfEach(k, threads, ids, count, i);
      var c := ReadCheckpoint(k, threads, ids, i);
      if c.Err? { return Err(Format); }
      OrdinalOf(k, threads, ids, i, c.value);
      PlacesNext(NamesOf(cps), ordinals, c.value.Name());
      assert NamesOf(cps + [c.value]) == NamesOf(cps) + [c.value.Name()];
      ordinals := ordinals[c.value.Name() := c.value.ordinal];
      cps := cps + [c.value];
    }
    assert CheckpointsRead(k, threads, ids, count, cps);
    return Ok((cps, ordinals));
  }

  lemma RowOfEach(k: CheckpointColumns, threads: seq<Id>, ids: seq<Id>, count: nat, i: nat)
    requires i < count == |ids| && Wide(k, count)
    ensures forall cps :: CheckpointsRead(k, threads, ids, count, cps) ==> CheckpointRead(k, threads, ids, i, cps[i])
  {
    hide CheckpointRead;
  }

  lemma OrdinalOf(k: CheckpointColumns, threads: seq<Id>, ids: seq<Id>, i: nat, c: Checkpoint)
    requires Wide(k, |ids|) && i < |ids| && CheckpointRead(k, threads, ids, i, c)
    ensures c.ordinal == i
  {
  }
}
