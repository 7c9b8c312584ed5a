/** Reading a byte range of a checkpoint without assembling the checkpoint. */
module Ranges {
  import opened Wrappers
  import opened Bytes
  import opened Dag
  import opened Model

  /** Bytes `offset..offset + length` below a node. */
  datatype Want = Want(node: nat, offset: nat, length: nat)

  ghost function Size(v: View, id: nat): nat
    requires WellFormed(v) && id < |v.nodes|
  {
    ExtractTotal(v, id);
    |Extract(v, id).value|
  }

  ghost predicate InBounds(v: View, w: Want)
    requires WellFormed(v)
  {
    w.node < |v.nodes| && w.offset + w.length <= Size(v, w.node)
  }

  ghost function Wanted(v: View, w: Want): seq<byte>
    requires WellFormed(v) && InBounds(v, w)
  {
    ExtractTotal(v, w.node);
    Extract(v, w.node).value[w.offset..w.offset + w.length]
  }

  ghost predicate AllInBounds(v: View, stack: seq<Want>)
    requires WellFormed(v)
  {
    forall w :: w in stack ==> InBounds(v, w)
  }

  /** What a stack of wants still has to emit, top (last) element first. */
  ghost function WantedAll(v: View, stack: seq<Want>): seq<byte>
    requires WellFormed(v) && AllInBounds(v, stack)
  {
    if stack == [] then []
    else Wanted(v, stack[|stack| - 1]) + WantedAll(v, stack[..|stack| - 1])
  }

  ghost function Work(v: View, stack: seq<Want>): nat {
    if stack == [] then 0
    else Weight(v, stack[|stack| - 1].node) + Work(v, stack[..|stack| - 1])
  }

  function Min(a: nat, b: nat): nat { if a < b then a else b }

  /** The two pushes of a branch, right below left, each only when non-empty. */
  function Split(left: nat, right: nat, leftSize: nat, offset: nat, length: nat): seq<Want>
  {
    var leftTake := if offset < leftSize then leftSize - offset else 0;
    var rightOffset := if offset > leftSize then offset - leftSize else 0;
    var rightLength := if length > leftTake then length - leftTake else 0;
    (if offset + length > leftSize && rightLength > 0 then [Want(right, rightOffset, rightLength)] else [])
    + (if offset < leftSize && Min(leftTake, length) > 0 then [Want(left, offset, Min(leftTake, length))] else [])
  }

  /** A want that one child covers alone. */
  lemma OneChild(v: View, rest: seq<Want>, w: Want, one: Want)
    requires WellFormed(v) && AllInBounds(v, rest) && InBounds(v, w) && InBounds(v, one)
    requires Wanted(v, w) == Wanted(v, one) && Weight(v, one.node) < Weight(v, w.node)
    ensures AllInBounds(v, rest + [one])
    ensures WantedAll(v, rest + [one]) == Wanted(v, w) + WantedAll(v, rest)
    ensures Work(v, rest + [one]) < Work(v, rest + [w])
  {
    hide Extract, WellFormed, Wanted;
    assert (rest + [w])[..|rest|] == rest && (rest + [one])[..|rest|] == rest;
  }

  /** A want that straddles both children. */
  lemma BothChildren(v: View, rest: seq<Want>, w: Want, one: Want, two: Want)
    requires WellFormed(v) && AllInBounds(v, rest)
    requires InBounds(v, w) && InBounds(v, one) && InBounds(v, two)
    requires Wanted(v, w) == Wanted(v, one) + Wanted(v, two)
    requires Weight(v, one.node) + Weight(v, two.node) < Weight(v, w.node)
    ensures AllInBounds(v, rest + [two] + [one])
    ensures WantedAll(v, rest + [two] + [one]) == Wanted(v, w) + WantedAll(v, rest)
    ensures Work(v, rest + [two] + [one]) < Work(v, rest + [w])
  {
    hide Extract, WellFormed, Wanted, Weight, Reach;
    var mid, next := rest + [two], rest + [two] + [one];
    assert next[..|next| - 1] == mid && mid[..|mid| - 1] == rest && (rest + [w])[..|rest|] == rest;
    assert WantedAll(v, mid) == Wanted(v, two) + WantedAll(v, rest);
    assert WantedAll(v, next) == Wanted(v, one) + (Wanted(v, two) + WantedAll(v, rest));
    assert Wanted(v, one) + (Wanted(v, two) + WantedAll(v, rest))
        == (Wanted(v, one) + Wanted(v, two)) + WantedAll(v, rest);
  }

  lemma SplitIsSlice(v: View, rest: seq<Want>, w: Want, left: nat, right: nat)
    requires WellFormed(v) && AllInBounds(v, rest) && InBounds(v, w) && w.length > 0
    requires v.nodes[w.node] == Some(Binary(left, right)) && left < w.node && right < w.node
    ensures var next := rest + Split(left, right, Size(v, left), w.offset, w.length);
      && AllInBounds(v, next)
      && WantedAll(v, next) == Wanted(v, w) + WantedAll(v, rest)
      && Work(v, next) < Work(v, rest + [w])
  {
    hide WantedAll, Work, WellFormed, AllInBounds;
    ExtractTotal(v, left);
    ExtractTotal(v, right);
    var a, b := Extract(v, left).value, Extract(v, right).value;
    assert Extract(v, w.node) == Some(a + b);
    var next := rest + Split(left, right, |a|, w.offset, w.length);
    if w.offset + w.length <= |a| {
      var one := Want(left, w.offset, w.length);
      assert Wanted(v, w) == Wanted(v, one);
      OneChild(v, rest, w, one);
      assert next == rest + [one];
    } else if w.offset >= |a| {
      var one := Want(right, w.offset - |a|, w.length);
      assert Wanted(v, w) == Wanted(v, one);
      OneChild(v, rest, w, one);
      assert next == rest + [one];
    } else {
      var one := Want(left, w.offset, |a| - w.offset);
      var two := Want(right, 0, w.length - (|a| - w.offset));
      assert Wanted(v, w) == Wanted(v, one) + Wanted(v, two);
      BothChildren(v, rest, w, one, two);
      assert next == rest + [two] + [one];
    }
  }

  /** A stretch of canonical bytes: `start` is where it begins in the state. */
  function Overlap(piece: seq<byte>, start: nat, from: nat, to: nat): (r: seq<byte>)
    requires from <= to
    ensures |r| <= |piece|
  {
    var lo := if from > start then from - start else 0;
    var hi := if to > start then Min(to - start, |piece|) else 0;
    if lo < hi then piece[lo..hi] else []
  }

  /** Overlaps of adjacent pieces are the overlap of the whole. */
  lemma OverlapConcat(a: seq<byte>, b: seq<byte>, start: nat, from: nat, to: nat)
    requires from <= to
    ensures Overlap(a, start, from, to) + Overlap(b, start + |a|, from, to)
         == Overlap(a + b, start, from, to)
  {
  }

  /** The length below a node, when it has one, is a 64-bit number. */
  ghost predicate Fits(v: View, node: nat) {
    Extract(v, node).Some? ==> |Extract(v, node).value| <= U64_MAX
  }

  /** So is the length of every version of a state. */
  ghost predicate RootsFit(s: StoreState) {
    forall i :: 0 <= i < |s.versions| && s.versions[i].Some? ==> Fits(ViewOf(s), s.versions[i].value)
  }

  ghost predicate AllFit(v: View, stack: seq<Want>) {
    forall w :: w in stack ==> Fits(v, w.node)
  }

  lemma SizeFits(v: View, node: nat)
    requires WellFormed(v) && node < |v.nodes|
    ensures Size(v, node) <= U64_MAX <==> Fits(v, node)
  {
    ExtractTotal(v, node);
  }

  lemma OneWant(v: View, w: Want)
    requires WellFormed(v) && w.node < |v.nodes| && w.offset + w.length <= Size(v, w.node)
    ensures InBounds(v, w) && AllInBounds(v, [w]) && [] + WantedAll(v, [w]) == Wanted(v, w)
  {
    hide Extract, WellFormed, Wanted;
    assert [w][..0] == [];
    assert WantedAll(v, [w]) == Wanted(v, w) + [];
  }

  lemma NoWants(v: View, out: seq<byte>)
    requires WellFormed(v) && AllInBounds(v, [])
    ensures out + WantedAll(v, []) == out
  {
  }

  /** What the top of the stack stands for: nothing, bytes of a leaf, or a branch. */
  lemma TopWant(v: View, rest: seq<Want>, w: Want, out: seq<byte>)
    requires WellFormed(v) && AllInBounds(v, rest + [w])
    ensures AllInBounds(v, rest) && InBounds(v, w) && Work(v, rest) < Work(v, rest + [w])
    ensures out + WantedAll(v, rest + [w]) == (out + Wanted(v, w)) + WantedAll(v, rest)
    ensures w.length == 0 ==> out + Wanted(v, w) == out
    ensures v.nodes[w.node].Some?
    ensures v.nodes[w.node].value.Binary? ==>
      v.nodes[w.node].value.left < w.node && v.nodes[w.node].value.right < w.node
    ensures v.nodes[w.node].value.Leaf? ==>
      var start, size := v.nodes[w.node].value.offset, v.nodes[w.node].value.length;
      && w.offset + w.length <= size && start + size <= |v.arena|
      && Wanted(v, w) == v.arena[start + w.offset..start + w.offset + w.length]
  {
    assert (rest + [w])[..|rest|] == rest;
    assert w in rest + [w] && forall x :: x in rest ==> x in rest + [w];
    assert InBounds(v, w) && AllInBounds(v, rest);
    assert NodeOk(v, w.node);
    assert WantedAll(v, rest + [w]) == Wanted(v, w) + WantedAll(v, rest);
  }

  lemma OneFits(v: View, stack: seq<Want>)
    ensures |stack| == 1 && Fits(v, stack[0].node) ==> AllFit(v, stack)
  {
  }

  lemma RestFits(v: View, rest: seq<Want>, w: Want)
    requires AllFit(v, rest + [w])
    ensures AllFit(v, rest)
  {
    assert forall x :: x in rest ==> x in rest + [w];
  }

  /** Nothing below a node that fits is longer than 64 bits count. */
  lemma ChildrenFit(v: View, rest: seq<Want>, w: Want, left: nat, right: nat)
    requires WellFormed(v) && w.node < |v.nodes| && AllFit(v, rest + [w])
    requires v.nodes[w.node] == Some(Binary(left, right)) && left < w.node && right < w.node
    ensures Size(v, left) <= U64_MAX
    ensures AllFit(v, rest + Split(left, right, Size(v, left), w.offset, w.length))
  {
    ExtractTotal(v, left);
    ExtractTotal(v, right);
    assert w in rest + [w];
    assert forall x :: x in rest ==> x in rest + [w];
  }

  predicate RootsInView(v: View, versions: seq<Option<u64>>) {
    forall i :: 0 <= i < |versions| && versions[i].Some? ==> versions[i].value < |v.nodes|
  }

  predicate HasRoot(versions: seq<Option<u64>>, version: nat) {
    version < |versions| && versions[version].Some?
  }

  predicate HasRoots(versions: seq<Option<u64>>, c: Checkpoint) {
    && HasRoot(versions, c.identityVersion)
    && (c.messagesVersion.Some? ==> HasRoot(versions, c.messagesVersion.value))
    && (c.resultVersion.Some? ==> HasRoot(versions, c.resultVersion.value))
  }

  /** The part of a checkpoint between two positions, if its bytes exist and
      have the recorded length. */
  function CanonicalRange(v: View, versions: seq<Option<u64>>, c: Checkpoint, from: nat, to: nat)
    : Result<seq<byte>>
    requires from <= to
  {
    match Reconstruct(v, versions, c)
    case None => Err(Format)
    case Some(bytes) => if |bytes| == c.logicalLen then Ok(Overlap(bytes, 0, from, to)) else Err(Format)
  }

  function RangeOf(v: View, versions: seq<Option<u64>>, c: Checkpoint, offset: nat, length: nat)
    : Result<seq<byte>>
  {
    if offset + length > c.logicalLen then Err(Format)
    else if length == 0 then Ok([])
    else CanonicalRange(v, versions, c, offset, offset + length)
  }

  /** A range read is the slice of the whole read, for every in-bounds range of
      a checkpoint whose bytes have the recorded length. */
  lemma RangeIsSlice(v: View, versions: seq<Option<u64>>, c: Checkpoint, offset: nat, length: nat)
    requires Reconstruct(v, versions, c).Some? && |Reconstruct(v, versions, c).value| == c.logicalLen
    ensures offset + length <= c.logicalLen ==>
      RangeOf(v, versions, c, offset, length) == Ok(Reconstruct(v, versions, c).value[offset..offset + length])
    ensures offset + length > c.logicalLen ==> RangeOf(v, versions, c, offset, length).Err?
  {
    if offset + length <= c.logicalLen && length == 0 {
      assert Reconstruct(v, versions, c).value[offset..offset + length] == [];
    }
  }

  /** The pieces in the order the range reader visits them. */
  function Glued(identity: seq<byte>, messages: Option<seq<byte>>, result: Option<seq<byte>>): seq<byte> {
    var head := [] + IDENTITY_FRAME + identity + MESSAGES_FRAME;
    var body := (if messages.Some? then head + messages.value else head) + MESSAGES_END;
    (if result.Some? then body + RESULT_FRAME + result.value else body) + STATE_END
  }

  lemma GluedIsFrame(identity: seq<byte>, messages: Option<seq<byte>>, result: Option<seq<byte>>)
    ensures Glued(identity, messages, result)
         == Frame(identity, if messages.Some? then messages.value else [], result)
  {
    var head := IDENTITY_FRAME + identity + MESSAGES_FRAME;
    assert [] + IDENTITY_FRAME == IDENTITY_FRAME;
    assert head + [] == head;
    var body := (if messages.Some? then head + messages.value else head) + MESSAGES_END;
    if result.Some? {
      assert body + RESULT_FRAME + result.value == body + (RESULT_FRAME + result.value);
    } else {
      assert body + [] == body;
    }
  }

  /** The bytes of a channel that has a root. */
  ghost function VersionBytes(v: View, versions: seq<Option<u64>>, version: nat): seq<byte>
    requires WellFormed(v) && RootsInView(v, versions) && HasRoot(versions, version)
  {
    ExtractTotal(v, versions[version].value);
    Extract(v, versions[version].value).value
  }

  ghost function OptionBytes(v: View, versions: seq<Option<u64>>, version: Option<u32>): Option<seq<byte>>
    requires WellFormed(v) && RootsInView(v, versions)
    requires version.Some? ==> HasRoot(versions, version.value)
  {
    if version.Some? then Some(VersionBytes(v, versions, version.value)) else None
  }

  lemma RootsExtract(v: View, versions: seq<Option<u64>>)
    requires WellFormed(v) && RootsInView(v, versions)
    ensures forall i :: 0 <= i < |versions| && versions[i].Some? ==> Extract(v, versions[i].value).Some?
  {
    forall i | 0 <= i < |versions| && versions[i].Some?
      ensures Extract(v, versions[i].value).Some?
    {
      ExtractTotal(v, versions[i].value);
    }
  }

  lemma GluedIsReconstruction(v: View, versions: seq<Option<u64>>, c: Checkpoint)
    requires WellFormed(v) && RootsInView(v, versions)
    ensures HasRoots(versions, c) <==> Reconstruct(v, versions, c).Some?
    ensures HasRoots(versions, c) ==>
      Reconstruct(v, versions, c) == Some(Glued(
        VersionBytes(v, versions, c.identityVersion), OptionBytes(v, versions, c.messagesVersion),
        OptionBytes(v, versions, c.resultVersion)))
  {
    hide Extract, Frame, Glued, WellFormed, RootsInView;
    RootsExtract(v, versions);
    if HasRoots(versions, c) {
      GluedIsFrame(VersionBytes(v, versions, c.identityVersion), OptionBytes(v, versions, c.messagesVersion),
                   OptionBytes(v, versions, c.resultVersion));
    }
  }

  /** What the parts glued in order come to. */
  lemma GluedParts(identity: seq<byte>, messages: Option<seq<byte>>, result: Option<seq<byte>>)
    ensures var head := [] + IDENTITY_FRAME + identity + MESSAGES_FRAME;
            var body := (if messages.Some? then head + messages.value else head) + MESSAGES_END;
      Glued(identity, messages, result)
      == (if result.Some? then body + RESULT_FRAME + result.value else body) + STATE_END
  {
  }

  lemma NoOverlap(from: nat, to: nat)
    requires from <= to
    ensures Overlap([], 0, from, to) == []
  {
  }

  /** The part of the glued bytes, when they have the recorded length. */
  lemma WholeRange(v: View, versions: seq<Option<u64>>, c: Checkpoint, from: nat, to: nat)
    requires WellFormed(v) && RootsInView(v, versions) && from <= to
    ensures !HasRoots(versions, c) ==> CanonicalRange(v, versions, c, from, to) == Err(Format)
    ensures HasRoots(versions, c) ==>
      var whole := Glued(VersionBytes(v, versions, c.identityVersion), OptionBytes(v, versions, c.messagesVersion),
                         OptionBytes(v, versions, c.resultVersion));
      CanonicalRange(v, versions, c, from, to)
      == if |whole| == c.logicalLen then Ok(Overlap(whole, 0, from, to)) else Err(Format)
  {
    hide Extract, Reconstruct, Overlap, Glued, WellFormed, RootsInView;
    GluedIsReconstruction(v, versions, c);
  }

  /** Two adjacent ranges join; a failing tail fails the whole. */
  lemma ChunksJoin(v: View, versions: seq<Option<u64>>, c: Checkpoint, offset: nat, done: nat, take: nat, left: nat)
    requires 0 < take <= left
    requires done > 0 ==> RangeOf(v, versions, c, offset, done).Ok?
    ensures RangeOf(v, versions, c, offset + done, take).Err? ==>
      RangeOf(v, versions, c, offset, done + left).Err?
    ensures RangeOf(v, versions, c, offset + done, take).Ok? ==>
      RangeOf(v, versions, c, offset, done + take)
      == Ok((if done > 0 then RangeOf(v, versions, c, offset, done).value else [])
            + RangeOf(v, versions, c, offset + done, take).value)
  {
    hide Reconstruct;
    if RangeOf(v, versions, c, offset + done, take).Ok? {
      var bytes := Reconstruct(v, versions, c).value;
      assert bytes[offset..offset + done] + bytes[offset + done..offset + done + take]
          == bytes[offset..offset + done + take];
      assert done == 0 ==> bytes[offset..offset + done] == [];
    }
  }

  /** The store's memoised subtree sizes and the range readers over them. */
  class RangeReader {
    var view: View
    var sizes: seq<Option<u64>>

    /** Every memoised size is the true one. */
    ghost predicate Valid()
      reads this
    {
      && WellFormed(view)
      && |sizes| <= |view.nodes|
      && (forall i :: 0 <= i < |sizes| && sizes[i].Some? ==> sizes[i].value == Size(view, i))
    }

    constructor (v: View)
      requires WellFormed(v)
      ensures Valid() && view == v && sizes == []
    {
      view, sizes := v, [];
    }

    /** An append only extends the nodes, so the table is kept. */
    method Grow(v: View)
      requires Valid() && WellFormed(v) && Extends(view, v)
      modifies this
      ensures Valid() && view == v && sizes == old(sizes)
    {
      forall i | 0 <= i < |sizes| && sizes[i].Some?
        ensures sizes[i].value == Size(v, i)
      {
        ExtractTotal(view, i);
        ExtractExtends(view, v, i);
      }
      view := v;
    }

    /** A seal or a prune may renumber nodes, so the table is dropped. */
    method Replace(v: View)
      requires WellFormed(v)
      modifies this
      ensures Valid() && view == v && sizes == []
    {
      view, sizes := v, [];
    }

    /** The size of a node is in the table and need not be worked out again. */
    predicate Measured(root: nat)
      reads this
    {
      root < |sizes| && sizes[root].Some?
    }

    /** The size below a node, or an overflow of the 64 bits it is counted in. */
    method TermSize(root: nat) returns (r: Result<u64>)
      requires Valid() && root < |view.nodes|
      modifies this`sizes
      ensures Valid()
      ensures r.Ok? <==> Size(view, root) <= U64_MAX
      ensures r.Ok? ==> r.value == Size(view, root) && Measured(root)
      ensures forall i: nat :: old(Measured(i)) ==> Measured(i)
      decreases root
    {
      if root < |sizes| && sizes[root].Some? { return Ok(sizes[root].value); }
      ExtractTotal(view, root);
      assert NodeOk(view, root);
      var total: nat;
      match view.nodes[root] {
        case Some(Leaf(_, length)) => total := length;
        case Some(Binary(left, right)) =>
          var a := TermSize(left);
          if a.Err? { return Err(Format); }
          var b := TermSize(right);
          if b.Err? { return Err(Format); }
          if a.value + b.value > U64_MAX { return Err(Format); }
          total := a.value + b.value;
      }
      if |sizes| <= root {
        sizes := sizes + seq(root + 1 - |sizes|, _ => None);
      }
      sizes := sizes[root := Some(total)];
      return Ok(total);
    }

    /** Opening measures the root of every version. */
    method MeasureRoots(versions: seq<Option<u64>>) returns (r: Result<()>)
      requires Valid() && RootsInView(view, versions)
      modifies this`sizes
      ensures Valid()
      ensures r.Ok? <==> forall i :: 0 <= i < |versions| && versions[i].Some? ==> Fits(view, versions[i].value)
      ensures r.Ok? ==> forall i :: 0 <= i < |versions| && versions[i].Some? ==> Measured(versions[i].value)
    {
      hide WellFormed;
      for k := 0 to |versions|
        invariant Valid()
        invariant forall i :: 0 <= i < k && versions[i].Some? ==> Measured(versions[i].value)
        invariant forall i :: 0 <= i < k && versions[i].Some? ==> Fits(view, versions[i].value)
      {
        if versions[k].Some? {
          ExtractTotal(view, versions[k].value);
          var size := TermSize(versions[k].value);
          if size.Err? { return Err(Format); }
        }
      }
      return Ok(());
    }

    /** The work-stack range reader returns exactly the slice. */
    method AppendRootRange(root: nat, rootLen: u64, offset: nat, length: nat) returns (r: Result<seq<byte>>)
      requires Valid() && root < |view.nodes| && rootLen == Size(view, root)
      modifies this`sizes
      ensures Valid()
      ensures r.Ok? <==> offset + length <= rootLen
      ensures r.Ok? ==> r.value == Wanted(view, Want(root, offset, length))
    {
      hide Fits, Split, AllFit, Extract, WellFormed, Wanted, WantedAll, AllInBounds, Work, Size;
      if offset + length > rootLen { return Err(Format); }
      SizeFits(view, root);
      var out: seq<byte> := [];
      var stack := [Want(root, offset, length)];
      OneWant(view, stack[0]);
      OneFits(view, stack);
      ghost var target := Wanted(view, stack[0]);
      while stack != []
        invariant Valid() && AllInBounds(view, stack) && AllFit(view, stack)
        invariant out + WantedAll(view, stack) == target
        decreases Work(view, stack)
      {
        var w, rest := stack[|stack| - 1], stack[..|stack| - 1];
        assert stack == rest + [w];
        TopWant(view, rest, w, out);
        RestFits(view, rest, w);
        if w.length == 0 {
          stack := rest;
        } else {
          match view.nodes[w.node] {
            case Some(Leaf(start, size)) =>
              if w.offset >= size { assert false; }
              var take := Min(size - w.offset, w.length);
              out, stack := out + view.arena[start + w.offset..start + w.offset + take], rest;
            case Some(Binary(left, right)) =>
              var leftSize := TermSize(left);
              ChildrenFit(view, rest, w, left, right);
              if leftSize.Err? { return Err(Format); }
              SplitIsSlice(view, rest, w, left, right);
              stack := rest + Split(left, right, leftSize.value, w.offset, w.length);
          }
        }
      }
      NoWants(view, out);
      return Ok(out);
    }

    /** One stored channel's part of a canonical range, after the parts `whole`;
        positions past 64 bits are refused. */
    method AppendRootSegment(root: nat, from: nat, to: nat, out: seq<byte>, cursor: u64, ghost whole: seq<byte>)
      returns (r: Result<(seq<byte>, u64)>, ghost whole': seq<byte>)
      requires Valid() && root < |view.nodes| && from <= to
      requires cursor == |whole| && out == Overlap(whole, 0, from, to)
      modifies this`sizes
      ensures Valid()
      ensures Extract(view, root).Some? && whole' == whole + Extract(view, root).value
      ensures r.Ok? <==> |whole'| <= U64_MAX
      ensures r.Ok? ==> r.value == (Overlap(whole', 0, from, to), |whole'|)
    {
      ExtractTotal(view, root);
      ghost var piece := Extract(view, root).value;
      whole' := whole + piece;
      var size := TermSize(root);
      if size.Err? { return Err(Format), whole'; }
      if cursor + size.value > U64_MAX { return Err(Format), whole'; }
      var end := cursor + size.value;
      var lo := if from > cursor then from else cursor;
      var hi := Min(to, end);
      OverlapConcat(whole, piece, 0, from, to);
      var out' := out;
      if lo < hi {
        var part := AppendRootRange(root, size.value, lo - cursor, hi - lo);
        out' := out + part.value;
      }
      assert out' == Overlap(whole', 0, from, to);
      return Ok((out', end)), whole';
    }

    /** A fixed piece of the framing, after the parts `whole`. */
    static method AppendStatic(piece: seq<byte>, from: nat, to: nat, out: seq<byte>, cursor: u64,
                               ghost whole: seq<byte>)
      returns (r: Result<(seq<byte>, u64)>, ghost whole': seq<byte>)
      requires from <= to && cursor == |whole| && out == Overlap(whole, 0, from, to)
      ensures whole' == whole + piece
      ensures r.Ok? <==> |whole'| <= U64_MAX
      ensures r.Ok? ==> r.value == (Overlap(whole', 0, from, to), |whole'|)
    {
      OverlapConcat(whole, piece, 0, from, to);
      whole' := whole + piece;
      if cursor + |piece| > U64_MAX { return Err(Format), whole'; }
      return Ok((out + Overlap(piece, cursor, from, to), cursor + |piece|)), whole';
    }

    /** A range of the canonical framing, channel by channel. */
    method AppendCanonicalRange(versions: seq<Option<u64>>, c: Checkpoint, from: nat, to: nat)
      returns (r: Result<seq<byte>>)
      requires Valid() && RootsInView(view, versions) && from <= to
      modifies this`sizes
      ensures Valid()
      ensures r == CanonicalRange(view, versions, c, from, to)
    {
      hide Reconstruct, Overlap, Size, WellFormed, CanonicalRange, Glued;
      GluedIsReconstruction(view, versions, c);
      WholeRange(view, versions, c, from, to);
      if !HasRoots(versions, c) { return Err(Format); }
      ghost var identity := VersionBytes(view, versions, c.identityVersion);
      ghost var messages := OptionBytes(view, versions, c.messagesVersion);
      ghost var result := OptionBytes(view, versions, c.resultVersion);
      GluedParts(identity, messages, result);
      assert Overlap([], 0, from, to) == [] by { NoOverlap(from, to); }
      var s, whole := AppendStatic(IDENTITY_FRAME, from, to, [], 0, []);
      if s.Err? { return Err(Format); }
      s, whole :=
        AppendRootSegment(versions[c.identityVersion].value, from, to, s.value.0, s.value.1, whole);
      if s.Err? { return Err(Format); }
      s, whole := AppendStatic(MESSAGES_FRAME, from, to, s.value.0, s.value.1, whole);
      if s.Err? { return Err(Format); }
      if c.messagesVersion.Some? {
        s, whole :=
          AppendRootSegment(versions[c.messagesVersion.value].value, from, to, s.value.0, s.value.1, whole);
        if s.Err? { return Err(Format); }
      }
      s, whole := AppendStatic(MESSAGES_END, from, to, s.value.0, s.value.1, whole);
      if s.Err? { return Err(Format); }
      if c.resultVersion.Some? {
        s, whole := AppendStatic(RESULT_FRAME, from, to, s.value.0, s.value.1, whole);
        if s.Err? { return Err(Format); }
        s, whole :=
          AppendRootSegment(versions[c.resultVersion.value].value, from, to, s.value.0, s.value.1, whole);
        if s.Err? { return Err(Format); }
      }
      s, whole := AppendStatic(STATE_END, from, to, s.value.0, s.value.1, whole);
      if s.Err? { return Err(Format); }
      if s.value.1 != c.logicalLen { return Err(Format); }
      return Ok(s.value.0);
    }

    /** The public range read: the bounds, the empty range, then the framing. */
    method ReadRange(versions: seq<Option<u64>>, c: Checkpoint, offset: nat, length: nat)
      returns (r: Result<seq<byte>>)
      requires Valid() && RootsInView(view, versions)
      modifies this`sizes
      ensures Valid()
      ensures r == RangeOf(view, versions, c, offset, length)
    {
      if offset + length > c.logicalLen { return Err(Format); }
      if length == 0 { return Ok([]); }
      r := AppendCanonicalRange(versions, c, offset, offset + length);
    }

    /** Chunks of the given size, the last one what is left, are handed on in
        order; end to end they are the range, and after a failure its front. */
    method StreamRange(versions: seq<Option<u64>>, c: Checkpoint, offset: nat, length: nat, chunk: nat)
      returns (r: Result<()>, delivered: seq<seq<byte>>)
      requires Valid() && RootsInView(view, versions)
      modifies this`sizes
      ensures Valid()
      ensures r.Ok? <==> chunk > 0 && RangeOf(view, versions, c, offset, length).Ok?
      ensures r.Ok? ==> Joined(delivered) == RangeOf(view, versions, c, offset, length).value
      ensures FullChunks(delivered, chunk)
      ensures delivered != [] ==> RangeOf(view, versions, c, offset, |Joined(delivered)|) == Ok(Joined(delivered))
    {
      hide CanonicalRange, WellFormed, Size, FullChunks, AllFull, Joined, RangeOf;
      delivered := [];
      NoChunks(chunk);
      if chunk == 0 { return Err(Format), []; }
      if length == 0 {
        var whole := ReadRange(versions, c, offset, 0);
        if whole.Err? { return Err(Format), []; }
        RangeLength(view, versions, c, offset, 0);
        return Ok(()), [];
      }
      var cursor, end := offset, offset + length;
      while cursor < end
        invariant Valid() && offset <= cursor <= end
        invariant cursor > offset ==>
          RangeOf(view, versions, c, offset, cursor - offset) == Ok(Joined(delivered))
        invariant FullChunks(delivered, chunk) && |Joined(delivered)| == cursor - offset
        invariant cursor < end ==> AllFull(delivered, chunk)
        invariant cursor == offset <==> delivered == []
      {
        var take := Min(chunk, end - cursor);
        var part := ReadRange(versions, c, cursor, take);
        ChunksJoin(view, versions, c, offset, cursor - offset, take, end - cursor);
        if part.Err? { return Err(Format), delivered; }
        RangeLength(view, versions, c, cursor, take);
        OneMoreChunk(delivered, part.value, chunk);
        delivered, cursor := delivered + [part.value], cursor + take;
      }
      return Ok(()), delivered;
    }
  }

  predicate AllFull(chunks: seq<seq<byte>>, chunk: nat) {
    forall i :: 0 <= i < |chunks| ==> |chunks[i]| == chunk
  }

  /** All chunks but the last are full, and the last is not empty. */
  predicate FullChunks(chunks: seq<seq<byte>>, chunk: nat) {
    chunks != [] ==> AllFull(chunks[..|chunks| - 1], chunk) && 0 < |chunks[|chunks| - 1]| <= chunk
  }

  lemma NoChunks(chunk: nat)
    ensures FullChunks([], chunk) && AllFull([], chunk) && Joined([]) == []
  {
  }

  lemma OneMoreChunk(chunks: seq<seq<byte>>, part: seq<byte>, chunk: nat)
    requires AllFull(chunks, chunk) && 0 < |part| <= chunk
    ensures FullChunks(chunks + [part], chunk) && Joined(chunks + [part]) == Joined(chunks) + part
    ensures |part| == chunk ==> AllFull(chunks + [part], chunk)
  {
    assert (chunks + [part])[..|chunks|] == chunks;
  }

  lemma RangeLength(v: View, versions: seq<Option<u64>>, c: Checkpoint, offset: nat, length: nat)
    requires RangeOf(v, versions, c, offset, length).Ok?
    ensures |RangeOf(v, versions, c, offset, length).value| == length
  {
    hide Reconstruct;
  }
}
