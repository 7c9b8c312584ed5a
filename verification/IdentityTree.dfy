/** An identity stored as a balanced tree over new and reused leaves. */
module IdentityTree {
  import opened Wrappers
  import opened Bytes
  import opened Format
  import opened Dag
  import opened Model
  import opened TransactionFormat
  import opened Transactions
  import opened Appends
  import opened Compaction

  /** Bytes to store, or a committed node with the length it is said to have. */
  datatype LeafSource = New(bytes: seq<byte>) | Existing(node: nat, length: nat)

  function LeafLen(leaf: LeafSource): nat {
    if leaf.New? then |leaf.bytes| else leaf.length
  }

  function TotalLen(leaves: seq<LeafSource>): nat {
    if leaves == [] then 0 else TotalLen(leaves[..|leaves| - 1]) + LeafLen(leaves[|leaves| - 1])
  }

  // Trees over a frontier

  /** A binary tree of depth at most `d` whose frontier, left to right, is `ids`. */
  ghost predicate Tree(v: View, root: nat, ids: seq<nat>, d: nat)
    decreases d
  {
    || ids == [root]
    || (d > 0 && root < |v.nodes| && v.nodes[root].Some? && v.nodes[root].value.Binary?
        && v.nodes[root].value.left < root && v.nodes[root].value.right < root
        && exists k: nat :: SplitAt(v, v.nodes[root].value.left, v.nodes[root].value.right, ids, d, k))
  }

  ghost predicate SplitAt(v: View, left: nat, right: nat, ids: seq<nat>, d: nat, k: nat)
    requires d > 0
    decreases d, 0
  {
    0 < k < |ids| && Tree(v, left, ids[..k], d - 1) && Tree(v, right, ids[k..], d - 1)
  }

  /** The tree that pairing level by level gives, at most `d` high: as long as the
      leaves do not fit the half below it, a branch whose left side is full. */
  ghost predicate Balanced(v: View, root: nat, ids: seq<nat>, d: nat)
    decreases d
  {
    if d == 0 then ids == [root]
    else
      var half := Pow2(d - 1);
      if |ids| <= half then Balanced(v, root, ids, d - 1)
      else
        && root < |v.nodes| && v.nodes[root].Some? && v.nodes[root].value.Binary?
        && v.nodes[root].value.left < root && v.nodes[root].value.right < root
        && Balanced(v, v.nodes[root].value.left, ids[..half], d - 1)
        && Balanced(v, v.nodes[root].value.right, ids[half..], d - 1)
  }

  lemma {:induction false} BalancedIsTree(v: View, root: nat, ids: seq<nat>, d: nat)
    requires Balanced(v, root, ids, d)
    ensures Tree(v, root, ids, d)
    decreases d
  {
    if d > 0 {
      var half := Pow2(d - 1);
      if |ids| <= half {
        BalancedIsTree(v, root, ids, d - 1);
        TreeDeeper(v, root, ids, d - 1);
      } else {
        var left, right := v.nodes[root].value.left, v.nodes[root].value.right;
        BalancedIsTree(v, left, ids[..half], d - 1);
        BalancedIsTree(v, right, ids[half..], d - 1);
        assert SplitAt(v, left, right, ids, d, half);
      }
    }
  }

  lemma {:induction false} BalancedExtends(v: View, w: View, root: nat, ids: seq<nat>, d: nat)
    requires Extends(v, w) && Balanced(v, root, ids, d)
    ensures Balanced(w, root, ids, d)
    decreases d
  {
    if d > 0 {
      var half := Pow2(d - 1);
      if |ids| <= half {
        BalancedExtends(v, w, root, ids, d - 1);
      } else {
        assert w.nodes[root] == v.nodes[root];
        BalancedExtends(v, w, v.nodes[root].value.left, ids[..half], d - 1);
        BalancedExtends(v, w, v.nodes[root].value.right, ids[half..], d - 1);
      }
    }
  }

  /** In-order bytes of a frontier. */
  function Ordered(v: View, ids: seq<nat>): Option<seq<byte>> {
    if ids == [] then Some([]) else Join(Ordered(v, ids[..|ids| - 1]), Extract(v, ids[|ids| - 1]))
  }

  lemma {:induction false} OrderedConcat(v: View, a: seq<nat>, b: seq<nat>)
    ensures Ordered(v, a + b) == Join(Ordered(v, a), Ordered(v, b))
    decreases |b|
  {
    if b == [] {
      assert a + b == a;
      if Ordered(v, a).Some? { assert Ordered(v, a).value + [] == Ordered(v, a).value; }
    } else {
      var init := b[..|b| - 1];
      assert (a + b)[..|a + b| - 1] == a + init;
      OrderedConcat(v, a, init);
      JoinAssociates(Ordered(v, a), Ordered(v, init), Extract(v, b[|b| - 1]));
    }
  }

  /** A tree extracts to its frontier in order, whatever its shape. */
  lemma {:induction false} TreeExtracts(v: View, root: nat, ids: seq<nat>, d: nat)
    requires Tree(v, root, ids, d) && Ordered(v, ids).Some?
    ensures Extract(v, root) == Ordered(v, ids)
    decreases d
  {
    if ids == [root] {
      assert ids[..0] == [];
      if Extract(v, root).Some? { assert [] + Extract(v, root).value == Extract(v, root).value; }
    } else {
      var left, right := v.nodes[root].value.left, v.nodes[root].value.right;
      var k: nat :| SplitAt(v, left, right, ids, d, k);
      assert ids == ids[..k] + ids[k..];
      OrderedConcat(v, ids[..k], ids[k..]);
      TreeExtracts(v, left, ids[..k], d - 1);
      TreeExtracts(v, right, ids[k..], d - 1);
    }
  }

  lemma {:induction false} TreeExtends(v: View, w: View, root: nat, ids: seq<nat>, d: nat)
    requires Extends(v, w) && Tree(v, root, ids, d)
    ensures Tree(w, root, ids, d)
    decreases d
  {
    if ids != [root] {
      assert w.nodes[root] == v.nodes[root];
      var left, right := v.nodes[root].value.left, v.nodes[root].value.right;
      var k: nat :| SplitAt(v, left, right, ids, d, k);
      TreeExtends(v, w, left, ids[..k], d - 1);
      TreeExtends(v, w, right, ids[k..], d - 1);
      assert SplitAt(w, left, right, ids, d, k);
    }
  }

  lemma {:induction false} TreeDeeper(v: View, root: nat, ids: seq<nat>, d: nat)
    requires Tree(v, root, ids, d)
    ensures Tree(v, root, ids, d + 1)
    decreases d
  {
    if ids != [root] {
      var left, right := v.nodes[root].value.left, v.nodes[root].value.right;
      var k: nat :| SplitAt(v, left, right, ids, d, k);
      TreeDeeper(v, left, ids[..k], d - 1);
      TreeDeeper(v, right, ids[k..], d - 1);
      assert SplitAt(v, left, right, ids, d + 1, k);
    }
  }

  lemma {:induction false} OrderedExtends(v: View, w: View, ids: seq<nat>)
    requires Extends(v, w) && Ordered(v, ids).Some?
    ensures Ordered(w, ids) == Ordered(v, ids)
  {
    if ids != [] {
      OrderedExtends(v, w, ids[..|ids| - 1]);
      ExtractExtends(v, w, ids[|ids| - 1]);
    }
  }

  // Pairing level by level

  /** The frontier below position `j` of a level whose nodes cover `p` each. */
  function Chunk(ids: seq<nat>, j: nat, p: nat): (r: seq<nat>)
    requires j * p <= |ids|
  {
    ids[j * p..if (j + 1) * p < |ids| then (j + 1) * p else |ids|]
  }

  /** A level after `d` rounds: one tree for every 2^d leaves. */
  ghost predicate LevelHolds(v: View, ids: seq<nat>, level: seq<nat>, d: nat) {
    && |level| > 0 && (|level| - 1) * Pow2(d) < |ids| <= |level| * Pow2(d)
    && AllPlaces(v, ids, level, d)
  }

  ghost predicate AllPlaces(v: View, ids: seq<nat>, level: seq<nat>, d: nat) {
    forall j :: 0 <= j < |level| ==> PlaceHolds(v, ids, level, d, j)
  }

  ghost predicate PlaceHolds(v: View, ids: seq<nat>, level: seq<nat>, d: nat, j: nat)
    requires j < |level|
  {
    j * Pow2(d) <= |ids| && level[j] < |v.nodes| && Balanced(v, level[j], Chunk(ids, j, Pow2(d)), d)
  }

  lemma ChunkPairs(ids: seq<nat>, j: nat, p: nat)
    requires (2 * j + 1) * p <= |ids|
    ensures (2 * j) * p == j * (2 * p) <= |ids| && (2 * j + 2) * p == (j + 1) * (2 * p)
    ensures Chunk(ids, 2 * j, p) + Chunk(ids, 2 * j + 1, p) == Chunk(ids, j, 2 * p)
    ensures |Chunk(ids, 2 * j, p)| == p
  {
    assert (2 * j) * p == j * (2 * p) && (2 * j + 1) * p == j * (2 * p) + p && (2 * j + 2) * p == (j + 1) * (2 * p);
  }

  lemma ChunkAlone(ids: seq<nat>, j: nat, p: nat)
    requires (2 * j) * p <= |ids| <= (2 * j + 1) * p
    ensures (2 * j) * p == j * (2 * p) && |ids| <= (j + 1) * (2 * p)
    ensures Chunk(ids, 2 * j, p) == Chunk(ids, j, 2 * p) && |Chunk(ids, 2 * j, p)| <= p
  {
    assert (2 * j) * p == j * (2 * p) && (2 * j + 1) * p == j * (2 * p) + p && (j + 1) * (2 * p) == j * (2 * p) + 2 * p;
  }

  /** A branch over a full tree and its neighbour is the tree over both. */
  lemma BranchIsBalanced(v: View, root: nat, left: nat, right: nat, a: seq<nat>, b: seq<nat>, d: nat)
    requires root < |v.nodes| && v.nodes[root] == Some(Binary(left, right)) && left < root && right < root
    requires |a| == Pow2(d) && b != [] && Balanced(v, left, a, d) && Balanced(v, right, b, d)
    ensures Balanced(v, root, a + b, d + 1)
  {
    assert (a + b)[..|a|] == a && (a + b)[|a|..] == b;
  }

  // Which node is where

  /** How many nodes a level has after `d` rounds. */
  function Width(n: nat, d: nat): nat {
    if d == 0 then n else (Width(n, d - 1) + 1) / 2
  }

  /** The id of branch `j` of round `d`: branches are numbered in order from
      `first`, one round after the other. */
  function BranchAt(n: nat, first: nat, d: nat, j: nat): int { first + n - Width(n, d) + j }

  /** The node at position `j` after `d` rounds: a leaf, a branch of the round
      before, or the odd node it left alone. */
  function NodeAt(ids: seq<nat>, first: nat, d: nat, j: nat): int
    requires j < Width(|ids|, d)
    decreases d
  {
    if d == 0 then ids[j]
    else if 2 * j + 1 < Width(|ids|, d - 1) then BranchAt(|ids|, first, d - 1, j)
    else NodeAt(ids, first, d - 1, 2 * j)
  }

  /** Branch `j` of round `d` is close enough to both its children. */
  predicate Near(ids: seq<nat>, first: nat, d: nat, j: nat)
    requires 2 * j + 1 < Width(|ids|, d)
  {
    && BranchAt(|ids|, first, d, j) - NodeAt(ids, first, d, 2 * j) <= U32_MAX
    && BranchAt(|ids|, first, d, j) - NodeAt(ids, first, d, 2 * j + 1) <= U32_MAX
  }

  ghost predicate RoundNear(ids: seq<nat>, first: nat, d: nat) {
    forall j: nat :: 2 * j + 1 < Width(|ids|, d) ==> Near(ids, first, d, j)
  }

  /** Every branch of the tree is close enough to its children for a compact
      slot. */
  ghost predicate AllNear(ids: seq<nat>, first: nat) {
    forall d: nat :: RoundNear(ids, first, d)
  }

  ghost predicate LevelIs(ids: seq<nat>, first: nat, level: seq<nat>, d: nat) {
    |level| == Width(|ids|, d) && forall j :: 0 <= j < |level| ==> level[j] == NodeAt(ids, first, d, j)
  }

  /** A pair of a level goes under the branch of its position. */
  lemma PairPlaced(ids: seq<nat>, first: nat, level: seq<nat>, d: nat, j: nat)
    requires LevelIs(ids, first, level, d) && 2 * j + 1 < |level|
    ensures j < Width(|ids|, d + 1) && NodeAt(ids, first, d + 1, j) == BranchAt(|ids|, first, d, 0) + j
    ensures Near(ids, first, d, j) <==>
      && BranchAt(|ids|, first, d, 0) + j - level[2 * j] <= U32_MAX
      && BranchAt(|ids|, first, d, 0) + j - level[2 * j + 1] <= U32_MAX
    ensures RoundNear(ids, first, d) ==> Near(ids, first, d, j)
  {
  }

  /** The odd node goes up as it is. */
  lemma OddPlaced(ids: seq<nat>, first: nat, level: seq<nat>, d: nat, j: nat)
    requires LevelIs(ids, first, level, d) && |level| == 2 * j + 1
    ensures j < Width(|ids|, d + 1) && NodeAt(ids, first, d + 1, j) == level[2 * j]
  {
  }

  lemma {:induction false} NarrowStays(n: nat, d: nat, e: nat)
    requires d <= e && Width(n, d) <= 1
    ensures Width(n, e) <= 1
  {
    if d < e { NarrowStays(n, d, e - 1); }
  }

  /** Once one node is left every later round has nothing to pair. */
  lemma NearThroughout(ids: seq<nat>, first: nat, d: nat)
    requires Width(|ids|, d) <= 1 && forall e: nat :: e < d ==> RoundNear(ids, first, e)
    ensures AllNear(ids, first)
  {
    forall e: nat
      ensures RoundNear(ids, first, e)
    {
      if e >= d { NarrowStays(|ids|, d, e); }
    }
  }

  /** The ids of the leaves: new ones are numbered from `base` in order. */
  function LeafIds(base: nat, leaves: seq<LeafSource>): (r: seq<nat>)
    ensures |r| == |leaves|
  {
    if leaves == [] then []
    else
      var init, leaf := leaves[..|leaves| - 1], leaves[|leaves| - 1];
      LeafIds(base, init) + [if leaf.New? then base + NewCount(init) else leaf.node]
  }

  // Building

  /** The committed state with payload and nodes of the transaction so far. */
  function Built(s: StoreState, payload: seq<byte>, slots: seq<Slot>): StoreState {
    s.(arena := s.arena + payload, nodes := s.nodes + slots)
  }

  function LeafBytes(s: StoreState, leaf: LeafSource): seq<byte> {
    match leaf
    case New(bytes) => bytes
    case Existing(node, _) => if Extract(ViewOf(s), node).Some? then Extract(ViewOf(s), node).value else []
  }

  /** The identity the leaves stand for. */
  function IdentityOf(s: StoreState, leaves: seq<LeafSource>): seq<byte> {
    if leaves == [] then [] else IdentityOf(s, leaves[..|leaves| - 1]) + LeafBytes(s, leaves[|leaves| - 1])
  }

  predicate Usable(s: StoreState, leaf: LeafSource) {
    if leaf.New? then |leaf.bytes| <= U32_MAX else leaf.node < |s.nodes|
  }

  ghost predicate AllUsable(s: StoreState, leaves: seq<LeafSource>) {
    forall leaf :: leaf in leaves ==> Usable(s, leaf)
  }

  function NewCount(leaves: seq<LeafSource>): nat {
    if leaves == [] then 0 else NewCount(leaves[..|leaves| - 1]) + (if leaves[|leaves| - 1].New? then 1 else 0)
  }

  /** The payload new leaves bring, in order. */
  function NewPayload(leaves: seq<LeafSource>): seq<byte> {
    if leaves == [] then []
    else NewPayload(leaves[..|leaves| - 1])
         + (if leaves[|leaves| - 1].New? then leaves[|leaves| - 1].bytes else [])
  }

  /** Node and bytes of one leaf in what is built. */
  ghost predicate LeafBuilt(s: StoreState, v: View, leaf: LeafSource, id: nat) {
    && id < |v.nodes| && Extract(v, id) == Some(LeafBytes(s, leaf))
    && (leaf.New? ==> v.nodes[id].Some? && v.nodes[id].value.Leaf? && v.nodes[id].value.length == |leaf.bytes|)
    && (leaf.Existing? ==> id == leaf.node)
  }

  lemma LeafStays(s: StoreState, v: View, w: View, leaf: LeafSource, id: nat)
    requires Extends(v, w) && LeafBuilt(s, v, leaf, id)
    ensures LeafBuilt(s, w, leaf, id)
  {
    ExtractExtends(v, w, id);
    assert w.nodes[id] == v.nodes[id];
  }

  lemma {:induction false} OrderedIs(s: StoreState, v: View, leaves: seq<LeafSource>, ids: seq<nat>)
    requires |leaves| == |ids| && forall i :: 0 <= i < |ids| ==> LeafBuilt(s, v, leaves[i], ids[i])
    ensures Ordered(v, ids) == Some(IdentityOf(s, leaves))
  {
    if ids != [] {
      var n := |ids| - 1;
      OrderedIs(s, v, leaves[..n], ids[..n]);
      assert LeafBuilt(s, v, leaves[n], ids[n]);
    }
  }

  /** Adding a new leaf node over new payload. */
  lemma NewLeafBuilt(s: StoreState, payload: seq<byte>, slots: seq<Slot>, bytes: seq<byte>)
    requires s.base == EMPTY_GEOMETRY && WellFormed(ViewOf(Built(s, payload, slots)))
    requires |bytes| <= U32_MAX && |s.arena| + |payload| <= U64_MAX
    ensures var t := Built(s, payload + bytes, slots + [LeafSlot(|s.arena| + |payload|, |bytes|)]);
      && WellFormed(ViewOf(t)) && Extends(ViewOf(Built(s, payload, slots)), ViewOf(t))
      && LeafBuilt(s, ViewOf(t), New(bytes), |s.nodes| + |slots|)
  {
    var before, slot := Built(s, payload, slots), LeafSlot(|s.arena| + |payload|, |bytes|);
    var t := Built(s, payload + bytes, slots + [slot]);
    assert t.arena == before.arena + bytes && t.nodes == before.nodes + [slot];
    ViewGrows(before, t);
    var id := |s.nodes| + |slots|;
    assert DecodeNode(t, id) == Some(Leaf(|before.arena|, |bytes|)) && ViewOf(t).nodes[id] == DecodeNode(t, id);
    assert t.arena[|before.arena|..|before.arena| + |bytes|] == bytes;
    FormedAbove(ViewOf(before), ViewOf(t));
  }

  lemma FormedAbove(v: View, w: View)
    requires WellFormed(v) && Extends(v, w) && |w.nodes| == |v.nodes| + 1 && NodeOk(w, |v.nodes|)
    ensures WellFormed(w)
  {
    forall id | 0 <= id < |w.nodes|
      ensures NodeOk(w, id)
    {
      if id < |v.nodes| {
        assert NodeOk(v, id);
        assert w.nodes[id] == v.nodes[id];
      }
    }
  }

  /** Adding a branch over two nodes not too far below. */
  lemma BranchBuilt(s: StoreState, payload: seq<byte>, slots: seq<Slot>, left: nat, right: nat)
    requires s.base == EMPTY_GEOMETRY && WellFormed(ViewOf(Built(s, payload, slots)))
    requires var id := |s.nodes| + |slots|; left < id && right < id && id - left <= U32_MAX && id - right <= U32_MAX
    ensures var id := |s.nodes| + |slots|;
      var t := Built(s, payload, slots + [BinarySlot(id - left, id - right)]);
      && WellFormed(ViewOf(t)) && Extends(ViewOf(Built(s, payload, slots)), ViewOf(t))
      && id < |ViewOf(t).nodes| && ViewOf(t).nodes[id] == Some(Binary(left, right))
  {
    var id := |s.nodes| + |slots|;
    var before, slot := Built(s, payload, slots), BinarySlot(id - left, id - right);
    var t := Built(s, payload, slots + [slot]);
    assert t.nodes == before.nodes + [slot] && t.arena == before.arena;
    ViewGrows(before, t);
    BinaryDecodes(id, left, right);
    assert DecodeNode(t, id) == Some(Binary(left, right)) && ViewOf(t).nodes[id] == DecodeNode(t, id);
    FormedAbove(ViewOf(before), ViewOf(t));
  }

  /** The leaves of the tree: new ones stored, reused ones named. */
  method BuildLeaves(g: Geometry, leaves: seq<LeafSource>, ghost s: StoreState)
    returns (r: Result<(seq<byte>, seq<Slot>, seq<nat>, nat)>)
    requires Inv(s) && g == s.Watermarks()
    ensures r.Ok? ==>
      var (payload, slots, ids, length) := r.value;
      && |ids| == |leaves| && |slots| == NewCount(leaves) && length == TotalLen(leaves)
      && |s.arena| + |payload| <= U64_MAX && payload == NewPayload(leaves)
      && WellFormed(ViewOf(Built(s, payload, slots)))
      && (forall i :: 0 <= i < |leaves| ==> LeafBuilt(s, ViewOf(Built(s, payload, slots)), leaves[i], ids[i]))
    ensures r.Ok? ==> SlotsLocal(r.value.1, g.byteLen) && r.value.2 == LeafIds(g.nodeCount, leaves)
    ensures r.Ok? <==> AllUsable(s, leaves) && |s.arena| + |NewPayload(leaves)| <= U64_MAX
  {
    hide Inv, LeafBuilt, WellFormed, ViewOf, Built, Extends, LeafIds, NewPayload, NewCount, TotalLen;
    assert LeafIds(g.nodeCount, leaves[..0]) == [] && NewPayload(leaves[..0]) == [] && NewCount(leaves[..0]) == 0
           && TotalLen(leaves[..0]) == 0 by { NoLeaves(g.nodeCount, leaves); }
    var payload: seq<byte>, slots: seq<Slot>, ids: seq<nat>, length: nat := [], [], [], 0;
    Formed(s);
    BuiltNothing(s);
    for i := 0 to |leaves|
      invariant |ids| == i && |slots| == NewCount(leaves[..i]) && length == TotalLen(leaves[..i])
      invariant |s.arena| + |payload| <= U64_MAX && payload == NewPayload(leaves[..i])
      invariant ids == LeafIds(g.nodeCount, leaves[..i])
      invariant WellFormed(ViewOf(Built(s, payload, slots)))
      invariant forall j :: 0 <= j < i ==> LeafBuilt(s, ViewOf(Built(s, payload, slots)), leaves[j], ids[j])
      invariant forall j :: 0 <= j < i ==> Usable(s, leaves[j])
      invariant Extends(ViewOf(s), ViewOf(Built(s, payload, slots)))
      invariant SlotsLocal(slots, g.byteLen)
    {
      LeafCounts(leaves, i);
      LeafIdsStep(g.nodeCount, leaves, i);
      assert leaves[i] in leaves;
      match leaves[i] {
        case New(bytes) =>
          if |bytes| > U32_MAX { return Err(Format); }
          if g.byteLen + |payload| + |bytes| > U64_MAX {
            PayloadGrows(leaves, i + 1);
            return Err(Format);
          }
          NewLeafBuilt(s, payload, slots, bytes);
          ghost var v := ViewOf(Built(s, payload, slots));
          var slot := LeafSlot(g.byteLen + |payload|, |bytes|);
          ids := ids + [g.nodeCount + |slots|];
          payload, slots := payload + bytes, slots + [slot];
          forall j | 0 <= j < i
            ensures LeafBuilt(s, ViewOf(Built(s, payload, slots)), leaves[j], ids[j])
          {
            LeafStays(s, v, ViewOf(Built(s, payload, slots)), leaves[j], ids[j]);
          }
          ExtendsChain(ViewOf(s), v, ViewOf(Built(s, payload, slots)));
        case Existing(node, len) =>
          if node >= g.nodeCount { return Err(Format); }
          ReusedBuilt(s, ViewOf(Built(s, payload, slots)), node, len);
          ids := ids + [node];
      }
      length := length + LeafLen(leaves[i]);
    }
    assert leaves[..|leaves|] == leaves;
    return Ok((payload, slots, ids, length));
  }

  lemma Formed(s: StoreState)
    requires Inv(s)
    ensures WellFormed(ViewOf(s)) && s.base == EMPTY_GEOMETRY && |s.arena| <= U64_MAX
    ensures s.Watermarks().byteLen == |s.arena| && s.Watermarks().nodeCount == |s.nodes|
    ensures s.Watermarks().wideCount <= U64_MAX
  {
  }

  lemma BuiltNothing(s: StoreState)
    ensures Built(s, [], []) == s && Extends(ViewOf(s), ViewOf(s))
  {
    assert s.arena + [] == s.arena && s.nodes + [] == s.nodes;
  }

  lemma ExtendsChain(a: View, b: View, c: View)
    requires Extends(a, b) && Extends(b, c)
    ensures Extends(a, c)
  {
  }

  lemma LeafCounts(leaves: seq<LeafSource>, i: nat)
    requires i < |leaves|
    ensures NewCount(leaves[..i + 1]) == NewCount(leaves[..i]) + (if leaves[i].New? then 1 else 0)
    ensures TotalLen(leaves[..i + 1]) == TotalLen(leaves[..i]) + LeafLen(leaves[i])
    ensures NewPayload(leaves[..i + 1])
         == NewPayload(leaves[..i]) + (if leaves[i].New? then leaves[i].bytes else [])
    ensures leaves[i].Existing? ==> NewPayload(leaves[..i + 1]) == NewPayload(leaves[..i])
  {
    assert leaves[..i + 1][..i] == leaves[..i];
  }

  lemma NoLeaves(base: nat, leaves: seq<LeafSource>)
    ensures LeafIds(base, leaves[..0]) == [] && NewPayload(leaves[..0]) == [] && NewCount(leaves[..0]) == 0
    ensures TotalLen(leaves[..0]) == 0
  {
  }

  lemma LeafIdsStep(base: nat, leaves: seq<LeafSource>, i: nat)
    requires i < |leaves|
    ensures LeafIds(base, leaves[..i + 1])
         == LeafIds(base, leaves[..i]) + [if leaves[i].New? then base + NewCount(leaves[..i]) else leaves[i].node]
  {
    assert leaves[..i + 1][..i] == leaves[..i];
  }

  lemma {:induction false} PayloadGrows(leaves: seq<LeafSource>, i: nat)
    requires i <= |leaves|
    ensures |NewPayload(leaves[..i])| <= |NewPayload(leaves)|
    decreases |leaves| - i
  {
    if i == |leaves| {
      assert leaves[..i] == leaves;
    } else {
      LeafCounts(leaves, i);
      PayloadGrows(leaves, i + 1);
    }
  }

  lemma ReusedBuilt(s: StoreState, v: View, node: nat, length: nat)
    requires Inv(s) && node < |s.nodes| && Extends(ViewOf(s), v)
    ensures LeafBuilt(s, v, Existing(node, length), node)
  {
    ExtractTotal(ViewOf(s), node);
    ExtractExtends(ViewOf(s), v, node);
  }

  /** One round of pairing: neighbours under a new branch, a last odd node as it
      is. Fails only on a child too far below its branch. */
  method PairLevel(g: Geometry, level: seq<nat>, slots0: seq<Slot>, ghost s: StoreState, ghost payload: seq<byte>,
                   ghost ids: seq<nat>, ghost first: nat, ghost d: nat)
    returns (r: Result<(seq<nat>, seq<Slot>)>)
    requires s.base == EMPTY_GEOMETRY && g.nodeCount == |s.nodes| && |level| > 1
    requires WellFormed(ViewOf(Built(s, payload, slots0)))
    requires LevelHolds(ViewOf(Built(s, payload, slots0)), ids, level, d)
    requires LevelIs(ids, first, level, d) && |s.nodes| + |slots0| == BranchAt(|ids|, first, d, 0)
    ensures r.Ok? <==> RoundNear(ids, first, d)
    ensures r.Ok? ==> LevelIs(ids, first, r.value.0, d + 1)
    ensures r.Ok? ==>
      var (next, slots) := r.value;
      && |next| == (|level| + 1) / 2 && |slots| + |next| == |slots0| + |level|
      && WellFormed(ViewOf(Built(s, payload, slots)))
      && Extends(ViewOf(Built(s, payload, slots0)), ViewOf(Built(s, payload, slots)))
      && LevelHolds(ViewOf(Built(s, payload, slots)), ids, next, d + 1)
    ensures r.Ok? && SlotsLocal(slots0, g.byteLen) ==> SlotsLocal(r.value.1, g.byteLen)
  {
    hide WellFormed, ViewOf, Built, PlaceHolds, Chunk, Balanced, NodeAt, Near, BranchAt;
    ghost var v0 := ViewOf(Built(s, payload, slots0));
    ghost var p := Pow2(d);
    var next: seq<nat>, slots := [], slots0;
    var i := 0;
    NoPlaces(v0, ids, level, d);
    while i < |level|
      invariant 0 <= i <= |level| && (i == |level| || i == 2 * |next|)
      invariant i == |level| ==> |next| == (|level| + 1) / 2
      invariant |slots| + |next| + (|level| - i) == |slots0| + |level|
      invariant WellFormed(ViewOf(Built(s, payload, slots)))
      invariant Extends(v0, ViewOf(Built(s, payload, slots)))
      invariant AllPlaces(ViewOf(Built(s, payload, slots)), ids, next, d + 1)
      invariant SlotsLocal(slots0, g.byteLen) ==> SlotsLocal(slots, g.byteLen)
      invariant forall k :: 0 <= k < |next| ==> next[k] == NodeAt(ids, first, d + 1, k)
      invariant forall k: nat :: k < |next| && 2 * k + 1 < |level| ==> Near(ids, first, d, k)
    {
      ghost var v, j := ViewOf(Built(s, payload, slots)), |next|;
      if i + 1 == |level| {
        assert PlaceHolds(v0, ids, level, d, i);
        AloneHolds(v0, v, ids, level, d, j, next);
        PlacesKept(v, v, ids, next, level[i], d + 1);
        OddPlaced(ids, first, level, d, j);
        next := next + [level[i]];
        i := i + 1;
      } else {
        var id := g.nodeCount + |slots|;
        assert PlaceHolds(v0, ids, level, d, i) && PlaceHolds(v0, ids, level, d, i + 1);
        PlacesBelow(s, payload, slots0, slots, ids, level, d, i);
        var left, right := level[i], level[i + 1];
        PairPlaced(ids, first, level, d, j);
        if id - left > U32_MAX || id - right > U32_MAX { return Err(Format); }
        BranchBuilt(s, payload, slots, left, right);
        slots := slots + [BinarySlot(id - left, id - right)];
        ghost var w := ViewOf(Built(s, payload, slots));
        ExtendsChain(v0, v, w);
        PairHolds(v0, w, ids, level, d, j, next, id);
        PlacesKept(v, w, ids, next, id, d + 1);
        next := next + [id];
        i := i + 2;
      }
    }
    LevelSize(ids, |level|, |next|, d);
    return Ok((next, slots));
  }

  lemma NoPlaces(v: View, ids: seq<nat>, level: seq<nat>, d: nat)
    requires LevelHolds(v, ids, level, d)
    ensures AllPlaces(v, ids, level, d) && Extends(v, v)
  {
  }

  lemma PlacesKept(v: View, w: View, ids: seq<nat>, next: seq<nat>, one: nat, d: nat)
    requires Extends(v, w) && AllPlaces(v, ids, next, d)
    requires PlaceHolds(w, ids, next + [one], d, |next|)
    ensures AllPlaces(w, ids, next + [one], d)
  {
    hide Chunk, Balanced;
    forall j | 0 <= j <= |next|
      ensures PlaceHolds(w, ids, next + [one], d, j)
    {
      if j < |next| {
        assert PlaceHolds(v, ids, next, d, j);
        BalancedExtends(v, w, next[j], Chunk(ids, j, Pow2(d)), d);
      }
    }
  }

  lemma StaysBalanced(v: View, root: nat, ids: seq<nat>, d: nat)
    requires Balanced(v, root, ids, d) && |ids| <= Pow2(d)
    ensures Balanced(v, root, ids, d + 1)
  {
  }

  /** The last odd node covers what is left, one round later too. */
  lemma AloneHolds(v0: View, v: View, ids: seq<nat>, level: seq<nat>, d: nat, j: nat, next: seq<nat>)
    requires LevelHolds(v0, ids, level, d) && Extends(v0, v) && |level| == 2 * j + 1 && |next| == j
    ensures PlaceHolds(v, ids, next + [level[2 * j]], d + 1, j)
  {
    hide Balanced, Chunk;
    assert PlaceHolds(v0, ids, level, d, 2 * j);
    ChunkAlone(ids, j, Pow2(d));
    BalancedExtends(v0, v, level[2 * j], Chunk(ids, 2 * j, Pow2(d)), d);
    StaysBalanced(v, level[2 * j], Chunk(ids, 2 * j, Pow2(d)), d);
  }

  /** A new branch covers the frontiers of both its children. */
  lemma PairHolds(v0: View, w: View, ids: seq<nat>, level: seq<nat>, d: nat, j: nat, next: seq<nat>, id: nat)
    requires LevelHolds(v0, ids, level, d) && Extends(v0, w) && 2 * j + 1 < |level| && |next| == j
    requires id < |w.nodes| && w.nodes[id] == Some(Binary(level[2 * j], level[2 * j + 1]))
    requires level[2 * j] < id && level[2 * j + 1] < id
    ensures PlaceHolds(w, ids, next + [id], d + 1, j)
  {
    hide Balanced;
    var p := Pow2(d);
    assert PlaceHolds(v0, ids, level, d, 2 * j) && PlaceHolds(v0, ids, level, d, 2 * j + 1);
    Scaled(2 * j + 1, |level| - 1, p);
    ChunkPairs(ids, j, p);
    BalancedExtends(v0, w, level[2 * j], Chunk(ids, 2 * j, p), d);
    BalancedExtends(v0, w, level[2 * j + 1], Chunk(ids, 2 * j + 1, p), d);
    BranchIsBalanced(w, id, level[2 * j], level[2 * j + 1], Chunk(ids, 2 * j, p), Chunk(ids, 2 * j + 1, p), d);
  }

  lemma Scaled(a: nat, b: nat, p: nat)
    requires a <= b
    ensures a * p <= b * p
  {
  }

  lemma PlacesBelow(s: StoreState, payload: seq<byte>, slots0: seq<Slot>, slots: seq<Slot>, ids: seq<nat>,
                    level: seq<nat>, d: nat, i: nat)
    requires LevelHolds(ViewOf(Built(s, payload, slots0)), ids, level, d) && i + 1 < |level| && |slots0| <= |slots|
    ensures level[i] < |s.nodes| + |slots| && level[i + 1] < |s.nodes| + |slots|
  {
    var v := ViewOf(Built(s, payload, slots0));
    assert PlaceHolds(v, ids, level, d, i) && PlaceHolds(v, ids, level, d, i + 1);
  }

  lemma LevelSize(ids: seq<nat>, n: nat, m: nat, d: nat)
    requires n > 1 && m == (n + 1) / 2 && (n - 1) * Pow2(d) < |ids| <= n * Pow2(d)
    ensures (m - 1) * Pow2(d + 1) < |ids| <= m * Pow2(d + 1)
  {
    var p := Pow2(d);
    assert (m - 1) * (2 * p) == (2 * m - 2) * p && m * (2 * p) == (2 * m) * p;
    Scaled(2 * m - 2, n - 1, p);
    Scaled(n, 2 * m, p);
  }

  /** Pairing until one root is left: a tree over the leaves in order, one branch
      for every leaf but one, no deeper than the logarithm rounded up. */
  method BuildTree(g: Geometry, leafIds: seq<nat>, slots0: seq<Slot>, ghost s: StoreState, ghost payload: seq<byte>)
    returns (r: Result<(nat, seq<Slot>)>, ghost depth: nat)
    requires s.base == EMPTY_GEOMETRY && g.nodeCount == |s.nodes| && leafIds != []
    requires WellFormed(ViewOf(Built(s, payload, slots0)))
    requires forall i :: 0 <= i < |leafIds| ==> leafIds[i] < |s.nodes| + |slots0|
    ensures r.Ok? ==>
      var (root, slots) := r.value;
      var v := ViewOf(Built(s, payload, slots));
      && WellFormed(v) && Extends(ViewOf(Built(s, payload, slots0)), v)
      && root < |v.nodes| && Tree(v, root, leafIds, depth) && Balanced(v, root, leafIds, depth)
      && |slots| == |slots0| + |leafIds| - 1
      && |leafIds| <= Pow2(depth) && (depth > 0 ==> Pow2(depth - 1) < |leafIds|)
    ensures r.Ok? && SlotsLocal(slots0, g.byteLen) ==> SlotsLocal(r.value.1, g.byteLen)
    ensures r.Ok? <==> AllNear(leafIds, |s.nodes| + |slots0|)
    ensures r.Ok? ==> Width(|leafIds|, depth) == 1 && r.value.0 == NodeAt(leafIds, |s.nodes| + |slots0|, depth, 0)
  {
    hide WellFormed, ViewOf, Built, LevelHolds, Tree, Balanced, RoundNear, NodeAt;
    var level, slots := leafIds, slots0;
    depth := 0;
    ghost var first := |s.nodes| + |slots0|;
    LeavesFirst(leafIds, first);
    FirstLevel(s, payload, slots0, leafIds);
    while |level| > 1
      invariant WellFormed(ViewOf(Built(s, payload, slots)))
      invariant Extends(ViewOf(Built(s, payload, slots0)), ViewOf(Built(s, payload, slots)))
      invariant LevelHolds(ViewOf(Built(s, payload, slots)), leafIds, level, depth)
      invariant |slots| + |level| == |slots0| + |leafIds| && |level| > 0
      invariant LevelIs(leafIds, first, level, depth) && forall e: nat :: e < depth ==> RoundNear(leafIds, first, e)
      invariant depth > 0 ==> Pow2(depth - 1) < |leafIds|
      invariant SlotsLocal(slots0, g.byteLen) ==> SlotsLocal(slots, g.byteLen)
      decreases |level|
    {
      LevelAbove(ViewOf(Built(s, payload, slots)), leafIds, level, depth);
      ghost var v := ViewOf(Built(s, payload, slots));
      var paired := PairLevel(g, level, slots, s, payload, leafIds, first, depth);
      if paired.Err? { return Err(Format), depth; }
      level, slots := paired.value.0, paired.value.1;
      ExtendsChain(ViewOf(Built(s, payload, slots0)), v, ViewOf(Built(s, payload, slots)));
      depth := depth + 1;
    }
    LastLevel(ViewOf(Built(s, payload, slots)), leafIds, level, depth);
    NearThroughout(leafIds, first, depth);
    return Ok((level[0], slots)), depth;
  }

  lemma LeavesFirst(ids: seq<nat>, first: nat)
    ensures LevelIs(ids, first, ids, 0)
  {
  }

  lemma FirstLevel(s: StoreState, payload: seq<byte>, slots: seq<Slot>, ids: seq<nat>)
    requires ids != [] && forall i :: 0 <= i < |ids| ==> ids[i] < |s.nodes| + |slots|
    ensures LevelHolds(ViewOf(Built(s, payload, slots)), ids, ids, 0)
    ensures Extends(ViewOf(Built(s, payload, slots)), ViewOf(Built(s, payload, slots)))
  {
    var v := ViewOf(Built(s, payload, slots));
    forall j | 0 <= j < |ids|
      ensures PlaceHolds(v, ids, ids, 0, j)
    {
      assert Chunk(ids, j, 1) == [ids[j]];
    }
  }

  lemma LevelAbove(v: View, ids: seq<nat>, level: seq<nat>, d: nat)
    requires LevelHolds(v, ids, level, d) && |level| > 1
    ensures Pow2(d) < |ids|
  {
    Scaled(1, |level| - 1, Pow2(d));
  }

  lemma LastLevel(v: View, ids: seq<nat>, level: seq<nat>, d: nat)
    requires LevelHolds(v, ids, level, d) && |level| == 1
    ensures level[0] < |v.nodes| && Tree(v, level[0], ids, d) && Balanced(v, level[0], ids, d) && |ids| <= Pow2(d)
  {
    hide Tree, Balanced;
    assert PlaceHolds(v, ids, level, d, 0);
    assert Chunk(ids, 0, Pow2(d)) == ids;
    BalancedIsTree(v, level[0], ids, d);
  }

  // The transaction

  const PREFIX_BYTES := 12
  const SUFFIX_BYTES := 15

  lemma FrameLength(identity: seq<byte>)
    ensures |Frame(identity, [], None)| == PREFIX_BYTES + |identity| + SUFFIX_BYTES
  {
  }

  /** A tree of this depth over the leaves in order. */
  ghost predicate TreeOver(s: StoreState, v: View, leaves: seq<LeafSource>, root: nat, ids: seq<nat>, depth: nat) {
    && |ids| == |leaves| && Tree(v, root, ids, depth) && Balanced(v, root, ids, depth)
    && forall i :: 0 <= i < |ids| ==> LeafBuilt(s, v, leaves[i], ids[i])
  }

  /** What the built nodes and payload stand for: a balanced tree over the
      leaves, and so the identity they make up. */
  ghost predicate TreeBuilt(s: StoreState, leaves: seq<LeafSource>, payload: seq<byte>, slots: seq<Slot>, root: nat,
                            depth: nat)
  {
    var v := ViewOf(Built(s, payload, slots));
    && |slots| == NewCount(leaves) + |leaves| - 1 && |s.arena| + |payload| <= U64_MAX
    && payload == NewPayload(leaves)
    && root < |s.nodes| + |slots| && WellFormed(v)
    && (exists ids :: TreeOver(s, v, leaves, root, ids, depth))
    && |leaves| <= Pow2(depth) && (depth > 0 ==> Pow2(depth - 1) < |leaves|)
    && Extract(v, root) == Some(IdentityOf(s, leaves))
    && SlotsLocal(slots, |s.arena|)
  }

  /** When a tree is built: every leaf is short enough or a committed node, the
      length is that of the leaves, and there is room for payload and nodes. */
  ghost predicate TreeFits(s: StoreState, leaves: seq<LeafSource>, canonicalLen: nat) {
    && AllUsable(s, leaves) && |s.arena| + |NewPayload(leaves)| <= U64_MAX
    && canonicalLen == PREFIX_BYTES + TotalLen(leaves) + SUFFIX_BYTES
    && AllNear(LeafIds(|s.nodes|, leaves), |s.nodes| + NewCount(leaves))
  }

  lemma OverStays(s: StoreState, v: View, w: View, leaves: seq<LeafSource>, ids: seq<nat>)
    requires Extends(v, w) && |ids| == |leaves|
    requires forall i :: 0 <= i < |ids| ==> LeafBuilt(s, v, leaves[i], ids[i])
    ensures forall i :: 0 <= i < |ids| ==> LeafBuilt(s, w, leaves[i], ids[i])
  {
    forall i | 0 <= i < |ids|
      ensures LeafBuilt(s, w, leaves[i], ids[i])
    {
      LeafStays(s, v, w, leaves[i], ids[i]);
    }
  }

  /** Leaves, then the balanced tree over them. */
  method BuildIdentity(g: Geometry, leaves: seq<LeafSource>, canonicalLen: nat, ghost s: StoreState)
    returns (r: Result<(seq<byte>, seq<Slot>, nat)>, ghost depth: nat)
    requires Inv(s) && g == s.Watermarks() && leaves != []
    ensures r.Ok? <==> TreeFits(s, leaves, canonicalLen)
    ensures r.Ok? ==> TreeBuilt(s, leaves, r.value.0, r.value.1, r.value.2, depth)
  {
    hide Inv, WellFormed, ViewOf, Built, Tree, LeafBuilt, Usable, SlotsLocal, AllNear, AllUsable, NodeAt, Width,
      LeafIds, NewPayload, NewCount, TotalLen, Pow2;
    depth := 0;
    Formed(s);
    var built := BuildLeaves(g, leaves, s);
    if built.Err? { return Err(Format), depth; }
    var (payload, leafSlots, leafIds, length) := built.value;
    if PREFIX_BYTES + length + SUFFIX_BYTES != canonicalLen { return Err(Format), depth; }
    ghost var v := ViewOf(Built(s, payload, leafSlots));
    OrderedIs(s, v, leaves, leafIds);
    BelowCount(s, payload, leafSlots, leaves, leafIds);
    var tree;
    tree, depth := BuildTree(g, leafIds, leafSlots, s, payload);
    if tree.Err? { return Err(Format), depth; }
    var (root, slots) := tree.value;
    ghost var w := ViewOf(Built(s, payload, slots));
    OrderedExtends(v, w, leafIds);
    TreeExtracts(w, root, leafIds, depth);
    OverStays(s, v, w, leaves, leafIds);
    assert TreeOver(s, w, leaves, root, leafIds, depth);
    BuiltSize(s, payload, slots);
    return Ok((payload, slots, root)), depth;
  }

  lemma BuiltSize(s: StoreState, payload: seq<byte>, slots: seq<Slot>)
    ensures |ViewOf(Built(s, payload, slots)).nodes| == |s.nodes| + |slots|
  {
  }

  /** The transaction of an identity tree, as the encoder lays it out. It is
      local, and refused only for its names, its numbers or its tree. */
  method IdentityLeafTransaction(g: Geometry, thread: Id, id: Id, number: u32, parent: Option<Id>,
                                 leaves: seq<LeafSource>, canonicalLen: u64, canonicalHash: u64, ghost s: StoreState)
    returns (r: Result<Transaction>, ghost depth: nat)
    requires Inv(s) && g == s.Watermarks()
    ensures r.Ok? ==>
      var tx := r.value;
      && leaves != [] && Sound(tx) && tx.Before() == g && Local(tx)
      && canonicalLen == PREFIX_BYTES + TotalLen(leaves) + SUFFIX_BYTES
      && tx.wides == [] && tx.request.None? && |tx.roots| == 1 && tx.roots[0].Some?
      && tx.parents == [LatestVersion(s)] && TransactionSize(tx) <= U32_MAX
      && tx.checkpoint == Checkpoint(g.checkpointCount, thread, number, id, parent, g.versionCount, None, None,
                                     canonicalLen, canonicalHash)
    ensures r.Ok? ==> TreeBuilt(s, leaves, r.value.payload, r.value.nodes, r.value.roots[0].value, depth)
    ensures r.Ok? <==>
      && NewNamesOk(thread, id, parent) && leaves != []
      && |s.versions| < U32_MAX && |s.checkpoints| < U32_MAX && TreeFits(s, leaves, canonicalLen)
      && |s.nodes| + NewCount(leaves) + |leaves| - 1 <= U64_MAX
      && 172 + |NewPayload(leaves)| + 16 * (NewCount(leaves) + |leaves| - 1) + |thread| + |id| + |OptionId(parent)|
         <= U32_MAX
  {
    hide Inv, TreeBuilt, IdentifierOk, TreeFits;
    depth := 0;
    Formed(s);
    if !NewNamesOk(thread, id, parent) || leaves == [] { return Err(Format), depth; }
    if g.versionCount + 1 > U32_MAX || g.checkpointCount + 1 > U32_MAX || g.wideCount > U64_MAX {
      return Err(Format), depth;
    }
    var built;
    built, depth := BuildIdentity(g, leaves, canonicalLen, s);
    if built.Err? { return Err(Format), depth; }
    var (payload, slots, root) := built.value;
    FitsLength(s, leaves, canonicalLen);
    TreeBounds(s, leaves, payload, slots, root, depth);
    if g.nodeCount + |slots| > U64_MAX || root >= NONE_ROOT { return Err(Format), depth; }
    if RecordSize(thread, id, parent, |payload|, |slots|, 1) > U32_MAX { return Err(Format), depth; }
    return Ok(Transaction(
      g.versionCount, g.versionCount + 1, g.checkpointCount + 1, g.byteLen, payload, g.nodeCount, slots,
      g.wideCount, [], [Some(root)], [if g.versionCount == 0 then None else Some(g.versionCount - 1)],
      Checkpoint(g.checkpointCount, thread, number, id, parent, g.versionCount, None, None,
                 canonicalLen, canonicalHash),
      None, NO_DIGEST)), depth;
  }

  lemma FitsLength(s: StoreState, leaves: seq<LeafSource>, canonicalLen: nat)
    requires TreeFits(s, leaves, canonicalLen)
    ensures canonicalLen == PREFIX_BYTES + TotalLen(leaves) + SUFFIX_BYTES
  {
  }

  lemma TreeBounds(s: StoreState, leaves: seq<LeafSource>, payload: seq<byte>, slots: seq<Slot>, root: nat, depth: nat)
    requires TreeBuilt(s, leaves, payload, slots, root, depth)
    ensures |s.arena| + |payload| <= U64_MAX && root < |s.nodes| + |slots| && payload == NewPayload(leaves)
    ensures |slots| == NewCount(leaves) + |leaves| - 1 && SlotsLocal(slots, |s.arena|)
  {
    hide TreeOver, Tree, WellFormed, ViewOf, Pow2;
  }

  lemma BelowCount(s: StoreState, payload: seq<byte>, slots: seq<Slot>, leaves: seq<LeafSource>, ids: seq<nat>)
    requires |leaves| == |ids|
    requires forall i :: 0 <= i < |leaves| ==> LeafBuilt(s, ViewOf(Built(s, payload, slots)), leaves[i], ids[i])
    ensures forall i :: 0 <= i < |ids| ==> ids[i] < |s.nodes| + |slots|
  {
    forall i | 0 <= i < |ids|
      ensures ids[i] < |s.nodes| + |slots|
    {
      assert LeafBuilt(s, ViewOf(Built(s, payload, slots)), leaves[i], ids[i]);
    }
  }

  /** The committed checkpoint reads as the framed identity, and verifies exactly
      when the caller stated the length and hash of that frame. */
  lemma TreeCheckpointReads(s: StoreState, tx: Transaction, identity: seq<byte>)
    requires Inv(s) && tx.wides == [] && |tx.roots| == 1 && tx.roots[0].Some?
    requires Extract(ViewOf(Built(s, tx.payload, tx.nodes)), tx.roots[0].value) == Some(identity)
    requires tx.checkpoint.identityVersion == |s.versions|
    requires tx.checkpoint.messagesVersion.None? && tx.checkpoint.resultVersion.None?
    ensures CheckpointBytes(Apply(s, tx), tx.checkpoint) == Some(Frame(identity, [], None))
    ensures Verified(Apply(s, tx), tx.checkpoint) <==>
      && tx.checkpoint.logicalLen == PREFIX_BYTES + |identity| + SUFFIX_BYTES
      && tx.checkpoint.stateHash == Xxh3(Frame(identity, [], None))
  {
    hide Inv, Frame;
    FrameLength(identity);
    var t := Apply(s, tx);
    assert t.wides == s.wides;
    SameView(Built(s, tx.payload, tx.nodes), t);
    assert t.versions[|s.versions|] == tx.roots[0];
  }

  /** Nothing but names can keep such a transaction out. */
  lemma TreeAdmitted(s: StoreState, tx: Transaction)
    requires Inv(s) && Sound(tx) && tx.Before() == s.Watermarks() && tx.wides == [] && tx.request.None?
    requires WellFormed(ViewOf(Built(s, tx.payload, tx.nodes)))
    requires forall i :: 0 <= i < |tx.roots| && tx.roots[i].Some? ==> tx.roots[i].value < |s.nodes| + |tx.nodes|
    requires tx.checkpoint.Name() !in s.checkpointOrdinals && tx.checkpoint.Name() !in s.deleted
    requires tx.checkpoint.parent.Some? ==>
      Key(tx.checkpoint.thread, tx.checkpoint.parent.value) in s.checkpointOrdinals
    ensures Prepare(s, tx).Ok?
  {
    hide VersionsOk, CheckpointOk, ThreadsIndexed, RequestsOk, IdentifierOk;
    var t := Built(s, tx.payload, tx.nodes);
    forall i | 0 <= i < |tx.nodes|
      ensures SlotValid(s, tx, tx.nodes[i], |s.nodes| + i)
    {
      var id := |s.nodes| + i;
      assert t.nodes[id] == tx.nodes[i];
      assert NodeOk(ViewOf(t), id) && ViewOf(t).nodes[id] == DecodeNode(t, id);
    }
  }

  // Reading the leaves back

  /** A leaf of a stored identity: its node, where it starts, its length. */
  datatype LeafRef = LeafRef(node: nat, start: nat, length: nat)

  function RefsLen(refs: seq<LeafRef>): nat {
    if refs == [] then 0 else RefsLen(refs[..|refs| - 1]) + refs[|refs| - 1].length
  }

  /** References in order, each starting where the one before ends. */
  ghost predicate RefsOf(v: View, ids: seq<nat>, start: nat, refs: seq<LeafRef>) {
    && |refs| == |ids|
    && forall i :: 0 <= i < |refs| ==> RefAt(v, ids, start, refs, i)
  }

  ghost predicate RefAt(v: View, ids: seq<nat>, start: nat, refs: seq<LeafRef>, i: nat)
    requires i < |refs| == |ids|
  {
    && refs[i].node == ids[i] && refs[i].start == start + RefsLen(refs[..i])
    && ids[i] < |v.nodes| && v.nodes[ids[i]].Some? && v.nodes[ids[i]].value.Leaf?
    && refs[i].length == v.nodes[ids[i]].value.length
  }

  lemma {:induction false} RefsLenConcat(a: seq<LeafRef>, b: seq<LeafRef>)
    ensures RefsLen(a + b) == RefsLen(a) + RefsLen(b)
    decreases |b|
  {
    if b == [] {
      assert a + b == a;
    } else {
      assert (a + b)[..|a + b| - 1] == a + b[..|b| - 1];
      RefsLenConcat(a, b[..|b| - 1]);
    }
  }

  lemma RefsConcat(v: View, a: seq<nat>, b: seq<nat>, start: nat, p: seq<LeafRef>, q: seq<LeafRef>)
    requires RefsOf(v, a, start, p) && RefsOf(v, b, start + RefsLen(p), q)
    ensures RefsOf(v, a + b, start, p + q)
  {
    forall i | 0 <= i < |p + q|
      ensures RefAt(v, a + b, start, p + q, i)
    {
      if i < |p| {
        assert RefAt(v, a, start, p, i);
        assert (p + q)[..i] == p[..i];
      } else {
        assert RefAt(v, b, start + RefsLen(p), q, i - |p|);
        assert (p + q)[..i] == p + q[..i - |p|];
        RefsLenConcat(p, q[..i - |p|]);
      }
    }
  }

  lemma InFrontier(v: View, node: nat, ids: seq<nat>, d: nat)
    requires Tree(v, node, ids, d) && forall i :: 0 <= i < |ids| ==> ids[i] < |v.nodes|
    ensures node < |v.nodes|
  {
    if ids == [node] { assert ids[0] == node; }
  }

  /** A leaf is its own frontier. */
  lemma OneRef(v: View, node: nat, ids: seq<nat>, start: nat, d: nat)
    requires Tree(v, node, ids, d) && node < |v.nodes| && v.nodes[node].Some? && v.nodes[node].value.Leaf?
    ensures RefsOf(v, ids, start, [LeafRef(node, start, v.nodes[node].value.length)])
    ensures RefsLen([LeafRef(node, start, v.nodes[node].value.length)]) == v.nodes[node].value.length
  {
    var refs := [LeafRef(node, start, v.nodes[node].value.length)];
    assert ids == [node];
    assert refs[..0] == [] && RefsLen([]) == 0;
    assert RefAt(v, ids, start, refs, 0);
  }

  function LengthOf(v: View, node: nat): nat {
    if Extract(v, node).Some? then |Extract(v, node).value| else 0
  }

  /** Bytes below the last leaf of a frontier. */
  function LastLength(v: View, ids: seq<nat>): nat {
    if ids == [] then 0 else LengthOf(v, ids[|ids| - 1])
  }

  /** The leaves of the frontier start, and together end, within 64 bits. */
  ghost predicate RefsFit(v: View, node: nat, ids: seq<nat>, start: nat) {
    LengthOf(v, node) <= U64_MAX && start + LengthOf(v, node) - LastLength(v, ids) <= U64_MAX
  }

  lemma BranchLength(v: View, node: nat, left: nat, right: nat, ids: seq<nat>, k: nat)
    requires WellFormed(v) && node < |v.nodes| && v.nodes[node] == Some(Binary(left, right))
    requires 0 < k < |ids| && left < |v.nodes| && right < |v.nodes|
    ensures LengthOf(v, node) == LengthOf(v, left) + LengthOf(v, right)
    ensures LastLength(v, ids) == LastLength(v, ids[k..])
  {
    assert NodeOk(v, node);
    ExtractTotal(v, left);
    ExtractTotal(v, right);
  }

  /** Both children must fit, the right one after the left. */
  lemma BranchFits(v: View, node: nat, left: nat, right: nat, ids: seq<nat>, k: nat, start: nat)
    requires WellFormed(v) && node < |v.nodes| && v.nodes[node] == Some(Binary(left, right))
    requires 0 < k < |ids| && left < |v.nodes| && right < |v.nodes|
    requires LastLength(v, ids[..k]) <= LengthOf(v, left) && LastLength(v, ids[k..]) <= LengthOf(v, right)
    ensures LengthOf(v, node) == LengthOf(v, left) + LengthOf(v, right) && LastLength(v, ids) <= LengthOf(v, node)
    ensures var middle := start + LengthOf(v, left);
      RefsFit(v, node, ids, start) <==>
        && RefsFit(v, left, ids[..k], start) && middle <= U64_MAX && RefsFit(v, right, ids[k..], middle)
        && LengthOf(v, node) <= U64_MAX
  {
    hide LengthOf, LastLength;
    BranchLength(v, node, left, right, ids, k);
  }

  /** A tree whose frontier is made of leaves gives exactly those leaves, with
      prefix sums for offsets, and its own length, exactly when offsets and
      length are 64-bit numbers. */
  method CollectLeafRefs(s: StoreState, node: nat, start: u64, ghost ids: seq<nat>, ghost d: nat)
    returns (r: Result<(seq<LeafRef>, u64)>)
    requires s.base == EMPTY_GEOMETRY && WellFormed(ViewOf(s)) && Tree(ViewOf(s), node, ids, d)
    requires forall i :: 0 <= i < |ids| ==>
      ids[i] < |s.nodes| && ViewOf(s).nodes[ids[i]].Some? && ViewOf(s).nodes[ids[i]].value.Leaf?
    ensures r.Ok? <==> RefsFit(ViewOf(s), node, ids, start)
    ensures r.Ok? ==> RefsOf(ViewOf(s), ids, start, r.value.0) && r.value.1 == RefsLen(r.value.0)
    ensures Extract(ViewOf(s), node).Some? && (r.Ok? ==> LengthOf(ViewOf(s), node) == r.value.1)
    ensures LastLength(ViewOf(s), ids) <= LengthOf(ViewOf(s), node)
    decreases d
  {
    hide RefsOf, RefAt, DecodeNode, RefsFit, LengthOf, LastLength;
    ghost var v := ViewOf(s);
    var decoded := DecodeNode(s, node);
    InFrontier(v, node, ids, d);
    assert v.nodes[node] == decoded && NodeOk(v, node);
    LengthIs(v, node);
    if decoded.None? { return Err(Format); }
    match decoded.value {
      case Leaf(_, length) =>
        OneRef(v, node, ids, start, d);
        OneFits(v, node, ids, start, d);
        return Ok(([LeafRef(node, start, length)], length));
      case Binary(left, right) =>
        assert |ids| >= 1 ==> ids[0] != node;
        ghost var k: nat :| SplitAt(v, left, right, ids, d, k);
        var first := CollectLeafRefs(s, left, start, ids[..k], d - 1);
        InFrontier(v, left, ids[..k], d - 1);
        InFrontier(v, right, ids[k..], d - 1);
        if first.Err? || start + first.value.1 > U64_MAX {
          LastOf(v, right, ids[k..], d - 1);
          BranchFits(v, node, left, right, ids, k, start);
          return Err(Format);
        }
        var second := CollectLeafRefs(s, right, start + first.value.1, ids[k..], d - 1);
        BranchFits(v, node, left, right, ids, k, start);
        if second.Err? || first.value.1 + second.value.1 > U64_MAX { return Err(Format); }
        RefsConcat(v, ids[..k], ids[k..], start, first.value.0, second.value.0);
        RefsLenConcat(first.value.0, second.value.0);
        assert ids[..k] + ids[k..] == ids;
        return Ok((first.value.0 + second.value.0, first.value.1 + second.value.1));
    }
  }

  lemma LengthIs(v: View, node: nat)
    requires WellFormed(v) && node < |v.nodes|
    ensures Extract(v, node).Some? && LengthOf(v, node) == |Extract(v, node).value|
  {
    ExtractTotal(v, node);
  }

  lemma OneFits(v: View, node: nat, ids: seq<nat>, start: u64, d: nat)
    requires WellFormed(v) && Tree(v, node, ids, d) && node < |v.nodes|
    requires v.nodes[node].Some? && v.nodes[node].value.Leaf?
    ensures RefsFit(v, node, ids, start) && LastLength(v, ids) <= LengthOf(v, node)
    ensures LengthOf(v, node) == v.nodes[node].value.length
  {
    assert NodeOk(v, node) && ids == [node];
  }

  lemma {:induction false} LastOf(v: View, node: nat, ids: seq<nat>, d: nat)
    requires WellFormed(v) && Tree(v, node, ids, d)
    requires forall i :: 0 <= i < |ids| ==>
      ids[i] < |v.nodes| && v.nodes[ids[i]].Some? && v.nodes[ids[i]].value.Leaf?
    ensures LastLength(v, ids) <= LengthOf(v, node)
    decreases d
  {
    hide RefsFit, LengthOf, LastLength;
    InFrontier(v, node, ids, d);
    assert NodeOk(v, node);
    if v.nodes[node].value.Leaf? {
      OneFits(v, node, ids, 0, d);
    } else {
      assert |ids| >= 1 ==> ids[0] != node;
      var left, right := v.nodes[node].value.left, v.nodes[node].value.right;
      var k: nat :| SplitAt(v, left, right, ids, d, k);
      LastOf(v, left, ids[..k], d - 1);
      LastOf(v, right, ids[k..], d - 1);
      InFrontier(v, left, ids[..k], d - 1);
      InFrontier(v, right, ids[k..], d - 1);
      BranchFits(v, node, left, right, ids, k, 0);
    }
  }
}
