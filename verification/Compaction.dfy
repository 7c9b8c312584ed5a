/** Copying the live part of a state into a fresh one, node by node. */
module Compaction {
  import opened Wrappers
  import opened Bytes
  import opened Format
  import opened Dag
  import opened Model
  import opened TransactionFormat
  import opened Transactions

  // The copied DAG mirrors the source

  /** Target node `k` is the copy of source node `origin[k]`. */
  predicate NodeMirrored(v: View, w: View, m: map<nat, nat>, origin: seq<nat>, k: nat)
    requires k < |origin| && k < |w.nodes|
  {
    var id := origin[k];
    && id < |v.nodes| && id in m && m[id] == k
    && match v.nodes[id]
       case None => false
       case Some(Leaf(offset, length)) =>
         && length <= U32_MAX && offset + length <= |v.arena|
         && w.nodes[k].Some? && w.nodes[k].value.Leaf? && w.nodes[k].value.length == length
         && w.nodes[k].value.offset + length <= |w.arena|
         && w.arena[w.nodes[k].value.offset..w.nodes[k].value.offset + length] == v.arena[offset..offset + length]
       case Some(Binary(left, right)) =>
         && left in m && right in m && m[left] < k && m[right] < k
         && w.nodes[k] == Some(Binary(m[left], m[right]))
  }

  /** A one-to-one correspondence between the copied source nodes and all the
      target nodes, preserving shape and leaf bytes. */
  ghost predicate Mirror(v: View, w: View, m: map<nat, nat>, origin: seq<nat>) {
    && |origin| == |w.nodes|
    && (forall k :: 0 <= k < |origin| ==> NodeMirrored(v, w, m, origin, k))
    && (forall id :: id in m ==> m[id] < |origin| && origin[m[id]] == id)
  }

  /** Copies keep their bytes. */
  lemma {:induction false} MirrorExtracts(v: View, w: View, m: map<nat, nat>, origin: seq<nat>, id: nat)
    requires WellFormed(v) && Mirror(v, w, m, origin) && id in m
    ensures Extract(w, m[id]) == Extract(v, id) && Extract(v, id).Some?
    decreases id
  {
    assert NodeMirrored(v, w, m, origin, m[id]);
    assert NodeOk(v, id);
    match v.nodes[id]
    case Some(Leaf(_, _)) =>
    case Some(Binary(left, right)) =>
      MirrorExtracts(v, w, m, origin, left);
      MirrorExtracts(v, w, m, origin, right);
  }

  lemma MirrorWellFormed(v: View, w: View, m: map<nat, nat>, origin: seq<nat>)
    requires Mirror(v, w, m, origin)
    ensures WellFormed(w)
  {
    forall k | 0 <= k < |w.nodes|
      ensures NodeOk(w, k)
    {
      assert NodeMirrored(v, w, m, origin, k);
    }
  }

  /** Everything below a copied node has been copied, with short leaves. */
  lemma {:induction false} MirrorReaches(v: View, w: View, m: map<nat, nat>, origin: seq<nat>, id: nat)
    requires WellFormed(v) && Mirror(v, w, m, origin) && id in m
    ensures Reach(v, id) <= m.Keys && ShortLeaves(v, id)
    decreases id
  {
    assert NodeMirrored(v, w, m, origin, m[id]);
    assert NodeOk(v, id);
    match v.nodes[id]
    case Some(Leaf(_, _)) =>
    case Some(Binary(left, right)) =>
      MirrorReaches(v, w, m, origin, left);
      MirrorReaches(v, w, m, origin, right);
  }

  /** A copied leaf must fit a compact slot. */
  ghost predicate ShortLeaves(v: View, root: nat) {
    forall id :: id in Reach(v, root) && id < |v.nodes| && v.nodes[id].Some? && v.nodes[id].value.Leaf? ==>
      v.nodes[id].value.length <= U32_MAX
  }

  lemma {:induction false} ReachWithin(v: View, id: nat, k: nat)
    requires k in Reach(v, id)
    ensures k <= id && Reach(v, k) <= Reach(v, id)
    decreases id
  {
    if k != id {
      match v.nodes[id]
      case Some(Binary(left, right)) =>
        if k in Reach(v, left) { ReachWithin(v, left, k); } else { ReachWithin(v, right, k); }
      case _ =>
    }
  }

  lemma ShortBelow(v: View, id: nat, child: nat)
    requires child in Reach(v, id)
    ensures ShortLeaves(v, id) ==> ShortLeaves(v, child)
  {
    ReachWithin(v, id, child);
  }

  /** One more node, and possibly more payload, on top of a mirror. */
  lemma MirrorGrows(v: View, w: View, m: map<nat, nat>, origin: seq<nat>, x: View, id: nat)
    requires Mirror(v, w, m, origin) && id !in m
    requires Extends(w, x) && |x.nodes| == |w.nodes| + 1
    requires NodeMirrored(v, x, m[id := |w.nodes|], origin + [id], |w.nodes|)
    ensures Mirror(v, x, m[id := |w.nodes|], origin + [id])
  {
    var m', origin' := m[id := |w.nodes|], origin + [id];
    forall k | 0 <= k < |origin'|
      ensures NodeMirrored(v, x, m', origin', k)
    {
      if k < |origin| {
        assert NodeMirrored(v, w, m, origin, k);
        assert x.nodes[k] == w.nodes[k];
        match v.nodes[origin[k]]
        case Some(Leaf(offset, length)) =>
          var at := w.nodes[k].value.offset;
          assert x.arena[at..at + length] == w.arena[at..at + length];
        case _ =>
      }
    }
  }

  /** There are no more copies than source nodes. */
  lemma {:induction false} MirrorSmaller(v: View, w: View, m: map<nat, nat>, origin: seq<nat>)
    requires Mirror(v, w, m, origin)
    ensures |w.nodes| <= |v.nodes|
  {
    forall k | 0 <= k < |origin|
      ensures origin[k] < |v.nodes| && origin[k] in m && m[origin[k]] == k
    {
      assert NodeMirrored(v, w, m, origin, k);
    }
    Distinct(origin, |v.nodes|);
  }

  lemma {:induction false} Distinct(xs: seq<nat>, n: nat)
    requires forall k :: 0 <= k < |xs| ==> xs[k] < n
    requires forall j, k :: 0 <= j < k < |xs| ==> xs[j] != xs[k]
    ensures |xs| <= n
    decreases n
  {
    if xs != [] {
      assert xs[0] < n;
      if n - 1 in xs {
        var k :| 0 <= k < |xs| && xs[k] == n - 1;
        var rest := xs[..k] + xs[k + 1..];
        Distinct(rest, n - 1);
      } else {
        forall k | 0 <= k < |xs| ensures xs[k] < n - 1 { assert xs[k] in xs; }
        Distinct(xs, n - 1);
      }
    }
  }

  /** Only arena, nodes and wide records of the target change below a node. */
  predicate DataGrows(s: StoreState, t: StoreState) {
    && t == s.(arena := t.arena, nodes := t.nodes, wides := t.wides)
    && s.arena <= t.arena && s.nodes <= t.nodes && s.wides <= t.wides
  }

  /** Decoding looks only at what is already there. */
  lemma ViewGrows(s: StoreState, t: StoreState)
    requires s.base == EMPTY_GEOMETRY && DataGrows(s, t) && WellFormed(ViewOf(s))
    ensures Extends(ViewOf(s), ViewOf(t))
  {
    var v, w := ViewOf(s), ViewOf(t);
    forall id | 0 <= id < |v.nodes|
      ensures w.nodes[id] == v.nodes[id]
    {
      assert NodeOk(v, id);
      assert v.nodes[id] == DecodeNode(s, id) && w.nodes[id] == DecodeNode(t, id);
      assert t.nodes[id] == s.nodes[id];
    }
  }

  /** Compaction writes wide records for far branches only. */
  predicate AllBranches(wides: seq<WideRecord>) {
    forall i :: 0 <= i < |wides| ==> wides[i].kind == WIDE_KIND_BINARY
  }

  /** A binary node in the smallest form its distances allow. */
  function BranchSlot(id: nat, left: nat, right: nat, wideIndex: u64): Slot
    requires left < id && right < id
  {
    if id - left <= U32_MAX && id - right <= U32_MAX then BinarySlot(id - left, id - right)
    else WideSlot(wideIndex)
  }

  lemma BranchDecodes(s: StoreState, left: nat, right: nat)
    requires s.base == EMPTY_GEOMETRY && left < |s.nodes| && right < |s.nodes|
    requires |s.nodes| <= U64_MAX && |s.wides| <= U64_MAX
    ensures var id := |s.nodes|;
      var slot := BranchSlot(id, left, right, |s.wides|);
      var t := s.(nodes := s.nodes + [slot],
                  wides := if slot.kind == KIND_WIDE then s.wides + [WideBinary(left, right)] else s.wides);
      DecodeNode(t, id) == Some(Binary(left, right))
  {
    var id := |s.nodes|;
    if id - left <= U32_MAX && id - right <= U32_MAX {
      var l, r := id - left, id - right;
      assert (l + 0x1_0000_0000 * r) % 0x1_0000_0000 == l && (l + 0x1_0000_0000 * r) / 0x1_0000_0000 == r;
    }
  }

  // How much payload the copies take

  function LeafLength(v: View, id: nat): nat {
    if id < |v.nodes| && v.nodes[id].Some? && v.nodes[id].value.Leaf? then v.nodes[id].value.length else 0
  }

  /** Bytes below the leaves among `ids` that come before node `n`, each leaf
      counted once. */
  function BytesOf(v: View, ids: set<nat>, n: nat): nat {
    if n == 0 then 0 else BytesOf(v, ids, n - 1) + (if n - 1 in ids then LeafLength(v, n - 1) else 0)
  }

  lemma {:induction false} BytesGrow(v: View, a: set<nat>, b: set<nat>, n: nat)
    requires a <= b
    ensures BytesOf(v, a, n) <= BytesOf(v, b, n)
  {
    if n > 0 { BytesGrow(v, a, b, n - 1); }
  }

  lemma {:induction false} BytesAdd(v: View, ids: set<nat>, id: nat, n: nat)
    requires id !in ids
    ensures BytesOf(v, ids + {id}, n) == BytesOf(v, ids, n) + (if id < n then LeafLength(v, id) else 0)
  {
    if n > 0 { BytesAdd(v, ids, id, n - 1); }
  }

  lemma {:induction false} NoBytes(v: View, n: nat)
    ensures BytesOf(v, {}, n) == 0
  {
    if n > 0 { NoBytes(v, n - 1); }
  }

  lemma BytesMap(v: View, m: map<nat, nat>, id: nat, k: nat, n: nat)
    requires id !in m && id < n
    ensures BytesOf(v, m[id := k].Keys, n) == BytesOf(v, m.Keys, n) + LeafLength(v, id)
  {
    BytesAdd(v, m.Keys, id, n);
    assert m[id := k].Keys == m.Keys + {id};
  }

  // Where the copies stand

  function LeafBytes(v: View, id: nat): (r: seq<byte>)
    requires WellFormed(v)
    ensures |r| == LeafLength(v, id)
  {
    if id < |v.nodes| && v.nodes[id].Some? && v.nodes[id].value.Leaf? then
      assert NodeOk(v, id);
      var leaf := v.nodes[id].value;
      v.arena[leaf.offset..leaf.offset + leaf.length]
    else []
  }

  /** The leaves among `ids` one after the other. */
  ghost function Payload(v: View, ids: seq<nat>): seq<byte>
    requires WellFormed(v)
  {
    if ids == [] then [] else Payload(v, ids[..|ids| - 1]) + LeafBytes(v, ids[|ids| - 1])
  }

  function WideSlots(slots: seq<Slot>): nat {
    if slots == [] then 0
    else WideSlots(slots[..|slots| - 1]) + (if slots[|slots| - 1].kind == KIND_WIDE then 1 else 0)
  }

  predicate Far(id: nat, child: nat) { id - child > U32_MAX }

  /** A leaf stands right behind the leaves copied before it; a branch takes a
      wide record exactly when a child is too far away for a compact slot. */
  ghost predicate SlotPacked(v: View, w: View, slots: seq<Slot>, origin: seq<nat>, k: nat)
    requires WellFormed(v) && k < |slots| == |w.nodes| == |origin|
  {
    match w.nodes[k]
    case None => false
    case Some(Leaf(offset, _)) => slots[k].kind != KIND_WIDE && offset == |Payload(v, origin[..k])|
    case Some(Binary(left, right)) => slots[k].kind == KIND_WIDE <==> Far(k, left) || Far(k, right)
  }

  /** The copies take no more room than they need. */
  ghost predicate Packed(v: View, w: View, slots: seq<Slot>, wides: nat, origin: seq<nat>) {
    && WellFormed(v) && |slots| == |w.nodes| == |origin|
    && w.arena == Payload(v, origin) && wides == WideSlots(slots)
    && forall k :: 0 <= k < |slots| ==> SlotPacked(v, w, slots, origin, k)
  }

  lemma PackedGrows(v: View, w: View, slots: seq<Slot>, wides: nat, origin: seq<nat>, x: View, slot: Slot, id: nat)
    requires Packed(v, w, slots, wides, origin) && Extends(w, x) && |x.nodes| == |w.nodes| + 1
    requires x.arena == w.arena + LeafBytes(v, id)
    requires SlotPacked(v, x, slots + [slot], origin + [id], |w.nodes|)
    ensures Packed(v, x, slots + [slot], wides + if slot.kind == KIND_WIDE then 1 else 0, origin + [id])
  {
    var slots', origin' := slots + [slot], origin + [id];
    assert slots'[..|slots|] == slots && origin'[..|origin|] == origin;
    forall k | 0 <= k < |slots'|
      ensures SlotPacked(v, x, slots', origin', k)
    {
      if k < |slots| {
        assert SlotPacked(v, w, slots, origin, k) && x.nodes[k] == w.nodes[k];
        assert origin'[..k] == origin[..k];
      }
    }
  }

  lemma LeafPacked(v: View, w: View, slots: seq<Slot>, wides: nat, origin: seq<nat>, x: View, slot: Slot, id: nat)
    requires Packed(v, w, slots, wides, origin) && Extends(w, x) && |x.nodes| == |w.nodes| + 1
    requires id < |v.nodes| && v.nodes[id].Some? && v.nodes[id].value.Leaf?
    requires x.arena == w.arena + LeafBytes(v, id)
    requires x.nodes[|w.nodes|] == Some(Leaf(|w.arena|, v.nodes[id].value.length)) && slot.kind == KIND_LEAF
    ensures Packed(v, x, slots + [slot], wides, origin + [id])
  {
    assert (origin + [id])[..|origin|] == origin;
    PackedGrows(v, w, slots, wides, origin, x, slot, id);
  }

  lemma BranchPacked(v: View, w: View, slots: seq<Slot>, wides: nat, origin: seq<nat>, x: View, slot: Slot, id: nat,
                     left: nat, right: nat)
    requires Packed(v, w, slots, wides, origin) && Extends(w, x) && |x.nodes| == |w.nodes| + 1
    requires id < |v.nodes| && v.nodes[id].Some? && v.nodes[id].value.Binary? && x.arena == w.arena
    requires x.nodes[|w.nodes|] == Some(Binary(left, right))
    requires slot.kind == KIND_WIDE <==> Far(|w.nodes|, left) || Far(|w.nodes|, right)
    ensures Packed(v, x, slots + [slot], wides + if slot.kind == KIND_WIDE then 1 else 0, origin + [id])
  {
    PackedGrows(v, w, slots, wides, origin, x, slot, id);
  }

  // In which order the copies are made

  /** Source nodes in the order they are copied, after those of `seen`: what is
      below a node, from left to right, before the node, and each only once. */
  function Visited(v: View, seen: seq<nat>, id: nat): seq<nat>
    decreases id
  {
    if id in seen then seen
    else
      (if id < |v.nodes| && v.nodes[id].Some? && v.nodes[id].value.Binary?
          && v.nodes[id].value.left < id && v.nodes[id].value.right < id
       then Visited(v, Visited(v, seen, v.nodes[id].value.left), v.nodes[id].value.right)
       else seen) + [id]
  }

  /** The nodes that the roots of the versions need, in order. */
  function VisitedFor(s: StoreState, versions: seq<nat>): seq<nat> {
    if versions == [] then []
    else
      var before, version := VisitedFor(s, versions[..|versions| - 1]), versions[|versions| - 1];
      if version < |s.versions| && s.versions[version].Some? then Visited(ViewOf(s), before, s.versions[version].value)
      else before
  }

  lemma VisitedStep(s: StoreState, versions: seq<nat>, version: nat)
    requires version < |s.versions| && s.versions[version].Some?
    ensures VisitedFor(s, versions + [version])
         == Visited(ViewOf(s), VisitedFor(s, versions), s.versions[version].value)
  {
    assert (versions + [version])[..|versions|] == versions;
  }

  lemma MappedIsCopied(v: View, w: View, m: map<nat, nat>, origin: seq<nat>, id: nat)
    requires Mirror(v, w, m, origin)
    ensures id in m <==> id in origin
  {
    if id in m { assert origin[m[id]] == id; }
    if id in origin {
      var k :| 0 <= k < |origin| && origin[k] == id;
      assert NodeMirrored(v, w, m, origin, k);
    }
  }

  class Compactor {
    const source: StoreState
    var target: StoreState
    var nodeMap: map<nat, nat>
    var versionMap: map<nat, nat>
    ghost var origin: seq<nat>
    ghost var versionOrigin: seq<nat>

    constructor (s: StoreState, deleted: set<Key>, retired: map<seq<byte>, seq<byte>>)
      requires Inv(s)
      ensures Valid() && source == s && nodeMap == map[] && versionMap == map[] && versionOrigin == []
      ensures target == EMPTY_STATE.(deleted := deleted, retired := retired)
    {
      source, target := s, EMPTY_STATE.(deleted := deleted, retired := retired);
      nodeMap, versionMap, origin, versionOrigin := map[], map[], [], [];
      new;
      NoBytes(ViewOf(s), |s.nodes|);
      SourceFormed(s);
      assert nodeMap.Keys == {};
    }

    ghost predicate NodesValid()
      reads this
    {
      && Inv(source) && target.base == EMPTY_GEOMETRY
      && |target.arena| <= U64_MAX && |target.wides| <= |target.nodes|
      && AllBranches(target.wides)
      && Mirror(ViewOf(source), ViewOf(target), nodeMap, origin)
      && Packed(ViewOf(source), ViewOf(target), target.nodes, |target.wides|, origin)
      && |target.arena| == BytesOf(ViewOf(source), nodeMap.Keys, |source.nodes|)
    }

    /** The copy of a leaf: its bytes at the end of the arena. There is one
        exactly when its length fits and the arena has room. */
    method AppendLeaf(id: nat, offset: nat, length: u64) returns (r: Result<nat>)
      requires NodesValid() && id !in nodeMap && id < |source.nodes|
      requires ViewOf(source).nodes[id] == Some(Leaf(offset, length))
      modifies this`target, this`nodeMap, this`origin
      ensures NodesValid() && DataGrows(old(target), target)
      ensures r.Ok? <==>
        length <= U32_MAX && BytesOf(ViewOf(source), old(nodeMap.Keys) + {id}, |source.nodes|) <= U64_MAX
      ensures nodeMap == if r.Ok? then old(nodeMap)[id := r.value] else old(nodeMap)
      ensures r.Ok? ==> origin == old(origin) + [id]
    {
      hide Inv, DecodeBinary, DecodeWide, BytesOf, Packed;
      SourceFormed(source);
      assert NodeOk(ViewOf(source), id);
      BytesAdd(ViewOf(source), nodeMap.Keys, id, |source.nodes|);
      if offset + length > |source.arena| { return Err(Format); }
      if length > U32_MAX { return Err(Format); }
      if |target.arena| + length > U64_MAX { return Err(Format); }
      ghost var v, w := ViewOf(source), ViewOf(target);
      var newId, newOffset := |target.nodes|, |target.arena|;
      MirrorWellFormed(v, w, nodeMap, origin);
      ghost var before := target;
      target := target.(arena := target.arena + source.arena[offset..offset + length],
                        nodes := target.nodes + [LeafSlot(newOffset, length)]);
      ViewGrows(before, target);
      assert DecodeNode(target, newId) == Some(Leaf(newOffset, length));
      assert ViewOf(target).nodes[newId] == DecodeNode(target, newId);
      assert target.arena[newOffset..newOffset + length] == source.arena[offset..offset + length];
      MirrorGrows(v, w, nodeMap, origin, ViewOf(target), id);
      LeafPacked(v, w, before.nodes, |before.wides|, origin, ViewOf(target), LeafSlot(newOffset, length), id);
      BytesMap(v, nodeMap, id, newId, |source.nodes|);
      nodeMap, origin := nodeMap[id := newId], origin + [id];
      return Ok(newId);
    }

    /** The copy of a branch whose children have been copied. */
    method AppendBranch(id: nat, left: nat, right: nat) returns (newId: nat)
      requires NodesValid() && id !in nodeMap && id < |source.nodes|
      requires ViewOf(source).nodes[id] == Some(Binary(left, right))
      requires left in nodeMap && right in nodeMap
      modifies this`target, this`nodeMap, this`origin
      ensures NodesValid() && DataGrows(old(target), target)
      ensures nodeMap == old(nodeMap)[id := newId] && origin == old(origin) + [id]
    {
      hide Inv, DecodeBinary, DecodeWide, DecodeNode, BytesOf, Packed;
      SourceFormed(source);
      ghost var v, w := ViewOf(source), ViewOf(target);
      BytesMap(v, nodeMap, id, |target.nodes|, |source.nodes|);
      MirrorSmaller(v, w, nodeMap, origin);
      MirrorWellFormed(v, w, nodeMap, origin);
      newId := |target.nodes|;
      var newLeft, newRight := nodeMap[left], nodeMap[right];
      assert NodeMirrored(v, w, nodeMap, origin, newLeft) && NodeMirrored(v, w, nodeMap, origin, newRight);
      ghost var before := target;
      var slot := BranchSlot(newId, newLeft, newRight, |target.wides|);
      BranchDecodes(target, newLeft, newRight);
      target := target.(nodes := target.nodes + [slot],
                        wides := if slot.kind == KIND_WIDE then target.wides + [WideBinary(newLeft, newRight)]
                                 else target.wides);
      ViewGrows(before, target);
      assert ViewOf(target).nodes[newId] == DecodeNode(target, newId);
      MirrorGrows(v, w, nodeMap, origin, ViewOf(target), id);
      BranchPacked(v, w, before.nodes, |before.wides|, origin, ViewOf(target), slot, id, newLeft, newRight);
      nodeMap, origin := nodeMap[id := newId], origin + [id];
    }

    /** Copies a node and what is below it, each at most once. It fails only on a
        leaf too long for a compact slot, or when the leaves of `live` do not fit
        one arena. */
    method CompactNode(id: nat, ghost live: set<nat>) returns (r: Result<nat>)
      requires NodesValid() && id < |source.nodes|
      requires nodeMap.Keys + Reach(ViewOf(source), id) <= live
      modifies this`target, this`nodeMap, this`origin
      ensures NodesValid() && DataGrows(old(target), target)
      ensures forall k :: k in old(nodeMap) ==> k in nodeMap && nodeMap[k] == old(nodeMap[k])
      ensures forall k :: k in nodeMap ==> k in old(nodeMap) || k in Reach(ViewOf(source), id)
      ensures r.Ok? ==> id in nodeMap && nodeMap[id] == r.value && ShortLeaves(ViewOf(source), id)
      ensures r.Ok? ==> origin == Visited(ViewOf(source), old(origin), id)
      ensures r.Err? ==>
        !ShortLeaves(ViewOf(source), id) || BytesOf(ViewOf(source), live, |source.nodes|) > U64_MAX
      decreases id
    {
      hide Inv, Mirror, BytesOf, Reach, ShortLeaves, DecodeNode, ViewOf, WellFormed, Packed;
      ghost var v := ViewOf(source);
      SourceFormed(source);
      SourceNode(source, id);
      MappedIsCopied(v, ViewOf(target), nodeMap, origin, id);
      if id in nodeMap {
        MirrorReaches(v, ViewOf(target), nodeMap, origin, id);
        return Ok(nodeMap[id]);
      }
      match DecodeNode(source, id).value {
        case Leaf(offset, length) =>
          BytesGrow(v, nodeMap.Keys + {id}, live, |source.nodes|);
          r := AppendLeaf(id, offset, length);
        case Binary(left, right) =>
          ShortBelow(v, id, left);
          ShortBelow(v, id, right);
          r := CompactNode(left, live);
          if r.Err? { return; }
          r := CompactNode(right, live);
          if r.Err? { return; }
          NotYet(v, nodeMap, old(nodeMap), id, left, right);
          var newId := AppendBranch(id, left, right);
          r := Ok(newId);
      }
      if r.Ok? { MirrorReaches(v, ViewOf(target), nodeMap, origin, id); }
    }

    /** Nodes and versions copied so far, and nothing but what they need. */
    ghost predicate Valid()
      reads this
    {
      && NodesValid()
      && VersionsMirrored(source, target, nodeMap, versionMap, versionOrigin)
      && NodesNeeded(source, nodeMap, versionMap.Keys)
      && origin == VisitedFor(source, versionOrigin)
    }

    /** One more version, whose root has been copied since `t0`. */
    method PushVersion(version: nat, root: u64, parent: Option<u32>, ghost m0: map<nat, nat>, ghost t0: StoreState)
      returns (newVersion: nat)
      requires VersionsMirrored(source, t0, m0, versionMap, versionOrigin)
      requires NodesNeeded(source, m0, versionMap.Keys) && DataGrows(t0, target)
      requires version !in versionMap && version < |source.versions| == |source.parents|
      requires source.versions[version].Some? && source.versions[version].value in nodeMap
      requires nodeMap[source.versions[version].value] == root
      requires forall k :: k in m0 ==> k in nodeMap && nodeMap[k] == m0[k]
      requires forall k :: k in nodeMap ==> k in m0 || k in Reach(ViewOf(source), source.versions[version].value)
      requires parent.Some? <==> source.parents[version].Some? && source.parents[version].value in versionMap
      requires parent.Some? ==> versionMap[source.parents[version].value] == parent.value
      requires origin == Visited(ViewOf(source), VisitedFor(source, versionOrigin), source.versions[version].value)
      requires NodesValid()
      modifies this`target, this`versionMap, this`versionOrigin
      ensures Valid() && VersionsGrow(old(target), target)
      ensures newVersion == |old(target.versions)| == |t0.versions|
      ensures versionMap == old(versionMap)[version := newVersion] && versionOrigin == old(versionOrigin) + [version]
      ensures target.parents == old(target.parents) + [parent] && |old(target.parents)| == newVersion
    {
      hide Inv, Mirror, ShortLeaves, ViewOf, VersionsMirrored, NodesNeeded, BytesOf, Visited, VisitedFor, Packed, Reach;
      newVersion := |target.versions|;
      ghost var t1 := target;
      VersionsPaired(source, t0, m0, versionMap, versionOrigin);
      target := target.(versions := target.versions + [Some(root)], parents := target.parents + [parent]);
      SameView(t1, target);
      VersionsStep(source, t0, target, m0, nodeMap, versionMap, versionOrigin, version, parent);
      NeededStep(source, m0, nodeMap, versionMap.Keys, version);
      VisitedStep(source, versionOrigin, version);
      assert versionMap[version := newVersion].Keys == versionMap.Keys + {version};
      versionMap, versionOrigin := versionMap[version := newVersion], versionOrigin + [version];
    }

    /** Copies a version once. Its parent link survives if and only if the
        parent has been copied before. */
    method CompactVersion(version: nat, ghost live: set<nat>) returns (r: Result<nat>)
      requires Valid() && version < |source.versions|
      requires nodeMap.Keys <= live && NeededWithin(source, version, live)
      modifies this`target, this`nodeMap, this`origin, this`versionMap, this`versionOrigin
      ensures r.Ok? ==>
        && Valid() && VersionsGrow(old(target), target) && nodeMap.Keys <= live
        && Copyable(source, version) && version in versionMap && versionMap[version] == r.value <= U32_MAX
        && (forall k :: k in old(versionMap) ==> k in versionMap && versionMap[k] == old(versionMap[k]))
        && (forall k :: k in versionMap ==> k in old(versionMap) || k == version)
      ensures r.Ok? ==> versionOrigin == Listed(old(versionOrigin), version)
      ensures r.Ok? && version !in old(versionMap) ==>
        && r.value < |target.parents| && version < |source.parents|
        && var was, now := source.parents[version], target.parents[r.value];
           (now.Some? <==> was.Some? && was.value in old(versionMap))
           && (now.Some? ==> now.value == old(versionMap)[was.value])
      ensures r.Err? ==> !Copyable(source, version) || BytesOf(ViewOf(source), live, |source.nodes|) > U64_MAX
    {
      hide Inv, Mirror, ShortLeaves, ViewOf, VersionsMirrored, NodesNeeded, BytesOf, Visited, VisitedFor, Packed,
        NeededWithin, Reach, AllBranches;
      if version in versionMap {
        MappedIsCopyable(source, target, nodeMap, origin, versionMap, versionOrigin, version);
        MappedIsListed(source, target, nodeMap, versionMap, versionOrigin, version);
        ParentsBelong(source);
        VersionsSmaller(source, target, nodeMap, versionMap, versionOrigin);
        MappedBelow(source, target, nodeMap, versionMap, versionOrigin, version);
        return Ok(versionMap[version]);
      }
      ParentsBelong(source);
      MappedIsListed(source, target, nodeMap, versionMap, versionOrigin, version);
      var parent := source.parents[version];
      VersionsSmaller(source, target, nodeMap, versionMap, versionOrigin);
      var mappedParent: Option<u32> := None;
      if parent.Some? && parent.value in versionMap {
        MappedBelow(source, target, nodeMap, versionMap, versionOrigin, parent.value);
        mappedParent := Some(versionMap[parent.value]);
      }
      if source.versions[version].None? { return Err(Format); }
      ghost var m0, t0 := nodeMap, target;
      NeededBelow(source, version, live);
      var copied := CompactNode(source.versions[version].value, live);
      if copied.Err? { return Err(Format); }
      CopiedSmall(source, target, nodeMap, origin, source.versions[version].value);
      var newVersion := PushVersion(version, copied.value, mappedParent, m0, t0);
      return Ok(newVersion);
    }
  }

  /** A list of versions in order of first use, with one more use. */
  function Listed(versions: seq<nat>, used: nat): seq<nat> {
    if used in versions then versions else versions + [used]
  }

  /** Everything below the root of a version. */
  ghost predicate NeededWithin(s: StoreState, version: nat, live: set<nat>) {
    forall k :: NeededFor(s, version, k) ==> k in live
  }

  lemma NeededBelow(s: StoreState, version: nat, live: set<nat>)
    requires NeededWithin(s, version, live) && version < |s.versions| && s.versions[version].Some?
    ensures Reach(ViewOf(s), s.versions[version].value) <= live
  {
    forall k | k in Reach(ViewOf(s), s.versions[version].value)
      ensures k in live
    {
      assert NeededFor(s, version, k);
    }
  }

  lemma VersionsPaired(s: StoreState, t: StoreState, m: map<nat, nat>, versions: map<nat, nat>, from: seq<nat>)
    requires VersionsMirrored(s, t, m, versions, from)
    ensures |t.versions| == |t.parents|
  {
  }

  /** A source node decodes, and reaches itself and what its children reach. */
  lemma SourceNode(s: StoreState, id: nat)
    requires Inv(s) && id < |s.nodes|
    ensures ViewOf(s).nodes[id] == DecodeNode(s, id) && DecodeNode(s, id).Some?
    ensures id in Reach(ViewOf(s), id)
    ensures DecodeNode(s, id).value.Leaf? && DecodeNode(s, id).value.length > U32_MAX ==> !ShortLeaves(ViewOf(s), id)
    ensures DecodeNode(s, id).value.Binary? ==>
      var left, right := DecodeNode(s, id).value.left, DecodeNode(s, id).value.right;
      && left < id && right < id
      && left in Reach(ViewOf(s), id) && right in Reach(ViewOf(s), id)
      && Reach(ViewOf(s), left) + Reach(ViewOf(s), right) <= Reach(ViewOf(s), id)
  {
    hide VersionsOk, CheckpointOk, CheckpointsIndexed, ThreadsIndexed, RequestsOk, DecodeNode;
    var v := ViewOf(s);
    assert NodeOk(v, id) && v.nodes[id] == DecodeNode(s, id);
    match v.nodes[id]
    case Some(Binary(left, right)) =>
      assert left in Reach(v, left) && right in Reach(v, right);
    case _ =>
  }

  lemma SourceFormed(s: StoreState)
    requires Inv(s)
    ensures WellFormed(ViewOf(s)) && s.base == EMPTY_GEOMETRY
    ensures |s.arena| <= U64_MAX && |s.nodes| <= U64_MAX
  {
  }

  /** Copying the children has not copied the parent: ids only go down. */
  lemma NotYet(v: View, m: map<nat, nat>, before: map<nat, nat>, id: nat, left: nat, right: nat)
    requires id !in before && left < id && right < id
    requires forall k :: k in m ==> k in before || k in Reach(v, left) || k in Reach(v, right)
    ensures id !in m
  {
    if id in m {
      if id in Reach(v, left) { ReachWithin(v, left, id); } else { ReachWithin(v, right, id); }
    }
  }

  // Versions

  /** The copied versions and all the target versions correspond one to one;
      roots are copies, and parent links are links the source had. */
  ghost predicate VersionsMirrored(s: StoreState, t: StoreState, m: map<nat, nat>, versions: map<nat, nat>,
                                   from: seq<nat>) {
    && |t.versions| == |t.parents| == |from|
    && (forall was :: was in versions ==> VersionMirrored(s, t, m, versions, from, was))
    && (forall k :: 0 <= k < |from| ==> from[k] in versions && versions[from[k]] == k)
    && (forall k :: 0 <= k < |from| ==> from[k] < |s.parents| && LinkMirrored(s, t, from, k))
  }

  /** A copied version has a parent exactly when the source's has one that was
      copied before it, and then it is the copy of that one. */
  predicate LinkMirrored(s: StoreState, t: StoreState, from: seq<nat>, k: nat)
    requires k < |from| == |t.parents| && from[k] < |s.parents|
  {
    var was, now := s.parents[from[k]], t.parents[k];
    && (now.Some? <==> was.Some? && was.value in from[..k])
    && (now.Some? ==> now.value < k && from[now.value] == was.value)
  }

  ghost predicate VersionMirrored(s: StoreState, t: StoreState, m: map<nat, nat>, versions: map<nat, nat>,
                                  from: seq<nat>,
                                  was: nat)
    requires was in versions && |t.versions| == |from|
  {
    && was < |s.versions| == |s.parents| && s.versions[was].Some? && s.versions[was].value in m
    && versions[was] < |from| && from[versions[was]] == was
    && t.versions[versions[was]].Some?
    && t.versions[versions[was]].value == m[s.versions[was].value]
  }

  /** Every copied node is below the root of some copied version. */
  ghost predicate NodesNeeded(s: StoreState, m: map<nat, nat>, versions: set<nat>) {
    forall k :: k in m ==> exists was :: was in versions && NeededFor(s, was, k)
  }

  ghost predicate NeededFor(s: StoreState, version: nat, k: nat) {
    version < |s.versions| && s.versions[version].Some? && k in Reach(ViewOf(s), s.versions[version].value)
  }

  /** A version that can be copied: it has a root, above short leaves only. */
  ghost predicate Copyable(s: StoreState, version: nat) {
    version < |s.versions| && s.versions[version].Some? && ShortLeaves(ViewOf(s), s.versions[version].value)
  }

  predicate VersionsGrow(s: StoreState, t: StoreState) {
    && t == s.(arena := t.arena, nodes := t.nodes, wides := t.wides, versions := t.versions, parents := t.parents)
    && s.arena <= t.arena && s.nodes <= t.nodes && s.wides <= t.wides
    && s.versions <= t.versions && s.parents <= t.parents
  }

  lemma ParentsBelong(s: StoreState)
    requires Inv(s)
    ensures |s.parents| == |s.versions| <= U32_MAX
    ensures forall k :: 0 <= k < |s.versions| && s.versions[k].Some? ==> s.versions[k].value < |s.nodes|
  {
  }

  lemma SameView(s: StoreState, t: StoreState)
    requires s.base == t.base && s.arena == t.arena && s.nodes == t.nodes && s.wides == t.wides
    ensures ViewOf(s) == ViewOf(t)
  {
    forall id: nat | id < |s.nodes|
      ensures DecodeNode(s, id) == DecodeNode(t, id)
    {
    }
    assert ViewOf(s).nodes == ViewOf(t).nodes;
  }

  lemma MappedBelow(s: StoreState, t: StoreState, m: map<nat, nat>, versions: map<nat, nat>, from: seq<nat>, was: nat)
    requires VersionsMirrored(s, t, m, versions, from) && was in versions
    ensures versions[was] < |t.versions|
  {
  }

  lemma VersionsSmaller(s: StoreState, t: StoreState, m: map<nat, nat>, versions: map<nat, nat>, from: seq<nat>)
    requires VersionsMirrored(s, t, m, versions, from)
    ensures |t.versions| <= |s.versions|
  {
    forall k | 0 <= k < |from|
      ensures from[k] < |s.versions| && from[k] in versions && versions[from[k]] == k
    {
      assert VersionMirrored(s, t, m, versions, from, from[k]);
    }
    Distinct(from, |s.versions|);
  }

  lemma MappedIsCopyable(s: StoreState, t: StoreState, m: map<nat, nat>, origin: seq<nat>, versions: map<nat, nat>,
                         from: seq<nat>, version: nat)
    requires Inv(s) && Mirror(ViewOf(s), ViewOf(t), m, origin)
    requires VersionsMirrored(s, t, m, versions, from) && version in versions
    ensures Copyable(s, version)
  {
    SourceFormed(s);
    assert VersionMirrored(s, t, m, versions, from, version);
    MirrorReaches(ViewOf(s), ViewOf(t), m, origin, s.versions[version].value);
  }

  lemma VersionsStep(s: StoreState, t0: StoreState, t: StoreState, m0: map<nat, nat>, m: map<nat, nat>,
                     versions: map<nat, nat>, from: seq<nat>, version: nat, parent: Option<u32>)
    requires VersionsMirrored(s, t0, m0, versions, from) && version !in versions
    requires version < |s.versions| == |s.parents| && s.versions[version].Some? && s.versions[version].value in m
    requires forall k :: k in m0 ==> k in m && m[k] == m0[k]
    requires m[s.versions[version].value] <= U64_MAX
    requires t.versions == t0.versions + [Some(m[s.versions[version].value])] && t.parents == t0.parents + [parent]
    requires parent.Some? <==> s.parents[version].Some? && s.parents[version].value in versions
    requires parent.Some? ==> versions[s.parents[version].value] == parent.value
    ensures VersionsMirrored(s, t, m, versions[version := |t0.versions|], from + [version])
  {
    var versions', from' := versions[version := |t0.versions|], from + [version];
    forall was | was in versions'
      ensures VersionMirrored(s, t, m, versions', from', was)
    {
      if was != version { assert VersionMirrored(s, t0, m0, versions, from, was); }
    }
    forall k | 0 <= k < |from'|
      ensures from'[k] < |s.parents| && LinkMirrored(s, t, from', k)
    {
      assert from'[..k] == from[..k];
      if k < |from| {
        assert LinkMirrored(s, t0, from, k) && t.parents[k] == t0.parents[k];
      } else {
        assert from[..k] == from;
        if s.parents[version].Some? { MappedIsListed(s, t0, m0, versions, from, s.parents[version].value); }
      }
    }
  }

  /** The copied versions are the listed ones. */
  lemma MappedIsListed(s: StoreState, t: StoreState, m: map<nat, nat>, versions: map<nat, nat>, from: seq<nat>,
                       version: nat)
    requires VersionsMirrored(s, t, m, versions, from)
    ensures version in versions <==> version in from
    ensures version in versions ==> versions[version] < |from| && from[versions[version]] == version
  {
    if version in versions {
      assert VersionMirrored(s, t, m, versions, from, version);
    }
    if version in from {
      var k :| 0 <= k < |from| && from[k] == version;
    }
  }

  lemma NeededStep(s: StoreState, m0: map<nat, nat>, m: map<nat, nat>, versions: set<nat>, version: nat)
    requires NodesNeeded(s, m0, versions) && version < |s.versions| && s.versions[version].Some?
    requires forall k :: k in m ==> k in m0 || k in Reach(ViewOf(s), s.versions[version].value)
    ensures NodesNeeded(s, m, versions + {version})
  {
    forall k: nat | k in m
      ensures exists was :: was in versions + {version} && NeededFor(s, was, k)
    {
      if k in m0 {
        var was :| was in versions && NeededFor(s, was, k);
        assert was in versions + {version};
      } else {
        assert version in versions + {version} && NeededFor(s, version, k);
      }
    }
  }

  lemma CopiedSmall(s: StoreState, t: StoreState, m: map<nat, nat>, origin: seq<nat>, id: nat)
    requires Inv(s) && Mirror(ViewOf(s), ViewOf(t), m, origin) && id in m
    ensures m[id] < |t.nodes| <= |s.nodes| <= U64_MAX
  {
    MirrorSmaller(ViewOf(s), ViewOf(t), m, origin);
  }
}
