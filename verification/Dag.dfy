/** What a stored root means: the bytes of the leaves below it, left to right.
    Every reader of the store is proved against `Extract`. */
module Dag {
  import opened Bytes
  import opened Wrappers

  datatype Node = Leaf(offset: nat, length: u64) | Binary(left: nat, right: nat)

  /** A payload arena and one decoded node per node id; None does not decode. */
  datatype View = View(arena: seq<byte>, nodes: seq<Option<Node>>)

  function Join(a: Option<seq<byte>>, b: Option<seq<byte>>): Option<seq<byte>> {
    if a.Some? && b.Some? then Some(a.value + b.value) else None
  }

  lemma JoinAssociates(a: Option<seq<byte>>, b: Option<seq<byte>>, c: Option<seq<byte>>)
    ensures Join(Join(a, b), c) == Join(a, Join(b, c))
  {
    if a.Some? && b.Some? && c.Some? {
      assert (a.value + b.value) + c.value == a.value + (b.value + c.value);
    }
  }

  /** The bytes below a node; None when a node on the way is missing, does not
      decode, is not above its children, or reaches past the arena. */
  function Extract(v: View, id: nat): Option<seq<byte>>
    decreases id
  {
    if id >= |v.nodes| then None
    else match v.nodes[id]
      case None => None
      case Some(Leaf(offset, length)) =>
        if offset + length <= |v.arena| then Some(v.arena[offset..offset + length]) else None
      case Some(Binary(left, right)) =>
        if left < id && right < id then Join(Extract(v, left), Extract(v, right)) else None
  }

  predicate NodeOk(v: View, id: nat)
    requires id < |v.nodes|
  {
    match v.nodes[id]
    case None => false
    case Some(Leaf(offset, length)) => offset + length <= |v.arena|
    case Some(Binary(left, right)) => left < id && right < id
  }

  ghost predicate WellFormed(v: View) {
    forall id :: 0 <= id < |v.nodes| ==> NodeOk(v, id)
  }

  lemma {:induction false} ExtractTotal(v: View, id: nat)
    requires WellFormed(v) && id < |v.nodes|
    ensures Extract(v, id).Some?
    decreases id
  {
    assert NodeOk(v, id);
    match v.nodes[id]
    case Some(Leaf(_, _)) =>
    case Some(Binary(left, right)) =>
      ExtractTotal(v, left);
      ExtractTotal(v, right);
  }

  /** Appending to the arena and to the nodes. */
  ghost predicate Extends(v: View, w: View) {
    v.arena <= w.arena && v.nodes <= w.nodes
  }

  lemma {:induction false} ExtractExtends(v: View, w: View, id: nat)
    requires Extends(v, w) && Extract(v, id).Some?
    ensures Extract(w, id) == Extract(v, id)
    decreases id
  {
    assert w.nodes[id] == v.nodes[id];
    match v.nodes[id]
    case Some(Leaf(offset, length)) =>
      assert w.arena[offset..offset + length] == v.arena[offset..offset + length];
    case Some(Binary(left, right)) =>
      ExtractExtends(v, w, left);
      ExtractExtends(v, w, right);
  }

  /** The node ids a root can reach. */
  function Reach(v: View, id: nat): (r: set<nat>)
    decreases id
  {
    {id} + (if id >= |v.nodes| then {}
            else match v.nodes[id]
              case Some(Binary(left, right)) =>
                if left < id && right < id then Reach(v, left) + Reach(v, right) else {}
              case _ => {})
  }

  /** Number of visits an in-order walk from a node makes. */
  function Weight(v: View, id: nat): (w: nat)
    ensures w > 0
    decreases id
  {
    1 + (if id >= |v.nodes| then 0
         else match v.nodes[id]
           case Some(Binary(left, right)) =>
             if left < id && right < id then Weight(v, left) + Weight(v, right) else 0
           case _ => 0)
  }

  /** What a work stack still has to emit; its top is its last element. */
  function StackBytes(v: View, stack: seq<nat>): Option<seq<byte>> {
    if stack == [] then Some([])
    else Join(Extract(v, stack[|stack| - 1]), StackBytes(v, stack[..|stack| - 1]))
  }

  function StackWeight(v: View, stack: seq<nat>): nat {
    if stack == [] then 0
    else Weight(v, stack[|stack| - 1]) + StackWeight(v, stack[..|stack| - 1])
  }

  lemma StackStart(v: View, root: nat)
    ensures Join(Some([]), StackBytes(v, [root])) == Extract(v, root)
  {
    assert [root][..0] == [];
    if Extract(v, root).Some? {
      var bytes := Extract(v, root).value;
      assert [] + (bytes + []) == bytes;
    }
  }

  /** Popping a branch and pushing its right then its left child emits the same
      bytes and leaves strictly less to do. */
  lemma BranchStep(v: View, rest: seq<nat>, id: nat, left: nat, right: nat)
    requires id < |v.nodes| && v.nodes[id] == Some(Binary(left, right)) && left < id && right < id
    ensures StackBytes(v, rest + [right] + [left]) == StackBytes(v, rest + [id])
    ensures StackWeight(v, rest + [right] + [left]) < StackWeight(v, rest + [id])
  {
    var one := rest + [right];
    var two := one + [left];
    assert two[..|two| - 1] == one && one[..|one| - 1] == rest;
    assert (rest + [id])[..|rest|] == rest;
    JoinAssociates(Extract(v, left), Extract(v, right), StackBytes(v, rest));
  }

  /** Popping a leaf moves its bytes from the stack to the output. */
  lemma LeafStep(v: View, rest: seq<nat>, id: nat, out: seq<byte>)
    requires Extract(v, id).Some?
    ensures Join(Some(out), StackBytes(v, rest + [id]))
         == Join(Some(out + Extract(v, id).value), StackBytes(v, rest))
  {
    assert (rest + [id])[..|rest|] == rest;
    JoinAssociates(Some(out), Extract(v, id), StackBytes(v, rest));
  }
}
