/** The doubly linked lists of pending vector clocks (src/pending.c) and the sequences
    they implement. */
module VectorList {
  import opened Messages
  import opened CausalDelivery

  class VecNode {
    const clock: Clock
    var next: VecNode?
    var previous: VecNode?

    constructor (clock: Clock)
      ensures this.clock == clock && next == null && previous == null
    {
      this.clock := clock;
      next, previous := null, null;
    }
  }

  class VecList {
    ghost var nodes: seq<VecNode>
    var numElems: nat
    var head: VecNode?
    var tail: VecNode?

    /** next and previous are mutually inverse along nodes, and head and tail its ends. */
    ghost predicate Valid()
      reads this, nodes
    {
      && numElems == |nodes|
      && (forall i, j | 0 <= i < j < |nodes| :: nodes[i] != nodes[j])
      && (if nodes == [] then head == null && tail == null
          else head == nodes[0] && tail == nodes[|nodes| - 1])
      && (nodes != [] ==> nodes[0].previous == null && nodes[|nodes| - 1].next == null)
      && (forall i {:trigger nodes[i].next} | 0 <= i < |nodes| - 1 :: nodes[i].next == nodes[i + 1])
      && (forall i {:trigger nodes[i].previous} | 1 <= i < |nodes| :: nodes[i].previous == nodes[i - 1])
    }

    ghost function Clocks(): (cs: seq<Clock>)
      reads this
      ensures |cs| == |nodes| && forall i | 0 <= i < |cs| :: cs[i] == nodes[i].clock
    {
      seq(|nodes|, i requires 0 <= i < |nodes| reads this => nodes[i].clock)
    }

    /** init_veclist. */
    constructor ()
      ensures Valid() && nodes == [] && Clocks() == []
    {
      nodes, numElems, head, tail := [], 0, null, null;
    }

    /** add_veclist. */
    method Add(clock: Clock)
      requires Valid()
      modifies this, nodes
      ensures Valid() && Clocks() == old(Clocks()) + [clock]
      ensures |nodes| == |old(nodes)| + 1 && nodes[..|nodes| - 1] == old(nodes) && fresh(nodes[|nodes| - 1])
    {
      var node := new VecNode(clock);
      if numElems == 0 {
        head, tail := node, node;
      } else {
        tail.next := node;
        node.previous := tail;
        tail := node;
      }
      numElems := numElems + 1;
      nodes := nodes + [node];
    }

    /** The links of remove_veclist: the neighbours of node k, or the ends of the list,
        now point past it. */
    method Unlink(node: VecNode, ghost k: nat)
      requires Valid() && k < |nodes| && nodes[k] == node
      modifies this, nodes
      ensures Valid() && nodes == old(nodes[..k] + nodes[k + 1..])
    {
      if head == node {
        head := node.next;
      } else {
        node.previous.next := node.next;
      }
      if tail == node {
        tail := node.previous;
      } else {
        node.next.previous := node.previous;
      }
      numElems := numElems - 1;
      nodes := nodes[..k] + nodes[k + 1..];
    }

    /** remove_veclist, for a node of this list: head, middle, tail or the only one. */
    method Remove(node: VecNode, ghost k: nat)
      requires Valid() && k < |nodes| && nodes[k] == node
      modifies this, nodes
      ensures Valid() && nodes == old(nodes[..k] + nodes[k + 1..])
      ensures Clocks() == RemoveAt(old(Clocks()), k) && forall x | x in nodes :: x in old(nodes)
    {
      Unlink(node, k);
      forall i | 0 <= i < |nodes| ensures Clocks()[i] == RemoveAt(old(Clocks()), k)[i] {
        assert nodes[i] == old(nodes)[if i < k then i else i + 1];
      }
    }

    /** free_veclist: empties the list from the head. */
    method Free()
      requires Valid()
      modifies this, nodes
      ensures Valid() && nodes == [] && head == null && tail == null
    {
      var ptr := head;
      while ptr != null
        invariant Valid() && ptr == head
        invariant forall i | 0 <= i < |nodes| :: nodes[i] in old(nodes)
        decreases |nodes|
      {
        Remove(ptr, 0);
        ptr := head;
      }
      tail, head := null, null;
    }
  }
}
