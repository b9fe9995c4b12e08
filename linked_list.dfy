/**
 * The singly linked list of src/linked_list/linked_list.c.  Nodes are linked
 * from `tail` (the first node appended) through `next` to `head` (the last
 * node appended), whose `next` is null.
 */
module LinkedList {

  class Node<T> {
    var value: T
    var next: Node?<T>

    /** new_node: a node holding v with no successor. */
    constructor (v: T)
      ensures value == v && next == null
    {
      value := v;
      next := null;
    }
  }

  class List<T> {
    var head: Node?<T>
    var tail: Node?<T>
    var size: nat

    /** The nodes in link order, starting at tail. */
    ghost var nodes: seq<Node<T>>
    /** The values in insertion order. */
    ghost var Contents: seq<T>
    ghost var Repr: set<object>

    ghost predicate Valid()
      reads this, Repr
    {
      && this in Repr
      && |nodes| == |Contents| == size
      && (forall i | 0 <= i < size :: nodes[i] in Repr && nodes[i].value == Contents[i])
      && (forall i, j | 0 <= i < j < size :: nodes[i] != nodes[j])
      && (forall i | 0 <= i < size - 1 :: nodes[i].next == nodes[i + 1])
      && (size == 0 ==> head == null && tail == null)
      && (size > 0 ==> tail == nodes[0] && head == nodes[size - 1] && head.next == null)
    }

    /** new_list: size 0, head and tail null. */
    constructor ()
      ensures Valid() && fresh(Repr)
      ensures size == 0 && head == null && tail == null && Contents == []
    {
      head := null;
      tail := null;
      size := 0;
      nodes := [];
      Contents := [];
      Repr := {this};
    }

    /**
     * append: the first node becomes both tail and head; a later node is
     * linked after the old head and becomes the new head, tail unchanged.
     */
    method Append(v: T)
      requires Valid()
      modifies Repr
      ensures Valid() && fresh(Repr - old(Repr))
      ensures size == old(size) + 1
      ensures Contents == old(Contents) + [v]
      ensures head != null && head.value == v && head.next == null
      ensures old(tail) == null ==> tail == head
      ensures old(tail) != null ==> tail == old(tail) && old(head).next == head
    {
      var n := new Node(v);
      if tail == null {
        tail := n;
        head := n;
      } else {
        head.next := n;
        head := n;
      }
      size := size + 1;
      nodes := nodes + [n];
      Contents := Contents + [v];
      Repr := Repr + {n};
    }

    /** Walking from tail along next visits the values in insertion order and stops at the null after head. */
    method Walk() returns (values: seq<T>)
      requires Valid()
      ensures values == Contents
    {
      var cur := tail;
      var i := 0;
      values := [];
      while cur != null
        invariant 0 <= i <= size
        invariant values == Contents[..i]
        invariant cur == if i < size then nodes[i] else null
        decreases size - i
      {
        values := values + [cur.value];
        cur := cur.next;
        i := i + 1;
      }
    }

    /** free_list: every node is unlinked (its next set to null) on the walk from tail. */
    method Free()
      requires Valid()
      modifies Repr
      ensures forall i | 0 <= i < |old(nodes)| :: old(nodes)[i].next == null
    {
      var cur := tail;
      var i := 0;
      ghost var ns := nodes;
      while cur != null
        invariant 0 <= i <= |ns| && |ns| == size
        invariant forall k | 0 <= k < |ns| :: ns[k] in Repr
        invariant forall k | 0 <= k < i :: ns[k].next == null
        invariant forall k | i <= k < |ns| - 1 :: ns[k].next == ns[k + 1]
        invariant i < |ns| ==> ns[|ns| - 1].next == null
        invariant forall k, j | 0 <= k < j < |ns| :: ns[k] != ns[j]
        invariant cur == if i < |ns| then ns[i] else null
        decreases |ns| - i
      {
        var next := cur.next;
        cur.next := null;
        cur := next;
        i := i + 1;
      }
    }
  }
}
