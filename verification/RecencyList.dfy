/** The doubly linked list the cache keeps its entries in, as container/list
    builds it: a ring of nodes through a sentinel, relinked in place. */
module RecencyList {
  import opened LruSpec

  class Node {
    const value: Entry
    var prev: Node
    var next: Node

    constructor (value: Entry)
      ensures this.value == value && prev == next == this
    {
      this.value := value;
      prev, next := this, this;
    }
  }

  ghost predicate NoRepeats(ring: seq<Node>) {
    forall i, j :: 0 <= i < j < |ring| ==> ring[i] != ring[j]
  }

  /** Each node's next is its neighbour, the last one's the first. */
  ghost predicate Forward(ring: seq<Node>)
    requires ring != []
    reads ring
  {
    && (forall i :: 0 <= i < |ring| - 1 ==> ring[i].next == ring[i + 1])
    && ring[|ring| - 1].next == ring[0]
  }

  /** Each node's prev is its neighbour, the first one's the last. */
  ghost predicate Backward(ring: seq<Node>)
    requires ring != []
    reads ring
  {
    && (forall i :: 0 < i < |ring| ==> ring[i].prev == ring[i - 1])
    && ring[0].prev == ring[|ring| - 1]
  }

  ghost predicate Linked(ring: seq<Node>)
    requires ring != []
    reads ring
  {
    NoRepeats(ring) && Forward(ring) && Backward(ring)
  }

  lemma RemovedNoRepeats(ring: seq<Node>, i: nat)
    requires i < |ring| && NoRepeats(ring)
    ensures NoRepeats(Removed(ring, i))
  {
  }

  class List {
    const root: Node
    var len: nat
    ghost var nodes: seq<Node> // front to back, without the sentinel
    ghost var made: set<Node> // every node ever linked in

    ghost predicate Ring()
      reads this, root, made
    {
      (forall i :: 0 <= i < |nodes| ==> nodes[i] in made) && Linked([root] + nodes)
    }

    ghost predicate Valid()
      reads this, root, made
    {
      len == |nodes| && Ring()
    }

    ghost function Footprint(): set<object>
      reads this
    {
      {this, root} + made
    }

    constructor ()
      ensures Valid() && nodes == [] && fresh(Footprint())
    {
      root := new Node(Entry(Key("", 0), []));
      len := 0;
      nodes, made := [], {};
    }

    method Len() returns (n: nat)
      requires Valid()
      ensures n == |nodes|
    {
      n := len;
    }

    method Back() returns (n: Node)
      requires Valid() && nodes != []
      ensures n == nodes[|nodes| - 1]
    {
      assert ([root] + nodes)[0].prev == ([root] + nodes)[|nodes|];
      n := root.prev;
    }

    /** Links a node that is not in the list in behind the sentinel. */
    method InsertFront(n: Node)
      requires Ring() && n !in [root] + nodes
      modifies this, root, made, n
      ensures Ring() && nodes == [n] + old(nodes) && len == old(len) && made == old(made) + {n}
    {
      ghost var ring := [root] + nodes;
      ghost var first, last := ring[if |ring| == 1 then 0 else 1], ring[|ring| - 1];
      assert ring[0] == root && root.next == first && first.prev == root && last.next == root;
      assert first == root || first in made;
      n.prev := root;
      n.next := root.next;
      n.prev.next := n;
      n.next.prev := n;
      nodes, made := [n] + nodes, made + {n};
      ghost var after := [root] + nodes;
      assert after[0] == root && after[1] == n;
      assert forall i :: 2 <= i < |after| ==> after[i] == ring[i - 1];
    }

    /** Links a node's neighbours to each other. */
    method Unlink(n: Node, ghost i: nat)
      requires Ring() && i < |nodes| && nodes[i] == n
      modifies this, root, made
      ensures Ring() && len == old(len) && made == old(made)
      ensures nodes == Removed(old(nodes), i)
    {
      Cut(n, [root] + nodes, i + 1);
      assert [root] + Removed(nodes, i) == Removed([root] + nodes, i + 1);
      nodes := Removed(nodes, i);
    }

    method Cut(n: Node, ghost ring: seq<Node>, ghost i: nat)
      requires 0 < i < |ring| && ring[i] == n && Linked(ring)
      requires forall j :: 0 <= j < |ring| ==> ring[j] == root || ring[j] in made
      modifies root, made
      ensures Linked(Removed(ring, i))
    {
      SkipForward(n, ring, i);
      SkipBackward(n, ring, i);
      RemovedNoRepeats(ring, i);
    }

    method SkipForward(n: Node, ghost ring: seq<Node>, ghost i: nat)
      requires 0 < i < |ring| && ring[i] == n && NoRepeats(ring)
      requires forall j :: 0 <= j < |ring| ==> ring[j] == root || ring[j] in made
      requires Forward(ring) && n.prev == ring[i - 1]
      modifies root`next, made`next
      ensures Forward(Removed(ring, i))
      ensures n.next == old(n.next) == if i + 1 == |ring| then ring[0] else ring[i + 1]
    {
      ghost var after := Removed(ring, i);
      assert forall j :: 0 <= j < |after| ==> after[j] == ring[if j < i then j else j + 1];
      n.prev.next := n.next;
      forall j | 0 <= j < |ring| && j != i - 1 ensures ring[j].next == old(ring[j].next) {
        assert ring[j] != ring[i - 1];
      }
    }

    method SkipBackward(n: Node, ghost ring: seq<Node>, ghost i: nat)
      requires 0 < i < |ring| && ring[i] == n && NoRepeats(ring)
      requires forall j :: 0 <= j < |ring| ==> ring[j] == root || ring[j] in made
      requires Backward(ring) && n.next == if i + 1 == |ring| then ring[0] else ring[i + 1]
      modifies root`prev, made`prev
      ensures Backward(Removed(ring, i))
    {
      ghost var after := Removed(ring, i);
      assert forall j :: 0 <= j < |after| ==> after[j] == ring[if j < i then j else j + 1];
      ghost var behind := if i + 1 == |ring| then 0 else i + 1;
      n.next.prev := n.prev;
      forall j | 0 <= j < |ring| && j != behind ensures ring[j].prev == old(ring[j].prev) {
        assert ring[j] != ring[behind];
      }
    }

    method PushFront(value: Entry) returns (n: Node)
      requires Valid()
      modifies this, root, made
      ensures Valid() && fresh(n) && n.value == value && nodes == [n] + old(nodes) && made == old(made) + {n}
    {
      n := new Node(value);
      InsertFront(n);
      len := len + 1;
    }

    method Remove(n: Node, ghost i: nat)
      requires Valid() && i < |nodes| && nodes[i] == n
      modifies this, root, made
      ensures Valid() && nodes == Removed(old(nodes), i) && made == old(made)
    {
      Unlink(n, i);
      len := len - 1;
    }

    method MoveToFront(n: Node, ghost i: nat)
      requires Valid() && i < |nodes| && nodes[i] == n
      modifies this, root, made
      ensures Valid() && nodes == Moved(old(nodes), i) && made == old(made)
    {
      ghost var ring := [root] + nodes;
      assert ring[i + 1] == n && ring[0].next == ring[1];
      if root.next == n {
        assert i == 0;
        return;
      }
      Unlink(n, i);
      assert forall j :: 0 <= j < |nodes| ==> nodes[j] == ring[if j < i then j + 1 else j + 2];
      InsertFront(n);
    }
  }
}
