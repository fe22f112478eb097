/** internal/cache/cache.go: a map into a linked recency list plus a running
    byte count, all updated in place.  Get and Set are the atomic steps the
    mutex makes of them. */
module LruCache {
  import opened Bytes
  import opened Wrappers
  import opened LruSpec
  import opened RecencyList

  class Cache {
    const maxBytes: int
    var used: int
    var items: map<Key, Node>
    const lru: List

    /** Map and list hold the same entries, each key once, and used is their
        total size. */
    ghost predicate Valid()
      reads this, lru, lru.root, lru.made
    {
      lru.Valid() && Counted(lru.nodes, items, used)
    }

    /** The cache as a value, most recently used first. */
    ghost function Contents(): Lru
      reads this, lru
    {
      Values(lru.nodes)
    }

    ghost function Footprint(): set<object>
      reads this, lru
    {
      {this} + lru.Footprint()
    }

    constructor (maxBytes: int)
      ensures Valid() && fresh(Footprint())
      ensures this.maxBytes == maxBytes && Contents() == []
    {
      this.maxBytes := maxBytes;
      used := 0;
      items := map[];
      lru := new List();
    }

    method Get(k: Key) returns (data: Option<seq<byte>>)
      requires Valid()
      modifies Footprint()
      ensures Valid() && Footprint() == old(Footprint())
      ensures data == Lookup(old(Contents()), k)
      ensures Contents() == Touch(old(Contents()), k)
    {
      CountedLookup(lru.nodes, items, used, k);
      if k !in items {
        return None;
      }
      var el := items[k];
      MoveUp(el);
      data := Some(el.value.data);
    }

    method MoveUp(el: Node)
      requires Valid() && el.value.k in items && items[el.value.k] == el
      modifies Footprint()
      ensures Valid() && Footprint() == old(Footprint())
      ensures Contents() == Touch(old(Contents()), el.value.k)
    {
      ghost var nodes := lru.nodes;
      ghost var i := Locate(nodes, items, el.value.k);
      lru.MoveToFront(el, i);
      CountedMove(nodes, items, used, i);
    }

    method Set(k: Key, data: seq<byte>)
      requires Valid()
      modifies Footprint()
      ensures Valid() && fresh(Footprint() - old(Footprint()))
      ensures Contents() == Store(old(Contents()), k, data, maxBytes)
    {
      RemoveOld(k);
      Insert(Entry(k, data));
      EvictWhileOver();
    }

    method Insert(e: Entry)
      requires Valid() && e.k !in items
      modifies Footprint()
      ensures Valid() && fresh(Footprint() - old(Footprint()))
      ensures Contents() == [e] + old(Contents())
    {
      ghost var nodes, items0, used0 := lru.nodes, items, used;
      var el := lru.PushFront(e);
      items := items[e.k := el];
      used := used + |e.data|;
      CountedInsert(nodes, items0, used0, el);
    }

    /** Set's first branch: drops the entry k already has, if any. */
    method RemoveOld(k: Key)
      requires Valid()
      modifies Footprint()
      ensures Valid() && Footprint() == old(Footprint())
      ensures Contents() == Without(old(Contents()), k) && k !in items
    {
      if k in items {
        RemoveKey(k);
      } else {
        CountedAbsent(lru.nodes, items, used, k);
      }
    }

    /** Removes a key from map, list and count. */
    method RemoveKey(k: Key)
      requires Valid() && k in items
      modifies Footprint()
      ensures Valid() && Footprint() == old(Footprint())
      ensures Contents() == Without(old(Contents()), k)
      ensures items == old(items) - {k}
    {
      var el := items[k];
      ghost var nodes, items0, used0 := lru.nodes, items, used;
      ghost var i := Locate(nodes, items, k);
      lru.Remove(el, i);
      items := items - {k};
      used := used - |el.value.data|;
      CountedRemove(nodes, items0, used0, i);
    }

    /** Set's eviction loop: never touches the entry at the front. */
    method EvictWhileOver()
      requires Valid()
      modifies Footprint()
      ensures Valid() && Footprint() == old(Footprint())
      ensures Contents() == Trim(old(Contents()), maxBytes)
    {
      var n := lru.Len();
      while used > maxBytes && n > 1
        invariant Valid() && Footprint() == old(Footprint())
        invariant n == |lru.nodes|
        invariant Trim(Contents(), maxBytes) == Trim(old(Contents()), maxBytes)
        decreases n
      {
        TrimDropsBack(Contents(), maxBytes);
        EvictBack();
        n := lru.Len();
      }
    }

    method EvictBack()
      requires Valid() && |lru.nodes| > 1
      modifies Footprint()
      ensures Valid() && Footprint() == old(Footprint())
      ensures Contents() == old(Contents())[..|old(lru.nodes)| - 1]
    {
      var back := lru.Back();
      CountedBack(lru.nodes, items, used);
      RemoveKey(back.value.k);
    }
  }

  // ---- Map and list, as values ---------------------------------------------

  ghost function Values(nodes: seq<Node>): (s: Lru)
    ensures |s| == |nodes|
    ensures forall i :: 0 <= i < |s| ==> s[i] == nodes[i].value
  {
    seq(|nodes|, i requires 0 <= i < |nodes| => nodes[i].value)
  }

  ghost predicate Indexed(nodes: seq<Node>, items: map<Key, Node>) {
    && Distinct(Values(nodes))
    && (forall n :: n in nodes ==> n.value.k in items && items[n.value.k] == n)
    && (forall k :: k in items ==> items[k] in nodes && items[k].value.k == k)
  }

  ghost predicate Counted(nodes: seq<Node>, items: map<Key, Node>, used: int) {
    Indexed(nodes, items) && used == Total(Values(nodes))
  }

  ghost function Locate(nodes: seq<Node>, items: map<Key, Node>, k: Key): (i: nat)
    requires Indexed(nodes, items) && k in items
    ensures i < |nodes| && nodes[i] == items[k] && nodes[i].value.k == k
  {
    var i :| 0 <= i < |nodes| && nodes[i] == items[k];
    i
  }

  /** The map finds exactly what a search of the list would find. */
  lemma IndexedLookup(nodes: seq<Node>, items: map<Key, Node>, k: Key)
    requires Indexed(nodes, items)
    ensures k in items <==> Has(Values(nodes), k)
    ensures Lookup(Values(nodes), k) == if k in items then Some(items[k].value.data) else None
  {
    var s := Values(nodes);
    LookupHas(s, k);
    if k in items {
      var i := Locate(nodes, items, k);
      assert s[i].k == k;
      LookupAt(s, i);
    } else {
      forall i | 0 <= i < |s| ensures s[i].k != k {
        assert nodes[i] in nodes;
      }
    }
  }

  lemma MovedMembers<T>(s: seq<T>, i: nat, x: T)
    requires i < |s|
    ensures x in Moved(s, i) <==> x in s
  {
    if x in s {
      var j :| 0 <= j < |s| && s[j] == x;
      assert x == Moved(s, i)[if j == i then 0 else if j < i then j + 1 else j];
    }
  }

  lemma RemovedMembers(nodes: seq<Node>, i: nat, x: Node)
    requires Distinct(Values(nodes)) && i < |nodes|
    ensures x in Removed(nodes, i) <==> x in nodes && x.value.k != nodes[i].value.k
  {
    var s := Values(nodes);
    if x in nodes {
      var j :| 0 <= j < |nodes| && nodes[j] == x;
      assert s[j].k == x.value.k && s[i].k == nodes[i].value.k;
      if j != i {
        assert x == Removed(nodes, i)[if j < i then j else j - 1];
      }
    }
    forall j | 0 <= j < |Removed(nodes, i)| ensures Removed(nodes, i)[j].value.k != nodes[i].value.k {
      var from := if j < i then j else j + 1;
      assert Removed(nodes, i)[j] == nodes[from];
      assert s[from].k != s[i].k;
    }
  }

  lemma ValuesMoved(nodes: seq<Node>, i: nat)
    requires i < |nodes|
    ensures Values(Moved(nodes, i)) == Moved(Values(nodes), i)
  {
  }

  lemma ValuesRemoved(nodes: seq<Node>, i: nat)
    requires i < |nodes|
    ensures Values(Removed(nodes, i)) == Removed(Values(nodes), i)
  {
  }

  lemma MoveValues(nodes: seq<Node>, i: nat)
    requires Distinct(Values(nodes)) && i < |nodes|
    ensures var s, moved := Values(nodes), Values(Moved(nodes, i));
            && moved == Touch(s, nodes[i].value.k) && Distinct(moved) && Total(moved) == Total(s)
  {
    ValuesMoved(nodes, i);
    MovedIsTouch(Values(nodes), i);
  }

  lemma RemoveValues(nodes: seq<Node>, i: nat)
    requires Distinct(Values(nodes)) && i < |nodes|
    ensures var s, rest := Values(nodes), Values(Removed(nodes, i));
            && rest == Without(s, nodes[i].value.k) && Distinct(rest)
            && Total(rest) + |nodes[i].value.data| == Total(s)
  {
    ValuesRemoved(nodes, i);
    RemovedIsWithout(Values(nodes), i);
  }

  lemma IndexedSame(nodes: seq<Node>, other: seq<Node>, items: map<Key, Node>)
    requires Indexed(nodes, items) && Distinct(Values(other))
    requires forall n :: n in other <==> n in nodes
    ensures Indexed(other, items)
  {
  }

  lemma SameMembers<T>(s: seq<T>, i: nat)
    requires i < |s|
    ensures forall x :: x in Moved(s, i) <==> x in s
  {
    forall x ensures x in Moved(s, i) <==> x in s {
      MovedMembers(s, i, x);
    }
  }

  lemma IndexedMove(nodes: seq<Node>, items: map<Key, Node>, i: nat)
    requires Indexed(nodes, items) && i < |nodes|
    ensures Indexed(Moved(nodes, i), items)
    ensures forall n :: n in Moved(nodes, i) <==> n in nodes
  {
    MoveValues(nodes, i);
    SameMembers(nodes, i);
    IndexedSame(nodes, Moved(nodes, i), items);
  }

  lemma IndexedLess(nodes: seq<Node>, rest: seq<Node>, items: map<Key, Node>, k: Key)
    requires Indexed(nodes, items) && Distinct(Values(rest))
    requires forall n :: n in rest <==> n in nodes && n.value.k != k
    ensures Indexed(rest, items - {k})
  {
  }

  lemma OthersRemain(nodes: seq<Node>, i: nat)
    requires Distinct(Values(nodes)) && i < |nodes|
    ensures forall n :: n in Removed(nodes, i) <==> n in nodes && n.value.k != nodes[i].value.k
  {
    forall n ensures n in Removed(nodes, i) <==> n in nodes && n.value.k != nodes[i].value.k {
      RemovedMembers(nodes, i, n);
    }
  }

  lemma IndexedRemove(nodes: seq<Node>, items: map<Key, Node>, i: nat)
    requires Indexed(nodes, items) && i < |nodes|
    ensures Indexed(Removed(nodes, i), items - {nodes[i].value.k})
  {
    RemoveValues(nodes, i);
    OthersRemain(nodes, i);
    IndexedLess(nodes, Removed(nodes, i), items, nodes[i].value.k);
  }

  lemma InsertValues(nodes: seq<Node>, n: Node)
    ensures Values([n] + nodes) == [n.value] + Values(nodes)
    ensures Total(Values([n] + nodes)) == |n.value.data| + Total(Values(nodes))
  {
    assert Values([n] + nodes) == [n.value] + Values(nodes);
    TotalCons(n.value, Values(nodes));
  }

  lemma IndexedInsert(nodes: seq<Node>, items: map<Key, Node>, n: Node)
    requires Indexed(nodes, items) && n.value.k !in items
    ensures Indexed([n] + nodes, items[n.value.k := n])
  {
    InsertValues(nodes, n);
    IndexedLookup(nodes, items, n.value.k);
    ConsDistinct(n.value, Values(nodes));
  }

  lemma IndexedBack(nodes: seq<Node>, items: map<Key, Node>)
    requires Indexed(nodes, items) && nodes != []
    ensures var s := Values(nodes);
            Without(s, s[|s| - 1].k) == s[..|s| - 1]
  {
    var s := Values(nodes);
    WithoutAt(s, |s| - 1);
    assert s[..|s| - 1] + s[|s|..] == s[..|s| - 1];
  }

  // ---- One lemma a step of the cache ---------------------------------------

  lemma CountedLookup(nodes: seq<Node>, items: map<Key, Node>, used: int, k: Key)
    requires Counted(nodes, items, used)
    ensures Lookup(Values(nodes), k) == if k in items then Some(items[k].value.data) else None
    ensures k !in items ==> Touch(Values(nodes), k) == Values(nodes)
    ensures k in items ==> items[k].value.k == k
  {
    IndexedLookup(nodes, items, k);
  }

  lemma CountedAbsent(nodes: seq<Node>, items: map<Key, Node>, used: int, k: Key)
    requires Counted(nodes, items, used) && k !in items
    ensures Without(Values(nodes), k) == Values(nodes)
  {
    IndexedLookup(nodes, items, k);
    WithoutAbsent(Values(nodes), k);
  }

  lemma CountedMove(nodes: seq<Node>, items: map<Key, Node>, used: int, i: nat)
    requires Counted(nodes, items, used) && i < |nodes|
    ensures var moved := Moved(nodes, i);
            && Counted(moved, items, used)
            && Values(moved) == Touch(Values(nodes), nodes[i].value.k)
  {
    IndexedMove(nodes, items, i);
    MoveValues(nodes, i);
  }

  lemma CountedRemove(nodes: seq<Node>, items: map<Key, Node>, used: int, i: nat)
    requires Counted(nodes, items, used) && i < |nodes|
    ensures var rest, k := Removed(nodes, i), nodes[i].value.k;
            && Counted(rest, items - {k}, used - |nodes[i].value.data|)
            && Values(rest) == Without(Values(nodes), k)
  {
    IndexedRemove(nodes, items, i);
    RemoveValues(nodes, i);
  }

  lemma CountedInsert(nodes: seq<Node>, items: map<Key, Node>, used: int, n: Node)
    requires Counted(nodes, items, used) && n.value.k !in items
    ensures Counted([n] + nodes, items[n.value.k := n], used + |n.value.data|)
    ensures Values([n] + nodes) == [n.value] + Values(nodes)
  {
    IndexedInsert(nodes, items, n);
    InsertValues(nodes, n);
  }

  lemma CountedBack(nodes: seq<Node>, items: map<Key, Node>, used: int)
    requires Counted(nodes, items, used) && nodes != []
    ensures var s := Values(nodes);
            && Without(s, s[|s| - 1].k) == s[..|s| - 1]
            && nodes[|nodes| - 1].value.k in items
            && used == Total(s)
  {
    IndexedBack(nodes, items);
  }
}
