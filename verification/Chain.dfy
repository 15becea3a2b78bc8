/**
 The intrusive doubly linked list that return_data.c, device_condition_map.c, address_entry.c and
 address_instance_map.c each spell out: nodes with a key, linked in both directions from `first`.
 `nodes` is the abstract list, first node first.
 */
module Chain {
  import opened Lists

  class Node<K, D> {
    var key: K
    var data: D
    var next: Node?<K, D>
    var prev: Node?<K, D>

    constructor (key: K, data: D)
      ensures this.key == key && this.data == data && next == null && prev == null
    {
      this.key, this.data, this.next, this.prev := key, data, null, null;
    }
  }

  ghost function At<K, D>(q: seq<Node<K, D>>, i: int): Node?<K, D> {
    if 0 <= i < |q| then q[i] else null
  }

  /** A proper list: no node occurs twice, `first` is the first node and has no predecessor, and
      neighbours point at each other. */
  ghost predicate Shape<K, D>(first: Node?<K, D>, q: seq<Node<K, D>>)
    reads q
  {
    && Distinct(q)
    && first == At(q, 0)
    && (forall i {:trigger q[i].next} :: 0 <= i < |q| ==> q[i].next == At(q, i + 1))
    && (forall i {:trigger q[i].prev} :: 0 <= i < |q| ==> q[i].prev == At(q, i - 1))
  }

  /** Once the neighbours of node `i` point past it, the others form a proper list. */
  lemma Relinked<K, D>(first: Node?<K, D>, q: seq<Node<K, D>>, i: nat)
    requires i < |q| && Distinct(q) && first == At(q, if i == 0 then 1 else 0)
    requires forall j {:trigger q[j].next} :: 0 <= j < |q| && j != i ==>
               q[j].next == At(q, if j + 1 == i then i + 1 else j + 1)
    requires forall j {:trigger q[j].prev} :: 0 <= j < |q| && j != i ==>
               q[j].prev == At(q, if j - 1 == i then i - 1 else j - 1)
    ensures Shape(first, RemoveAt(q, i))
  {
    var r := RemoveAt(q, i);
    DistinctRemove(q, i);
    forall k | 0 <= k < |r| ensures r[k].next == At(r, k + 1) && r[k].prev == At(r, k - 1) {
      assert r[k] == q[if k < i then k else k + 1];
    }
  }

  class List<K(==), D> {
    var first: Node?<K, D>
    ghost var nodes: seq<Node<K, D>>

    ghost predicate Valid()
      reads this, nodes
    {
      Shape(first, nodes)
    }

    ghost function Keys(): (r: seq<K>)
      reads this, nodes
      ensures |r| == |nodes|
    {
      seq(|nodes|, i requires 0 <= i < |nodes| reads this, nodes => nodes[i].key)
    }

    ghost function Values(): (r: seq<D>)
      reads this, nodes
      ensures |r| == |nodes|
    {
      seq(|nodes|, i requires 0 <= i < |nodes| reads this, nodes => nodes[i].data)
    }

    constructor ()
      ensures Valid() && nodes == []
    {
      first, nodes := null, [];
    }

    /** The lookup loop: the first node with this key, or null. */
    method Find(key: K) returns (n: Node?<K, D>)
      requires Valid()
      ensures n == At(nodes, IndexOf(Keys(), key))
    {
      n := first;
      ghost var i := 0;
      while n != null
        invariant 0 <= i <= |nodes| && n == At(nodes, i)
        invariant forall j :: 0 <= j < i ==> nodes[j].key != key
        decreases |nodes| - i
      {
        if n.key == key {
          break;
        }
        n := n.next;
        i := i + 1;
      }
      assert i < |nodes| ==> Keys()[i] == key;
      IndexOfIs(Keys(), key, i);
    }

    /** Links a fresh node in front. */
    method Prepend(key: K, data: D) returns (n: Node<K, D>)
      requires Valid()
      modifies this, nodes`prev
      ensures Valid() && fresh(n) && nodes == [n] + old(nodes)
      ensures n.key == key && n.data == data
    {
      n := new Node(key, data);
      n.next := first;
      if first != null {
        first.prev := n;
      }
      first := n;
      nodes := [n] + nodes;
    }

    /** Makes `first` and the neighbours of this node point past it. */
    method PointPast(n: Node<K, D>, ghost i: nat)
      requires Valid() && i < |nodes| && nodes[i] == n
      modifies `first, nodes`next, nodes`prev
      ensures Shape(first, RemoveAt(nodes, i))
      ensures n.next == old(n.next) && n.prev == old(n.prev)
    {
      if n == first {
        first := first.next;
        if n.next != null {
          n.next.prev := null;
        }
      } else {
        n.prev.next := n.next;
        if n.next != null {
          n.next.prev := n.prev;
        }
      }
      Relinked(first, nodes, i);
    }

    /** Unlinks exactly this node and leaves its own fields alone. */
    method Unlink(n: Node<K, D>, ghost i: nat)
      requires Valid() && i < |nodes| && nodes[i] == n
      modifies this, nodes`next, nodes`prev
      ensures Valid() && nodes == RemoveAt(old(nodes), i)
      ensures Keys() == RemoveAt(old(Keys()), i) && Values() == RemoveAt(old(Values()), i)
      ensures n.next == old(n.next) && n.prev == old(n.prev)
    {
      PointPast(n, i);
      nodes := RemoveAt(nodes, i);
    }
  }
}
