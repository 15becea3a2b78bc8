/** Singly linked lists of allocated cells, as the BACnet data structures of a command are, and the
    set of cells that are allocated and not yet freed. */
module Cells {
  import opened Lists

  class Cell<T> {
    var item: T
    var next: Cell?<T>

    constructor (item: T)
      ensures this.item == item && next == null
    {
      this.item, this.next := item, null;
    }
  }

  class Heap {
    ghost var live: set<object>

    constructor ()
      ensures live == {}
    {
      live := {};
    }

    /** `malloc` of a cell. */
    method Alloc<T>(item: T) returns (c: Cell<T>)
      modifies this
      ensures fresh(c) && c.item == item && c.next == null && live == old(live) + {c}
    {
      c := new Cell(item);
      live := live + {c};
    }

    /** `free`: only of what is allocated, so never twice. */
    method Free<T>(c: Cell<T>)
      requires c in live
      modifies this
      ensures live == old(live) - {c}
    {
      live := live - {c};
    }
  }

  ghost function At<T>(q: seq<Cell<T>>, i: int): Cell?<T> {
    if 0 <= i < |q| then q[i] else null
  }

  /** The cells reached from `head` are these, in order. */
  ghost predicate Linked<T>(head: Cell?<T>, q: seq<Cell<T>>)
    reads q
  {
    && Distinct(q) && head == At(q, 0)
    && forall i {:trigger q[i].next} :: 0 <= i < |q| ==> q[i].next == At(q, i + 1)
  }

  ghost function Items<T>(q: seq<Cell<T>>): (r: seq<T>)
    reads q
    ensures |r| == |q|
  {
    seq(|q|, i requires 0 <= i < |q| reads q => q[i].item)
  }

  /** Walks to the last cell and links `c` behind it. */
  method Append<T>(head: Cell?<T>, c: Cell<T>, ghost q: seq<Cell<T>>) returns (h: Cell?<T>)
    requires Linked(head, q) && c !in q
    modifies c`next, q`next
    ensures Linked(h, q + [c])
  {
    c.next := null;
    if head == null {
      return c;
    }
    var current := head;
    ghost var i := 0;
    while current.next != null
      invariant 0 <= i < |q| && current == q[i]
      invariant Linked(head, q)
      decreases |q| - i
    {
      current := current.next;
      i := i + 1;
    }
    current.next := c;
    DistinctAppend(q, c);
    return head;
  }

  lemma DistinctAppend<T>(q: seq<T>, x: T)
    requires Distinct(q) && x !in q
    ensures Distinct(q + [x])
  {
  }

  /** Frees every cell of a list, each once. */
  method FreeAll<T>(heap: Heap, head: Cell?<T>, ghost q: seq<Cell<T>>)
    requires Linked(head, q) && forall c :: c in q ==> c in heap.live
    modifies heap
    ensures heap.live == old(heap.live) - set c | c in q
  {
    var current := head;
    ghost var i := 0;
    while current != null
      invariant 0 <= i <= |q| && current == At(q, i)
      invariant heap.live == old(heap.live) - set c | c in q[..i]
      decreases |q| - i
    {
      var next := current.next;
      heap.Free(current);
      current := next;
      assert q[..i + 1] == q[..i] + [q[i]];
      i := i + 1;
    }
    assert q[..i] == q;
  }
}
