/**
 The intrusive circular doubly linked list. A list is a head that links the first
 and the last item; the head and the items are nodes of the same type.
 */
module CircularList {
  /** What a node is embedded in: an item belongs to a container, the head to none. */
  datatype Entry<T> = Head | In(container: T)

  class Item<T> {
    var next_p: Item<T>
    var prev_p: Item<T>
    const entry: Entry<T>
    /** Whether the memory was given back. */
    ghost var freed: bool

    constructor (e: Entry<T>)
      ensures entry == e && next_p == this && prev_p == this && !freed
    {
      entry := e;
      freed := false;
      next_p := this;
      prev_p := this;
    }
  }

  /** The nodes in order, from the head around to the head. */
  ghost function Ring<T>(head: Item<T>, items: seq<Item<T>>): seq<Item<T>> {
    [head] + items + [head]
  }

  ghost predicate Linked<T>(ring: seq<Item<T>>)
    reads ring
  {
    forall i, j :: 0 <= i && j == i + 1 && j < |ring| ==> ring[i].next_p == ring[j] && ring[j].prev_p == ring[i]
  }

  ghost predicate Distinct<T>(xs: seq<T>) {
    forall i, j :: 0 <= i < j < |xs| ==> xs[i] != xs[j]
  }

  ghost predicate IsList<T>(head: Item<T>, items: seq<Item<T>>)
    reads {head}, items
  {
    Distinct([head] + items) && Linked(Ring(head, items))
  }

  /** Neighbours in a list are different nodes, unless both are the head. */
  lemma RingDistinct<T>(head: Item<T>, items: seq<Item<T>>, i: nat, j: nat)
    requires Distinct([head] + items) && i < j < |items| + 2
    ensures Ring(head, items)[i] == Ring(head, items)[j] <==> i == 0 && j == |items| + 1
  {
    var ring, nodes := Ring(head, items), [head] + items;
    assert ring[i] == nodes[i];
    if j == |items| + 1 {
      assert ring[j] == nodes[0];
    } else {
      assert ring[j] == nodes[j];
    }
  }

  lemma DistinctFront<T>(head: T, items: seq<T>, item: T)
    requires Distinct([head] + items) && item !in [head] + items
    ensures Distinct([head] + ([item] + items))
  {
    var nodes, nodes' := [head] + items, [head] + ([item] + items);
    forall i, j | 0 <= i < j < |nodes'| ensures nodes'[i] != nodes'[j] {
      if j >= 2 { assert nodes'[j] == nodes[j - 1]; }
      if i >= 2 { assert nodes'[i] == nodes[i - 1]; }
      if i == 0 { assert nodes'[i] == nodes[0]; }
    }
  }

  lemma DistinctBack<T>(head: T, items: seq<T>, item: T)
    requires Distinct([head] + items) && item !in [head] + items
    ensures Distinct([head] + (items + [item]))
  {
    var nodes, nodes' := [head] + items, [head] + (items + [item]);
    forall i, j | 0 <= i < j < |nodes'| ensures nodes'[i] != nodes'[j] {
      assert nodes'[i] == nodes[i];
      if j < |nodes| { assert nodes'[j] == nodes[j]; }
    }
  }

  ghost function Without<T>(items: seq<T>, k: nat): (rest: seq<T>)
    requires k < |items|
    ensures |rest| == |items| - 1
    ensures forall i :: 0 <= i < |rest| ==> rest[i] == items[if i < k then i else i + 1]
  {
    items[..k] + items[k + 1..]
  }

  lemma DistinctWithout<T>(head: T, items: seq<T>, k: nat)
    requires Distinct([head] + items) && k < |items|
    ensures Distinct([head] + Without(items, k))
    ensures items[k] !in Without(items, k)
  {
    var nodes, nodes' := [head] + items, [head] + Without(items, k);
    assert nodes[k + 1] == items[k];
    forall i, j | 0 <= i < j < |nodes'| ensures nodes'[i] != nodes'[j] {
      assert nodes'[i] == if i <= k then nodes[i] else nodes[i + 1];
      assert nodes'[j] == if j <= k then nodes[j] else nodes[j + 1];
    }
    var rest := Without(items, k);
    forall j | 0 <= j < |rest| ensures rest[j] != items[k] {
      assert rest[j] == if j < k then nodes[j + 1] else nodes[j + 2];
    }
  }

  method Init<T>(head: Item<T>)
    modifies head
    ensures IsList(head, [])
  {
    head.next_p := head;
    head.prev_p := head;
  }

  method Add<T>(item: Item<T>, head: Item<T>, ghost items: seq<Item<T>>)
    requires IsList(head, items) && item !in [head] + items
    modifies item, head, head.next_p
    ensures IsList(head, [item] + items)
  {
    ghost var ring := Ring(head, items);
    assert ring[0].next_p == ring[1];
    RingDistinct(head, items, 0, 1);
    item.next_p := head.next_p;
    item.prev_p := head;
    head.next_p := item;
    item.next_p.prev_p := item;
    ghost var ring' := Ring(head, [item] + items);
    DistinctFront(head, items, item);
    forall i, j | 0 <= i && j == i + 1 && j < |ring'|
      ensures ring'[i].next_p == ring'[j] && ring'[j].prev_p == ring'[i]
    {
      if i >= 1 {
        assert ring'[j] == ring[i];
        if i >= 2 {
          assert ring'[i] == ring[i - 1];
          RingDistinct(head, items, 1, i);
          RingDistinct(head, items, 0, i - 1);
        }
      }
    }
  }

  method AddTail<T>(item: Item<T>, head: Item<T>, ghost items: seq<Item<T>>)
    requires IsList(head, items) && item !in [head] + items
    modifies item, head, head.prev_p
    ensures IsList(head, items + [item])
  {
    ghost var ring, n := Ring(head, items), |items|;
    assert ring[n].next_p == ring[n + 1];
    item.prev_p := head.prev_p;
    item.next_p := head;
    head.prev_p := item;
    item.prev_p.next_p := item;
    ghost var ring' := Ring(head, items + [item]);
    DistinctBack(head, items, item);
    forall i, j | 0 <= i && j == i + 1 && j < |ring'|
      ensures ring'[i].next_p == ring'[j] && ring'[j].prev_p == ring'[i]
    {
      if i <= n {
        assert ring'[i] == ring[i];
        if i < n {
          assert ring'[j] == ring[j];
          RingDistinct(head, items, i, n);
          RingDistinct(head, items, j, n + 1);
        }
      }
    }
  }

  method Delete<T>(old_item: Item<T>, ghost head: Item<T>, ghost items: seq<Item<T>>, ghost k: nat)
    requires IsList(head, items) && k < |items| && items[k] == old_item
    modifies old_item.next_p`prev_p, old_item.prev_p`next_p
    ensures IsList(head, Without(items, k))
  {
    ghost var ring := Ring(head, items);
    assert ring[k + 1] == old_item && ring[k + 1].next_p == ring[k + 2] && ring[k].next_p == ring[k + 1];
    old_item.next_p.prev_p := old_item.prev_p;
    old_item.prev_p.next_p := old_item.next_p;
    ghost var rest := Without(items, k);
    ghost var ring' := Ring(head, rest);
    DistinctWithout(head, items, k);
    forall i, j | 0 <= i && j == i + 1 && j < |ring'|
      ensures ring'[i].next_p == ring'[j] && ring'[j].prev_p == ring'[i]
    {
      if i <= k {
        assert ring'[i] == ring[i];
      } else {
        assert ring'[i] == ring[i + 1];
        RingDistinct(head, items, k, i + 1);
      }
      if j <= k {
        assert ring'[j] == ring[j];
        RingDistinct(head, items, i, k);
        RingDistinct(head, items, j, k + 2);
      } else {
        assert ring'[j] == ring[j + 1];
        if j > k + 1 { RingDistinct(head, items, k + 2, j + 1); }
      }
    }
  }

  /** Puts item in the place of old_item, which keeps pointing into the list. */
  method Replace<T>(item: Item<T>, old_item: Item<T>, ghost head: Item<T>, ghost items: seq<Item<T>>, ghost k: nat)
    requires IsList(head, items) && k < |items| && items[k] == old_item && item !in [head] + items
    modifies item, old_item.next_p, old_item.prev_p
    ensures IsList(head, items[k := item])
  {
    ghost var ring := Ring(head, items);
    assert ring[k + 1] == old_item && ring[k + 1].next_p == ring[k + 2] && ring[k].next_p == ring[k + 1];
    item.next_p := old_item.next_p;
    item.prev_p := old_item.prev_p;
    item.next_p.prev_p := item;
    item.prev_p.next_p := item;
    ghost var ring' := Ring(head, items[k := item]);
    DistinctReplaced(head, items, k, item);
    forall i, j | 0 <= i && j == i + 1 && j < |ring'|
      ensures ring'[i].next_p == ring'[j] && ring'[j].prev_p == ring'[i]
    {
      assert ring'[i] == if i == k + 1 then item else ring[i];
      assert ring'[j] == if j == k + 1 then item else ring[j];
      if i < k { RingDistinct(head, items, i, k); RingDistinct(head, items, j, k + 2); }
      if i > k + 1 { RingDistinct(head, items, k, i); RingDistinct(head, items, k + 2, j); }
    }
  }

  lemma DistinctReplaced<T>(head: T, items: seq<T>, k: nat, item: T)
    requires Distinct([head] + items) && k < |items| && item !in [head] + items
    ensures Distinct([head] + items[k := item])
  {
    var nodes, nodes' := [head] + items, [head] + items[k := item];
    forall i, j | 0 <= i < j < |nodes'| ensures nodes'[i] != nodes'[j] {
      assert nodes'[i] == if i == k + 1 then item else nodes[i];
      assert nodes'[j] == if j == k + 1 then item else nodes[j];
    }
  }

  predicate IsEmpty<T>(head: Item<T>)
    reads head
  {
    head.next_p == head
  }

  lemma EmptyExactly<T>(head: Item<T>, items: seq<Item<T>>)
    requires IsList(head, items)
    ensures IsEmpty(head) <==> items == []
  {
    var ring := Ring(head, items);
    assert ring[0].next_p == ring[1];
    if items != [] { RingDistinct(head, items, 0, 1); }
  }

  lemma Following<T>(head: Item<T>, items: seq<Item<T>>, k: nat)
    requires IsList(head, items) && k < |items|
    ensures head.next_p == items[0]
    ensures items[k].next_p == if k + 1 < |items| then items[k + 1] else head
    ensures items[k].prev_p == if k > 0 then items[k - 1] else head
    ensures items[k] != head
  {
    var ring := Ring(head, items);
    assert ring[0].next_p == ring[1];
    assert ring[k + 1].next_p == ring[k + 2];
    assert ring[k].next_p == ring[k + 1];
    RingDistinct(head, items, 0, k + 1);
  }

  lemma Ends<T>(head: Item<T>, items: seq<Item<T>>)
    requires IsList(head, items)
    ensures head.next_p == if items == [] then head else items[0]
    ensures head.prev_p == if items == [] then head else items[|items| - 1]
  {
    var ring := Ring(head, items);
    assert ring[0].next_p == ring[1];
    assert ring[|items|].next_p == ring[|items| + 1];
  }

  // ----- Memory that is given back -----

  /** Reading, unlinking and freeing need nodes that have not been freed. */
  method NextOf<T>(item: Item<T>) returns (next: Item<T>)
    requires !item.freed
    ensures next == item.next_p
  {
    next := item.next_p;
  }

  method DeleteLive<T>(old_item: Item<T>, ghost head: Item<T>, ghost items: seq<Item<T>>, ghost k: nat)
    requires IsList(head, items) && k < |items| && items[k] == old_item
    requires !old_item.freed && !old_item.next_p.freed && !old_item.prev_p.freed
    modifies old_item.next_p`prev_p, old_item.prev_p`next_p
    ensures IsList(head, Without(items, k))
  {
    Delete(old_item, head, items, k);
  }

  method Free<T>(item: Item<T>)
    requires !item.freed
    modifies item`freed
    ensures item.freed
  {
    ghost var done := true;
    item.freed := done;
  }

  /** Deletes and frees all items with the safe loop, which looks up the next item before
      it frees the current one: every item is freed once, and as each access below has to
      be to a node that is not freed yet, none is used after that. */
  method FreeAll<T>(head: Item<T>, ghost items: seq<Item<T>>)
    requires IsList(head, items) && !head.freed && forall i :: 0 <= i < |items| ==> !items[i].freed
    modifies head, items
    ensures IsList(head, []) && !head.freed && forall i :: 0 <= i < |items| ==> items[i].freed
  {
    hide Linked, Ring, Distinct, Without;
    ghost var n := 0;
    assert items[n..] == items;
    if items != [] { Following(head, items, 0); } else { EmptyExactly(head, items); }
    var cur := NextOf(head);
    var next := NextOf(cur);
    while cur != head
      invariant n <= |items| && IsList(head, items[n..]) && !head.freed
      invariant forall i :: 0 <= i < |items| ==> (items[i].freed <==> i < n)
      invariant cur == if n < |items| then items[n] else head
      invariant next == cur.next_p
      decreases |items| - n
    {
      ghost var left := items[n..];
      if n + 1 < |items| { DistinctFrom(head, items, n + 1); }
      DistinctFrom(head, items, n);
      Following(head, left, 0);
      DeleteLive(cur, head, left, 0);
      assert Without(left, 0) == items[n + 1..];
      Free(cur);
      n := n + 1;
      cur := next;
      next := NextOf(cur);
    }
    if n < |items| { DistinctFrom(head, items, n); }
  }

  lemma DistinctFrom<T>(head: T, items: seq<T>, n: nat)
    requires Distinct([head] + items) && n < |items|
    ensures items[n] != head && forall i :: 0 <= i < |items| && i != n ==> items[i] != items[n]
  {
    var nodes := [head] + items;
    assert nodes[n + 1] == items[n] && nodes[0] == head;
    forall i | 0 <= i < |items| && i != n ensures items[i] != items[n] {
      assert nodes[i + 1] == items[i];
    }
  }
}
