/**
 * Orders as heap objects and the intrusive doubly linked list of one price
 * level (include/ordbk/orderbook/orderbook.hpp).
 */
module PriceLevels {
  import opened Types

  /** A slot of the pool: the order's data and its links within a price level. */
  class Order {
    var data: OrderRec
    var levelPrev: Order?
    var levelNext: Order?
    const slot: U32

    constructor (slot: U32)
      ensures this.slot == slot && data == BlankOrder && levelPrev == null && levelNext == null
    {
      this.slot := slot;
      data, levelPrev, levelNext := BlankOrder, null, null;
    }
  }

  predicate Distinct<T(==)>(s: seq<T>) {
    forall i, j | 0 <= i < j < |s| :: s[i] != s[j]
  }

  function PrevIn(nodes: seq<Order>, i: nat): Order?
    requires i < |nodes|
  {
    if i == 0 then null else nodes[i - 1]
  }

  function NextIn(nodes: seq<Order>, i: nat): Order?
    requires i < |nodes|
  {
    if i == |nodes| - 1 then null else nodes[i + 1]
  }

  /** Node i points at its neighbours in `nodes`. */
  ghost predicate Linked(nodes: seq<Order>, i: nat)
    requires i < |nodes|
    reads nodes[i]
  {
    nodes[i].levelPrev == PrevIn(nodes, i) && nodes[i].levelNext == NextIn(nodes, i)
  }

  class PriceLevel {
    var head: Order?
    var tail: Order?
    ghost var nodes: seq<Order>
    ghost const side: Side
    ghost const price: Price

    /** The links spell out `nodes`, forwards and backwards. */
    ghost predicate Valid()
      reads this, nodes
    {
      && Distinct(nodes)
      && head == (if nodes == [] then null else nodes[0])
      && tail == (if nodes == [] then null else nodes[|nodes| - 1])
      && forall i | 0 <= i < |nodes| :: Linked(nodes, i)
    }

    constructor (ghost side: Side, ghost price: Price)
      ensures Valid() && nodes == [] && this.side == side && this.price == price
    {
      head, tail, nodes := null, null, [];
      this.side, this.price := side, price;
    }

    predicate Empty()
      reads this
    {
      head == null
    }

    method PushBack(o: Order)
      requires Valid() && o !in nodes
      modifies this, o`levelPrev, o`levelNext, nodes`levelNext
      ensures Valid() && nodes == old(nodes) + [o]
    {
      o.levelPrev := tail;
      o.levelNext := null;
      if tail != null {
        tail.levelNext := o;
      } else {
        head := o;
      }
      tail := o;
      nodes := nodes + [o];
      forall i | 0 <= i < |nodes| ensures Linked(nodes, i) {
        assert i < |nodes| - 1 ==> old(Linked(nodes, i));
      }
    }

    method PopFront()
      requires Valid() && nodes != []
      modifies this, nodes`levelPrev, nodes`levelNext
      ensures Valid() && nodes == old(nodes)[1..]
      ensures old(head).levelPrev == null && old(head).levelNext == null
    {
      var o := head;
      assert Linked(nodes, 0);
      head := o.levelNext;
      if head != null {
        head.levelPrev := null;
      } else {
        tail := null;
      }
      o.levelPrev := null;
      o.levelNext := null;
      nodes := nodes[1..];
      forall i | 0 <= i < |nodes| ensures Linked(nodes, i) {
        assert old(Linked(nodes, i + 1));
      }
    }

    /** Unlinks the order at position k, wherever it is. */
    method Erase(o: Order, ghost k: nat)
      requires Valid() && k < |nodes| && nodes[k] == o
      modifies this, nodes`levelPrev, nodes`levelNext
      ensures Valid() && nodes == old(nodes)[..k] + old(nodes)[k + 1..]
      ensures o.levelPrev == null && o.levelNext == null
    {
      assert Linked(nodes, k);
      if o.levelPrev != null {
        o.levelPrev.levelNext := o.levelNext;
      } else {
        head := o.levelNext;
      }
      if o.levelNext != null {
        o.levelNext.levelPrev := o.levelPrev;
      } else {
        tail := o.levelPrev;
      }
      o.levelPrev := null;
      o.levelNext := null;
      nodes := nodes[..k] + nodes[k + 1..];
      forall i | 0 <= i < |nodes| ensures Linked(nodes, i) {
        assert old(Linked(nodes, if i < k then i else i + 1));
      }
    }
  }
}
