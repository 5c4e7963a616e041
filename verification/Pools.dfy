/**
 * The slab of order slots with its stack of free slots
 * (include/ordbk/utils/pool.hpp).
 */
module Pools {
  import opened Types
  import opened PriceLevels

  /** Distinct values below n: there are at most n of them. */
  lemma {:induction false} Pigeonhole(s: seq<U32>, n: nat)
    requires Distinct(s) && forall i | 0 <= i < |s| :: s[i] < n
    ensures |s| <= n
  {
    if s == [] {
      return;
    }
    assert s[0] < n;
    if exists k | 0 <= k < |s| :: s[k] == n - 1 {
      var k :| 0 <= k < |s| && s[k] == n - 1;
      var r := s[..k] + s[k + 1..];
      assert forall i | 0 <= i < |r| :: r[i] == s[if i < k then i else i + 1];
      Pigeonhole(r, n - 1);
    } else {
      Pigeonhole(s, n - 1);
    }
  }

  class Pool {
    const storage: seq<Order>
    const freeSlots: array<U32>
    var stackTop: U32

    ghost predicate Valid()
      reads this, freeSlots
    {
      && freeSlots.Length == |storage| <= 0xFFFF_FFFE
      && stackTop <= |storage|
      && (forall i | 0 <= i < |storage| :: storage[i].slot == i)
      && (forall i | 0 <= i < stackTop :: freeSlots[i] < |storage|)
      && Distinct(freeSlots[..stackTop])
    }

    /** The slots on the free stack. */
    ghost function FreeSet(): set<Order>
      requires Valid()
      reads this, freeSlots
    {
      set i | 0 <= i < stackTop :: storage[freeSlots[i]]
    }

    ghost function Slots(): set<Order> {
      set o | o in storage
    }

    constructor (capacity: nat)
      requires 0 < capacity <= 0xFFFF_FFFE
      ensures Valid() && |storage| == capacity && fresh(storage) && fresh(freeSlots)
      ensures FreeSet() == Slots()
    {
      var orders: seq<Order> := [];
      var free := new U32[capacity];
      for i := 0 to capacity
        invariant |orders| == i && fresh(orders)
        invariant forall j | 0 <= j < i :: orders[j].slot == j && free[j] == j
      {
        var o := new Order(i);
        orders := orders + [o];
        free[i] := i;
      }
      storage, freeSlots, stackTop := orders, free, capacity;
      new;
      assert forall o | o in Slots() :: storage[freeSlots[o.slot]] == o;
    }

    method Acquire() returns (o: Order?)
      requires Valid()
      modifies this, FreeSet()
      ensures Valid()
      ensures o == null <==> old(FreeSet()) == {}
      ensures o == null ==> FreeSet() == {} && unchanged(this)
      ensures o != null ==> o in old(FreeSet()) && FreeSet() == old(FreeSet()) - {o}
      ensures o != null ==> o.data == BlankOrder && o.levelPrev == null && o.levelNext == null
      ensures forall p | p in old(FreeSet()) && p != o :: unchanged(p)
    {
      if stackTop == 0 {
        return null;
      }
      o := storage[freeSlots[stackTop - 1]];
      assert o in FreeSet();
      stackTop := stackTop - 1;
      o.data, o.levelPrev, o.levelNext := BlankOrder, null, null;
      assert freeSlots[..stackTop] == old(freeSlots[..stackTop])[..stackTop];
      forall p | p in old(FreeSet()) - {o} ensures p in FreeSet() {
        var i :| 0 <= i < old(stackTop) && p == storage[freeSlots[i]];
      }
      forall p | p in FreeSet() ensures p != o {
        var i :| 0 <= i < stackTop && p == storage[freeSlots[i]];
        assert old(freeSlots[..stackTop])[i] != old(freeSlots[..stackTop])[stackTop];
      }
    }

    lemma {:induction false} FreeAreSlots()
      requires Valid()
      ensures FreeSet() <= Slots()
    {
    }

    /** A slot that is not free leaves room on the stack. */
    lemma {:induction false} RoomToRelease(o: Order)
      requires Valid() && o in storage && o !in FreeSet()
      ensures o.slot < |storage| && stackTop < |storage|
      ensures forall i | 0 <= i < stackTop :: freeSlots[i] != o.slot
    {
      var s := freeSlots[..stackTop] + [o.slot];
      forall i | 0 <= i < stackTop ensures freeSlots[i] != o.slot {
        assert storage[freeSlots[i]] in FreeSet();
      }
      Pigeonhole(s, |storage|);
    }

    method Release(o: Order)
      requires Valid() && o in storage && o !in FreeSet()
      modifies this, freeSlots
      ensures Valid() && FreeSet() == old(FreeSet()) + {o}
    {
      RoomToRelease(o);
      freeSlots[stackTop] := o.slot;
      stackTop := stackTop + 1;
      assert freeSlots[..stackTop] == old(freeSlots[..stackTop]) + [o.slot];
      forall p | p in old(FreeSet()) ensures p in FreeSet() {
        var i :| 0 <= i < old(stackTop) && p == storage[old(freeSlots[i])];
        assert freeSlots[i] == old(freeSlots[i]);
      }
      assert storage[freeSlots[stackTop - 1]] == o;
    }
  }
}
