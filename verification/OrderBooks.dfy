/**
 * The order book of one instrument (src/orderbook/orderbook.cpp): two ordered
 * maps from price to level, and an index from order id to its location.
 */
module OrderBooks {
  import opened Types
  import opened PriceTime
  import opened PriceLevels
  import opened Tickets

  /** p comes first among the keys, in the order of that side. */
  predicate IsFirst(side: Side, keys: set<Price>, p: Price) {
    p in keys && forall q | q in keys :: q == p || Better(side, p, q)
  }

  lemma {:induction false} FirstExists(side: Side, keys: set<Price>) returns (p: Price)
    requires keys != {}
    ensures IsFirst(side, keys, p)
  {
    var x :| x in keys;
    var rest := keys - {x};
    p := x;
    if rest != {} {
      var r := FirstExists(side, rest);
      if Better(side, r, x) {
        p := r;
      }
    }
    forall q | q in keys ensures q == p || Better(side, p, q) {
      assert q == x || q in rest;
    }
  }

  /** The first key of a std::map<Price, ..> in the order of that side. */
  function Begin(side: Side, keys: set<Price>): (p: Price)
    requires keys != {}
    ensures IsFirst(side, keys, p)
  {
    assert exists p :: IsFirst(side, keys, p) by {
      var p := FirstExists(side, keys);
    }
    FirstIsUnique(side, keys);
    var p :| p in keys && IsFirst(side, keys, p);
    p
  }

  lemma {:induction false} FirstIsUnique(side: Side, keys: set<Price>)
    ensures forall p, q | IsFirst(side, keys, p) && IsFirst(side, keys, q) :: p == q
  {
  }

  ghost predicate Indexed(index: map<OrderId, Locator>, t: Ticket) {
    t.id in index && index[t.id].order == t.order
  }

  /** Every index entry locates a resting order with that id. */
  ghost predicate IndexOk(index: map<OrderId, Locator>, tickets: seq<Ticket>) {
    forall id | id in index ::
      Ticket(index[id].order, index[id].side, index[id].price, id) in tickets
  }

  lemma {:induction false} IndexOkAdd(index: map<OrderId, Locator>, tickets: seq<Ticket>, t: Ticket)
    requires IndexOk(index, tickets)
    ensures IndexOk(index, tickets + [t])
    ensures IndexOk(index[t.id := Locator(t.side, t.price, t.order)], tickets + [t])
  {
    assert t in tickets + [t];
  }

  lemma {:induction false} IndexOkWithout(index: map<OrderId, Locator>, tickets: seq<Ticket>, k: nat)
    requires IndexOk(index, tickets) && k < |tickets|
    ensures IndexOk(index - {tickets[k].id}, Without(tickets, k))
  {
    forall id | id in index - {tickets[k].id}
      ensures Ticket(index[id].order, index[id].side, index[id].price, id) in Without(tickets, k)
    {
      var t := Ticket(index[id].order, index[id].side, index[id].price, id);
      var j :| 0 <= j < |tickets| && tickets[j] == t;
      assert Without(tickets, k)[if j < k then j else j - 1] == t;
    }
  }

  lemma {:induction false} OrdersInWithout(tickets: seq<Ticket>, k: nat)
    requires DistinctOrders(tickets) && k < |tickets|
    ensures OrdersIn(Without(tickets, k)) == OrdersIn(tickets) - {tickets[k].order}
  {
    forall o | o in OrdersIn(tickets) && o != tickets[k].order ensures o in OrdersIn(Without(tickets, k)) {
      var j :| 0 <= j < |tickets| && tickets[j].order == o;
      assert Without(tickets, k)[if j < k then j else j - 1] == tickets[j];
    }
  }

  /** The flat book that tickets and index stand for. */
  ghost function ViewOf(tickets: seq<Ticket>, index: map<OrderId, Locator>): (r: Book)
    reads OrdersIn(tickets)
    ensures |r| == |tickets|
    ensures forall i | 0 <= i < |tickets| :: r[i] == Resting(tickets[i].order.data, Indexed(index, tickets[i]))
  {
    if tickets == [] then []
    else
      var n := |tickets| - 1;
      ViewOf(tickets[..n], index) + [Resting(tickets[n].order.data, Indexed(index, tickets[n]))]
  }

  ghost function OrdersOf(queue: seq<Order>): set<Order> {
    set o | o in queue
  }

  lemma {:induction false} QueuesApart(tickets: seq<Ticket>, side: Side, price: Price, s: Side, p: Price)
    requires DistinctOrders(tickets) && (s != side || p != price)
    ensures OrdersOf(At(tickets, s, p)) <= OrdersIn(tickets) - OrdersOf(At(tickets, side, price))
  {
    forall n | n in At(tickets, s, p) ensures n !in At(tickets, side, price) {
      AtDisjoint(tickets, s, p, side, price, n);
    }
  }

  twostate predicate LevelSame(l: PriceLevel)
    reads l
  {
    unchanged(l)
  }

  /** None of these orders was relinked. */
  twostate predicate LinksKept(orders: set<Order>)
    reads orders
  {
    forall n | n in orders :: n.levelPrev == old(n.levelPrev) && n.levelNext == old(n.levelNext)
  }

  twostate predicate DataKept(orders: set<Order>)
    reads orders
  {
    forall n | n in orders :: n.data == old(n.data)
  }

  class OrderBook {
    const instrument: InstrumentId
    var bids: map<Price, PriceLevel>
    var asks: map<Price, PriceLevel>
    var orderMap: map<OrderId, Locator>
    ghost var tickets: seq<Ticket>

    function Levels(side: Side): map<Price, PriceLevel>
      reads this
    {
      if side == Buy then bids else asks
    }

    ghost function LevelSet(): set<PriceLevel>
      reads this
    {
      bids.Values + asks.Values
    }

    ghost function OrderSet(): set<Order>
      reads this
    {
      OrdersIn(tickets)
    }

    /** The level of a price is non-empty and queues exactly the orders of that key. */
    ghost predicate LevelOk(side: Side, price: Price)
      requires price in Levels(side)
      reads this, LevelSet(), OrderSet()
    {
      var level := Levels(side)[price];
      && level in LevelSet()
      && level.side == side && level.price == price
      && level.nodes == At(tickets, side, price)
      && level.nodes != []
      && level.Valid()
    }

    ghost predicate LevelsOk()
      reads this, LevelSet(), OrderSet()
    {
      forall s, p {:trigger LevelOk(s, p)} | p in Levels(s) :: LevelOk(s, p)
    }

    /** A ticket states the key fields of its order, and its level exists. */
    ghost predicate TicketOk(t: Ticket)
      reads this, t.order`data
    {
      && t.order.data.side == t.side
      && t.order.data.price == t.price
      && t.order.data.id == t.id
      && t.price in Levels(t.side)
    }

    ghost predicate TicketsOk()
      reads this, OrderSet()`data
    {
      forall t {:trigger TicketOk(t)} | t in tickets :: TicketOk(t)
    }

    ghost predicate Valid()
      reads this, LevelSet(), OrderSet()
    {
      && DistinctOrders(tickets)
      && IndexOk(orderMap, tickets)
      && TicketsOk()
      && LevelsOk()
    }

    ghost function View(): (r: Book)
      reads this, OrderSet()
      ensures |r| == |tickets|
    {
      ViewOf(tickets, orderMap)
    }

    lemma {:induction false} ViewAt(k: nat)
      requires k < |tickets|
      ensures View()[k].order == tickets[k].order.data
    {
    }

    constructor (instrument: InstrumentId)
      ensures Valid() && tickets == [] && this.instrument == instrument && orderMap == map[]
      ensures bids == map[] && asks == map[]
    {
      this.instrument := instrument;
      bids, asks, orderMap, tickets := map[], map[], map[], [];
    }

    /** A level whose object, nodes and queue are as before is still in order. */
    twostate lemma {:induction false} LevelKept(new side: Side, new price: Price)
      requires price in old(Levels(side)) && old(LevelOk(side, price))
      requires price in Levels(side) && Levels(side)[price] == old(Levels(side)[price])
      requires LevelSame(Levels(side)[price])
      requires LinksKept(OrdersOf(Levels(side)[price].nodes))
      requires At(tickets, side, price) == old(At(tickets, side, price))
      ensures LevelOk(side, price)
    {
      var level := Levels(side)[price];
      forall i | 0 <= i < |level.nodes| ensures Linked(level.nodes, i) {
        assert old(Linked(level.nodes, i));
      }
    }

    lemma {:induction false} LevelFacts(side: Side, price: Price)
      requires Valid() && price in Levels(side)
      ensures Levels(side)[price] in LevelSet()
      ensures Levels(side)[price].side == side && Levels(side)[price].price == price
      ensures Levels(side)[price].nodes == At(tickets, side, price) != []
      ensures Levels(side)[price].Valid()
    {
      assert LevelOk(side, price);
    }

    lemma {:induction false} QueueHasLevel(side: Side, price: Price)
      requires Valid()
      ensures At(tickets, side, price) != [] ==> price in Levels(side)
    {
      if At(tickets, side, price) != [] {
        var k := HeadOfQueue(tickets, side, price);
        assert TicketOk(tickets[k]);
      }
    }

    /** A level away from the key being worked on stays in order. */
    twostate lemma {:induction false} OtherLevelOk(new side: Side, new price: Price, new s: Side, new p: Price)
      requires old(Valid()) && (s != side || p != price)
      requires p in old(Levels(s)) && p in Levels(s) && Levels(s)[p] == old(Levels(s)[p])
      requires LevelSame(Levels(s)[p])
      requires LinksKept(old(OrderSet()) - OrdersOf(old(At(tickets, side, price))))
      requires At(tickets, s, p) == old(At(tickets, s, p))
      ensures LevelOk(s, p)
    {
      assert old(LevelOk(s, p));
      QueuesApart(old(tickets), side, price, s, p);
      LevelKept(s, p);
    }

    /** The order of ticket t was appended to the level of its key. */
    twostate predicate Appended(t: Ticket, new level: PriceLevel, levels: set<PriceLevel>, orders: set<Order>)
      reads this, level, level.nodes, levels, orders
    {
      && Levels(t.side) == old(Levels(t.side))[t.price := level]
      && Levels(Opposite(t.side)) == old(Levels(Opposite(t.side)))
      && level.Valid() && level.side == t.side && level.price == t.price
      && level.nodes == old(At(tickets, t.side, t.price)) + [t.order]
      && (forall l | l in levels && l != level :: LevelSame(l))
      && LinksKept(orders - OrdersOf(old(At(tickets, t.side, t.price))))
    }

    twostate lemma {:induction false} LevelsAfterAdd(t: Ticket, new level: PriceLevel, new s: Side, new p: Price)
      requires old(Valid()) && tickets == old(tickets) + [t] && p in Levels(s)
      requires Appended(t, level, old(LevelSet()), old(OrderSet()))
      ensures LevelOk(s, p)
    {
      hide TicketsOk, IndexOk;
      AtConcat(old(tickets), [t], s, p);
      AtOne(t, s, p);
      if s != t.side || p != t.price {
        assert old(LevelOk(s, p));
        OtherLevelOk(t.side, t.price, s, p);
      }
    }

    twostate lemma {:induction false} TicketsAfterAdd(t: Ticket, new level: PriceLevel)
      requires old(TicketsOk()) && tickets == old(tickets) + [t] && DataKept(old(OrderSet()))
      requires t.order.data.side == t.side && t.order.data.price == t.price && t.order.data.id == t.id
      requires Appended(t, level, old(LevelSet()), old(OrderSet()))
      ensures TicketsOk()
    {
      hide At;
      forall u | u in tickets ensures TicketOk(u) {
        assert u != t ==> u in old(tickets) && old(TicketOk(u));
      }
    }

    twostate lemma {:induction false} ValidAfterAdd(t: Ticket, new level: PriceLevel)
      requires old(Valid()) && t.order !in old(OrderSet()) && tickets == old(tickets) + [t]
      requires DataKept(old(OrderSet()))
      requires t.order.data.side == t.side && t.order.data.price == t.price && t.order.data.id == t.id
      requires orderMap == old(orderMap) || orderMap == old(orderMap)[t.id := Locator(t.side, t.price, t.order)]
      requires Appended(t, level, old(LevelSet()), old(OrderSet()))
      ensures Valid()
    {
      IndexOkAdd(old(orderMap), old(tickets), t);
      TicketsAfterAdd(t, level);
      hide LevelOk, At, IndexOk, Appended, TicketsOk;
      forall s, p | p in Levels(s) ensures LevelOk(s, p) {
        LevelsAfterAdd(t, level, s, p);
      }
    }

    /** The flags of the flat book say which ids the index holds. */
    lemma {:induction false} IndexedIffInMap(id: OrderId)
      requires Valid()
      ensures IdIndexed(View(), id) <==> id in orderMap
    {
      hide LevelsOk, At;
      if id in orderMap {
        var k := IndexFacts(id);
        assert TicketOk(tickets[k]);
        assert View()[k].indexed && View()[k].order.id == id;
      }
      if IdIndexed(View(), id) {
        var i :| 0 <= i < |tickets| && View()[i].indexed && View()[i].order.id == id;
        assert TicketOk(tickets[i]);
      }
    }

    twostate lemma {:induction false} ViewAfterAdd(o: Order)
      requires old(Valid()) && DataKept(old(OrderSet())) && o !in old(OrderSet())
      requires IdIndexed(old(View()), o.data.id) <==> o.data.id in old(orderMap)
      requires tickets == old(tickets) + [Ticket(o, o.data.side, o.data.price, o.data.id)]
      requires orderMap == (if o.data.id in old(orderMap) then old(orderMap)
                            else old(orderMap)[o.data.id := Locator(o.data.side, o.data.price, o)])
      ensures View() == Add(old(View()), o.data)
    {
      hide LevelsOk, At, IdIndexed;
      forall j | 0 <= j < |tickets| ensures View()[j] == Add(old(View()), o.data)[j] {
        assert j < |old(tickets)| ==> tickets[j] == old(tickets)[j] && old(tickets)[j] in old(tickets);
      }
    }

    /**
     * Files an order in the maps: operator[] makes the level of its price if
     * absent, and emplace leaves an id that is already indexed alone.
     */
    method FileOrder(o: Order) returns (level: PriceLevel)
      requires Valid()
      modifies this
      ensures tickets == old(tickets) + [Ticket(o, o.data.side, o.data.price, o.data.id)]
      ensures orderMap == (if o.data.id in old(orderMap) then old(orderMap)
                           else old(orderMap)[o.data.id := Locator(o.data.side, o.data.price, o)])
      ensures Levels(o.data.side) == old(Levels(o.data.side))[o.data.price := level]
      ensures Levels(Opposite(o.data.side)) == old(Levels(Opposite(o.data.side)))
      ensures level in old(LevelSet()) || fresh(level)
      ensures fresh(LevelSet() - old(LevelSet()))
      ensures level.Valid() && level.side == o.data.side && level.price == o.data.price
      ensures level.nodes == old(At(tickets, o.data.side, o.data.price))
    {
      hide Valid, At, LevelOk, PriceLevel.Valid;
      var side, price, id := o.data.side, o.data.price, o.data.id;
      if price in Levels(side) {
        LevelFacts(side, price);
        level := Levels(side)[price];
      } else {
        QueueHasLevel(side, price);
        level := new PriceLevel(side, price);
        if side == Buy {
          bids := bids[price := level];
        } else {
          asks := asks[price := level];
        }
      }
      orderMap := if id in orderMap then orderMap else orderMap[id := Locator(side, price, o)];
      tickets := tickets + [Ticket(o, side, price, id)];
    }

    method AddResting(o: Order)
      requires Valid() && o !in OrderSet()
      modifies this, LevelSet(), o`levelPrev, o`levelNext, OrderSet()`levelNext
      ensures Valid() && fresh(LevelSet() - old(LevelSet()))
      ensures tickets == old(tickets) + [Ticket(o, o.data.side, o.data.price, o.data.id)]
      ensures View() == Add(old(View()), o.data)
    {
      hide Valid, At, View;
      IndexedIffInMap(o.data.id);
      var level := FileOrder(o);
      level.PushBack(o);
      ValidAfterAdd(Ticket(o, o.data.side, o.data.price, o.data.id), level);
      ViewAfterAdd(o);
    }

    // ---- Changing the data of a resting order -------------------------------

    /** Only the data of order o changed, and not the fields it is filed under. */
    twostate predicate OnlyDataOf(o: Order, levels: set<PriceLevel>, orders: set<Order>)
      reads this, levels, orders, o
    {
      && unchanged(this) && LinksKept(orders) && DataKept(orders - {o})
      && (forall l | l in levels :: unchanged(l))
      && o.data.side == old(o.data.side) && o.data.price == old(o.data.price) && o.data.id == old(o.data.id)
    }

    twostate lemma {:induction false} LevelsAfterFill(o: Order)
      requires old(Valid()) && OnlyDataOf(o, old(LevelSet()), old(OrderSet()))
      ensures LevelsOk()
    {
      forall s, p | p in Levels(s) ensures LevelOk(s, p) {
        assert old(LevelOk(s, p));
        LevelKept(s, p);
      }
    }

    twostate lemma {:induction false} TicketsAfterFill(o: Order)
      requires old(Valid()) && OnlyDataOf(o, old(LevelSet()), old(OrderSet()))
      ensures TicketsOk()
    {
      hide LevelsOk, At;
      forall t | t in tickets ensures TicketOk(t) {
        assert old(TicketOk(t));
      }
    }

    twostate lemma {:induction false} ValidAfterFill(k: nat)
      requires old(Valid()) && k < |old(tickets)|
      requires OnlyDataOf(old(tickets[k].order), old(LevelSet()), old(OrderSet()))
      ensures Valid()
      ensures View() == old(View())[k := Resting(tickets[k].order.data, old(View())[k].indexed)]
    {
      hide LevelsOk, TicketsOk, At;
      LevelsAfterFill(old(tickets[k].order));
      TicketsAfterFill(old(tickets[k].order));
      forall j | 0 <= j < |tickets| && j != k ensures View()[j] == old(View()[j]) {
        assert tickets[j] in tickets && tickets[j].order != tickets[k].order;
      }
    }

    // ---- Taking an order off the book ---------------------------------------

    twostate lemma {:induction false} ViewAfterRemove(k: nat)
      requires old(Valid()) && k < |old(tickets)| && tickets == Without(old(tickets), k)
      requires DataKept(old(OrderSet()))
      requires orderMap == old(orderMap) - {old(tickets)[k].id}
      ensures View() == RemoveAt(old(View()), k)
    {
      hide LevelsOk, At, RemoveAt;
      assert old(TicketOk(tickets[k]));
      RemoveAtElements(old(View()), k);
      forall j | 0 <= j < |tickets| ensures View()[j] == RemoveAt(old(View()), k)[j] {
        ghost var i := if j < k then j else j + 1;
        assert tickets[j] == old(tickets[i]) && old(tickets[i] in tickets && TicketOk(tickets[i]));
      }
    }

    /** The order of ticket k was unlinked from its level, and an empty level dropped. */
    twostate predicate Unlinked(k: nat, level: PriceLevel, levels: set<PriceLevel>, orders: set<Order>)
      requires k < |old(tickets)|
      reads this, level, level.nodes, levels, orders
    {
      var t := old(tickets)[k];
      && t.price in old(Levels(t.side)) && level == old(Levels(t.side)[t.price])
      && level.Valid() && Rank(old(tickets), k) < |old(level.nodes)|
      && level.nodes == Without(old(level.nodes), Rank(old(tickets), k))
      && Levels(t.side) == (if level.nodes == [] then old(Levels(t.side)) - {t.price} else old(Levels(t.side)))
      && Levels(Opposite(t.side)) == old(Levels(Opposite(t.side)))
      && LinksKept(orders - OrdersOf(old(At(tickets, t.side, t.price))))
      && forall l | l in levels && l != level :: unchanged(l)
    }

    twostate lemma {:induction false} LevelsAfterRemove(new k: nat, level: PriceLevel, new s: Side, new p: Price)
      requires old(Valid()) && k < |old(tickets)| && tickets == Without(old(tickets), k)
      requires p in Levels(s) && Unlinked(k, level, old(LevelSet()), old(OrderSet()))
      ensures LevelOk(s, p)
    {
      ghost var t := old(tickets)[k];
      AtWithout(old(tickets), k, s, p);
      assert old(LevelOk(t.side, t.price)) && old(LevelOk(s, p));
      if s != t.side || p != t.price {
        OtherLevelOk(t.side, t.price, s, p);
      }
    }

    twostate lemma {:induction false} TicketAfterRemove(new k: nat, level: PriceLevel, new j: nat)
      requires old(Valid()) && k < |old(tickets)| && tickets == Without(old(tickets), k)
      requires j < |tickets| && Unlinked(k, level, old(LevelSet()), old(OrderSet())) && DataKept(old(OrderSet()))
      ensures TicketOk(tickets[j])
    {
      ghost var t, u := old(tickets)[k], tickets[j];
      assert u in old(tickets) && old(TicketOk(u));
      if u.side == t.side && u.price == t.price {
        assert old(LevelOk(t.side, t.price));
        AtWithout(old(tickets), k, t.side, t.price);
        AtHas(tickets, j);
      }
    }

    twostate lemma {:induction false} ValidAfterRemove(new k: nat, level: PriceLevel)
      requires old(Valid()) && k < |old(tickets)| && tickets == Without(old(tickets), k)
      requires Unlinked(k, level, old(LevelSet()), old(OrderSet())) && DataKept(old(OrderSet()))
      requires orderMap == old(orderMap) - {old(tickets)[k].id}
      ensures Valid()
    {
      hide LevelOk, TicketOk, Unlinked, At;
      forall u | u in tickets ensures TicketOk(u) {
        var j :| 0 <= j < |tickets| && tickets[j] == u;
        TicketAfterRemove(k, level, j);
      }
      forall s, p | p in Levels(s) ensures LevelOk(s, p) {
        LevelsAfterRemove(k, level, s, p);
      }
      IndexOkWithout(old(orderMap), old(tickets), k);
    }

    method DropLevel(side: Side, price: Price)
      modifies this`bids, this`asks
      ensures Levels(side) == old(Levels(side)) - {price}
      ensures Levels(Opposite(side)) == old(Levels(Opposite(side)))
    {
      if side == Buy {
        bids := bids - {price};
      } else {
        asks := asks - {price};
      }
    }

    lemma {:induction false} TicketFacts(k: nat)
      requires Valid() && k < |tickets|
      ensures tickets[k].price in Levels(tickets[k].side)
      ensures tickets[k].order.data.side == tickets[k].side && tickets[k].order.data.price == tickets[k].price
      ensures tickets[k].order.data.id == tickets[k].id
      ensures ghost var level := Levels(tickets[k].side)[tickets[k].price];
        && level in LevelSet()
        && level.Valid() && level.nodes == At(tickets, tickets[k].side, tickets[k].price)
        && Rank(tickets, k) < |level.nodes| && level.nodes[Rank(tickets, k)] == tickets[k].order
    {
      assert TicketOk(tickets[k]);
      assert LevelOk(tickets[k].side, tickets[k].price);
      AtHas(tickets, k);
    }

    lemma {:induction false} TicketsDistinct()
      requires Valid()
      ensures DistinctOrders(tickets)
    {
    }

    lemma {:induction false} IndexFacts(id: OrderId) returns (k: nat)
      requires Valid() && id in orderMap
      ensures k < |tickets| && tickets[k] == Ticket(orderMap[id].order, orderMap[id].side, orderMap[id].price, id)
    {
      k :| 0 <= k < |tickets| && tickets[k] == Ticket(orderMap[id].order, orderMap[id].side, orderMap[id].price, id);
    }

    lemma {:induction false} IndexedAtIs(id: OrderId, k: nat)
      requires Valid() && id in orderMap && k < |tickets|
      requires tickets[k] == Ticket(orderMap[id].order, orderMap[id].side, orderMap[id].price, id)
      ensures IndexedAt(View(), id) == k
    {
      hide LevelsOk, At;
      var j := IndexedAt(View(), id);
      assert TicketOk(tickets[k]);
      assert View()[k].indexed && View()[k].order.id == id;
      assert TicketOk(tickets[j]);
    }

    /** Erases an order from its level, and the level from its map once empty. */
    method Unlink(o: Order, level: PriceLevel, ghost k: nat)
      requires Valid() && k < |tickets| && tickets[k].order == o
      requires tickets[k].price in Levels(tickets[k].side) && level == Levels(tickets[k].side)[tickets[k].price]
      modifies this`bids, this`asks, LevelSet(), OrderSet()`levelPrev, OrderSet()`levelNext
      ensures Unlinked(k, level, old(LevelSet()), old(OrderSet()))
      ensures LevelSet() <= old(LevelSet())
    {
      hide Valid, LevelOk, At, Rank, PriceLevel.Valid;
      TicketFacts(k);
      level.Erase(o, Rank(tickets, k));
      if level.Empty() {
        DropLevel(o.data.side, o.data.price);
      }
    }

    method CancelAndGet(id: OrderId) returns (o: Order?)
      requires Valid()
      modifies this, LevelSet(), OrderSet()`levelPrev, OrderSet()`levelNext
      ensures Valid() && LevelSet() <= old(LevelSet())
      ensures View() == NaiveCancel(old(View()), id)
      ensures o == null <==> !IdIndexed(old(View()), id)
      ensures o != null ==> o in old(OrderSet()) && o.data.id == id && OrderSet() == old(OrderSet()) - {o}
      ensures o == null ==> OrderSet() == old(OrderSet())
    {
      hide Valid, LevelOk, At, Rank, PriceLevel.Valid, View;
      IndexedIffInMap(id);
      if id !in orderMap {
        return null;
      }
      var loc := orderMap[id];
      ghost var k := IndexFacts(id);
      IndexedAtIs(id, k);
      TicketFacts(k);
      TicketsDistinct();
      Unlink(loc.order, Levels(loc.side)[loc.price], k);
      orderMap := orderMap - {id};
      tickets := Without(tickets, k);
      ValidAfterRemove(k, old(Levels(loc.side)[loc.price]));
      ViewAfterRemove(k);
      OrdersInWithout(old(tickets), k);
      return loc.order;
    }

    // ---- The top of a side --------------------------------------------------

    lemma {:induction false} ViewOfTop(side: Side, k: nat)
      requires TicketsOk() && TopTicket(tickets, side, k)
      ensures TopIndex(View(), side) == k
    {
      forall j | 0 <= j < |tickets|
        ensures View()[j].order.side == tickets[j].side && View()[j].order.price == tickets[j].price
      {
        assert TicketOk(tickets[j]);
      }
      TopIsUnique(View(), side, k);
    }

    /** The head of the first level is the top of the flat book. */
    lemma {:induction false} FirstHeadIsTop(side: Side) returns (k: nat)
      requires Valid() && Levels(side) != map[]
      ensures k < |tickets| && TopIndex(View(), side) == k
      ensures tickets[k].side == side && tickets[k].price == Begin(side, Levels(side).Keys)
      ensures tickets[k].order == Levels(side)[tickets[k].price].head
      ensures Rank(tickets, k) == 0
    {
      var p := Begin(side, Levels(side).Keys);
      assert LevelOk(side, p);
      k := HeadOfQueue(tickets, side, p);
      forall j | 0 <= j < |tickets| && tickets[j].side == side
        ensures Better(side, p, tickets[j].price) || (p == tickets[j].price && k <= j)
      {
        assert TicketOk(tickets[j]);
      }
      ViewOfTop(side, k);
    }

    lemma {:induction false} TopHasLevel(side: Side)
      requires Valid()
      ensures TopIndex(View(), side) >= 0 ==> Levels(side) != map[]
    {
      var k := TopIndex(View(), side);
      if k >= 0 {
        assert TicketOk(tickets[k]);
      }
    }

    method PeekTop(side: Side) returns (o: Order?)
      requires Valid()
      ensures o == null <==> TopIndex(View(), side) < 0
      ensures o != null ==> o == tickets[TopIndex(View(), side)].order
    {
      hide Valid, LevelOk, At, Rank, View, TopIndex;
      if Levels(side) == map[] {
        TopHasLevel(side);
        return null;
      }
      ghost var k := FirstHeadIsTop(side);
      return Levels(side)[Begin(side, Levels(side).Keys)].head;
    }

    /** Pops the front of a level, and drops the level from its map once empty. */
    method UnlinkFront(level: PriceLevel, ghost k: nat)
      requires Valid() && k < |tickets| && Rank(tickets, k) == 0
      requires tickets[k].price in Levels(tickets[k].side) && level == Levels(tickets[k].side)[tickets[k].price]
      modifies this`bids, this`asks, LevelSet(), OrderSet()`levelPrev, OrderSet()`levelNext
      ensures Unlinked(k, level, old(LevelSet()), old(OrderSet()))
      ensures LevelSet() <= old(LevelSet())
    {
      hide Valid, LevelOk, At, Rank, PriceLevel.Valid;
      TicketFacts(k);
      var side, price := level.head.data.side, level.head.data.price;
      level.PopFront();
      if level.Empty() {
        DropLevel(side, price);
      }
    }

    method PopTop(side: Side)
      requires Valid() && Levels(side) != map[]
      modifies this, LevelSet(), OrderSet()`levelPrev, OrderSet()`levelNext
      ensures Valid() && LevelSet() <= old(LevelSet())
      ensures TopIndex(old(View()), side) >= 0
      ensures View() == RemoveAt(old(View()), TopIndex(old(View()), side))
      ensures OrderSet() == old(OrderSet()) - {old(tickets[TopIndex(View(), side)].order)}
    {
      hide Valid, LevelOk, At, Rank, PriceLevel.Valid, View, TopIndex;
      ghost var k := FirstHeadIsTop(side);
      var level := Levels(side)[Begin(side, Levels(side).Keys)];
      TicketFacts(k);
      TicketsDistinct();
      var id := level.head.data.id;
      UnlinkFront(level, k);
      orderMap := orderMap - {id};
      tickets := Without(tickets, k);
      ValidAfterRemove(k, level);
      ViewAfterRemove(k);
      OrdersInWithout(old(tickets), k);
    }

    /** The end of clear_and_drain. */
    method Clear()
      modifies this
      ensures Valid() && tickets == [] && View() == [] && LevelSet() == {} && OrderSet() == {}
    {
      bids, asks, orderMap, tickets := map[], map[], map[], [];
    }
  }
}
