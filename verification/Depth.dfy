/**
 * Quantity resting at a price, on the flat book and along the queue of a
 * price level.
 */
module Depth {
  import opened Types
  import opened PriceTime
  import opened PriceLevels
  import opened Tickets
  import opened OrderBooks
  import opened Allocation

  function QtyAt(orders: seq<OrderRec>, side: Side, price: Price): nat {
    if orders == [] then 0
    else
      var o := orders[|orders| - 1];
      QtyAt(orders[..|orders| - 1], side, price) + (if o.side == side && o.price == price then o.Remaining() else 0)
  }

  function QtyIn(orders: seq<OrderRec>, side: Side, prices: set<Price>): nat {
    if orders == [] then 0
    else
      var o := orders[|orders| - 1];
      QtyIn(orders[..|orders| - 1], side, prices) + (if o.side == side && o.price in prices then o.Remaining() else 0)
  }

  lemma {:induction false} QtyInNone(orders: seq<OrderRec>, side: Side)
    ensures QtyIn(orders, side, {}) == 0
  {
    if orders != [] {
      QtyInNone(orders[..|orders| - 1], side);
    }
  }

  lemma {:induction false} QtyInPlus(orders: seq<OrderRec>, side: Side, prices: set<Price>, p: Price)
    requires p !in prices
    ensures QtyIn(orders, side, prices + {p}) == QtyIn(orders, side, prices) + QtyAt(orders, side, p)
  {
    if orders != [] {
      QtyInPlus(orders[..|orders| - 1], side, prices, p);
    }
  }

  lemma {:induction false} LiquidityUnfolds(orders: seq<OrderRec>, taker: OrderRec)
    requires orders != []
    ensures Liquidity(orders, taker)
      == Liquidity(orders[..|orders| - 1], taker) + Offer(orders[|orders| - 1], taker)
  {
    var n := |orders| - 1;
    assert Offers(orders, taker)[..n] == Offers(orders[..n], taker);
  }

  /** Prices that all cross give at most the liquidity of the taker. */
  lemma {:induction false} QtyInAtMost(orders: seq<OrderRec>, taker: OrderRec, prices: set<Price>)
    requires forall p | p in prices :: Crosses(taker, p)
    ensures QtyIn(orders, Opposite(taker.side), prices) <= Liquidity(orders, taker)
  {
    if orders != [] {
      LiquidityUnfolds(orders, taker);
      QtyInAtMost(orders[..|orders| - 1], taker, prices);
    }
  }

  /** Exactly the crossing prices give exactly that liquidity. */
  lemma {:induction false} QtyInAll(orders: seq<OrderRec>, taker: OrderRec, prices: set<Price>)
    requires forall p | p in prices :: Crosses(taker, p)
    requires forall i |
      0 <= i < |orders| && orders[i].side == Opposite(taker.side) && Crosses(taker, orders[i].price) ::
               orders[i].price in prices
    ensures QtyIn(orders, Opposite(taker.side), prices) == Liquidity(orders, taker)
  {
    if orders != [] {
      LiquidityUnfolds(orders, taker);
      QtyInAll(orders[..|orders| - 1], taker, prices);
    }
  }

  /** The quantity along a queue of orders. */
  ghost function QueueQty(queue: seq<Order>): nat
    reads queue
  {
    if queue == [] then 0 else QueueQty(queue[..|queue| - 1]) + queue[|queue| - 1].data.Remaining()
  }

  lemma {:induction false} QueueQtyAppend(queue: seq<Order>, o: Order)
    ensures QueueQty(queue + [o]) == QueueQty(queue) + o.data.Remaining()
  {
    assert (queue + [o])[..|queue|] == queue;
  }

  lemma {:induction false} QueueQtyGrows(queue: seq<Order>, i: nat)
    requires i <= |queue|
    ensures QueueQty(queue[..i]) <= QueueQty(queue)
    decreases |queue| - i
  {
    if i < |queue| {
      assert queue[..i + 1] == queue[..i] + [queue[i]];
      QueueQtyAppend(queue[..i], queue[i]);
      QueueQtyGrows(queue, i + 1);
    } else {
      assert queue[..i] == queue;
    }
  }

  /** A queue carries what the flat list rests under its key. */
  lemma {:induction false} QueueIsQtyAt(tickets: seq<Ticket>, orders: seq<OrderRec>, side: Side, price: Price)
    requires |orders| == |tickets|
    requires forall i | 0 <= i < |tickets| :: orders[i] == tickets[i].order.data
    requires forall i | 0 <= i < |tickets| :: orders[i].side == tickets[i].side && orders[i].price == tickets[i].price
    ensures QueueQty(At(tickets, side, price)) == QtyAt(orders, side, price)
  {
    if tickets != [] {
      var n := |tickets| - 1;
      QueueIsQtyAt(tickets[..n], orders[..n], side, price);
      if HasKey(tickets[n], side, price) {
        QueueQtyAppend(At(tickets[..n], side, price), tickets[n].order);
      } else {
        assert At(tickets, side, price) == At(tickets[..n], side, price);
      }
    }
  }

  lemma {:induction false} OrdersAreFiled(book: OrderBook)
    requires book.Valid()
    ensures var orders := Orders(book.View());
      && (forall i | 0 <= i < |orders| :: orders[i] == book.tickets[i].order.data)
      && (forall i | 0 <= i < |orders| ::
            orders[i].side == book.tickets[i].side && orders[i].price == book.tickets[i].price)
  {
    forall i | 0 <= i < |book.tickets| ensures book.TicketOk(book.tickets[i]) {
    }
  }

  lemma {:induction false} LevelQty(book: OrderBook, side: Side, price: Price)
    requires book.Valid() && price in book.Levels(side)
    ensures QueueQty(book.Levels(side)[price].nodes) == QtyAt(Orders(book.View()), side, price)
  {
    OrdersAreFiled(book);
    assert book.LevelOk(side, price);
    QueueIsQtyAt(book.tickets, Orders(book.View()), side, price);
  }

  /** bid_qty_at and ask_qty_at: the sum along the level, in uint64 arithmetic. */
  method QuantityAt(book: OrderBook, side: Side, price: Price) returns (total: Quantity)
    requires book.Valid()
    ensures total == QtyAt(Orders(book.View()), side, price) % TWO_TO_64
  {
    hide book.Valid, book.View, QtyAt, At, Orders;
    total := 0;
    if price !in book.Levels(side) {
      NothingAt(book, side, price);
    } else {
      book.LevelFacts(side, price);
      LevelQty(book, side, price);
      ghost var nodes := book.Levels(side)[price].nodes;
      var cur := book.Levels(side)[price].head;
      ghost var i := 0;
      while cur != null
        invariant 0 <= i <= |nodes| && cur == (if i == |nodes| then null else nodes[i])
        invariant total == QueueQty(nodes[..i]) % TWO_TO_64
        invariant QueueQty(nodes) == QtyAt(Orders(book.View()), side, price)
        decreases |nodes| - i
      {
        assert Linked(nodes, i);
        assert nodes[..i + 1] == nodes[..i] + [nodes[i]];
        QueueQtyAppend(nodes[..i], nodes[i]);
        WrapAdd(QueueQty(nodes[..i]), cur.data.Remaining());
        total := (total + cur.data.Remaining()) % TWO_TO_64;
        cur := cur.levelNext;
        i := i + 1;
      }
      assert nodes[..i] == nodes;
    }
  }

  lemma {:induction false} WrapAdd(a: nat, b: nat)
    ensures (a % TWO_TO_64 + b) % TWO_TO_64 == (a + b) % TWO_TO_64
  {
    var q := a / TWO_TO_64;
    assert a + b == TWO_TO_64 * q + (a % TWO_TO_64 + b);
    var c := a % TWO_TO_64 + b;
    var d, r := c / TWO_TO_64, c % TWO_TO_64;
    assert a + b == TWO_TO_64 * (q + d) + r;
  }

  lemma {:induction false} NothingAt(book: OrderBook, side: Side, price: Price)
    requires book.Valid() && price !in book.Levels(side)
    ensures QtyAt(Orders(book.View()), side, price) == 0
  {
    OrdersAreFiled(book);
    book.QueueHasLevel(side, price);
    QueueIsQtyAt(book.tickets, Orders(book.View()), side, price);
  }
}
