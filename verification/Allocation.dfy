/**
 * What price-time priority gives to each resting order, in closed form, and
 * the facts about matching that follow: the look-ahead used by fill-or-kill
 * orders is exact, and a sweep takes prices in order and consumes every maker
 * but the last.
 */
module Allocation {
  import opened Types
  import opened PriceTime
  import opened Sums

  predicate LiveOrders(orders: seq<OrderRec>) {
    forall i | 0 <= i < |orders| :: orders[i].filled < orders[i].initial
  }

  // ---- Liquidity ------------------------------------------------------------

  /** Per order: what it offers to the taker. */
  function Offer(o: OrderRec, taker: OrderRec): nat {
    if o.side == Opposite(taker.side) && Crosses(taker, o.price) then o.Remaining() else 0
  }

  function Offers(orders: seq<OrderRec>, taker: OrderRec): (ws: seq<nat>)
    ensures |ws| == |orders|
    ensures forall i | 0 <= i < |orders| :: ws[i] == Offer(orders[i], taker)
  {
    if orders == [] then []
    else Offers(orders[..|orders| - 1], taker) + [Offer(orders[|orders| - 1], taker)]
  }

  /** Everything on the opposite side that crosses the taker. */
  function Liquidity(orders: seq<OrderRec>, taker: OrderRec): nat {
    Sum(Offers(orders, taker))
  }

  /** Order j goes before order i in price-time priority. */
  predicate Before(orders: seq<OrderRec>, j: nat, i: nat)
    requires j < |orders| && i < |orders|
  {
    && orders[j].side == orders[i].side
    && (|| Better(orders[i].side, orders[j].price, orders[i].price)
        || (orders[j].price == orders[i].price && j < i))
  }

  function AheadOffer(orders: seq<OrderRec>, j: nat, i: nat): nat
    requires j < |orders| && i < |orders|
  {
    if Before(orders, j, i) then orders[j].Remaining() else 0
  }

  /** The quantity queued before order i among the first n orders. */
  function AheadWithin(orders: seq<OrderRec>, i: nat, n: nat): nat
    requires i < |orders| && n <= |orders|
  {
    if n == 0 then 0 else AheadWithin(orders, i, n - 1) + AheadOffer(orders, n - 1, i)
  }

  function Ahead(orders: seq<OrderRec>, i: nat): nat
    requires i < |orders|
  {
    AheadWithin(orders, i, |orders|)
  }

  /** What the taker takes from order i: its queue position decides, nothing else. */
  function Allocated(orders: seq<OrderRec>, taker: OrderRec, i: nat): (q: nat)
    requires i < |orders|
    ensures q <= orders[i].Remaining()
  {
    var need := taker.Remaining();
    if orders[i].side != Opposite(taker.side) || !Crosses(taker, orders[i].price) then 0
    else if need <= Ahead(orders, i) then 0
    else Min(need - Ahead(orders, i), orders[i].Remaining())
  }

  function Fill(o: OrderRec, q: nat): OrderRec
    requires o.filled <= o.initial && q <= o.Remaining()
  {
    if q == 0 then o else o.(filled := o.filled + q, status := PartiallyFilled)
  }

  /** What is left of order i after its allocation: nothing when it is exhausted. */
  function Left(orders: seq<OrderRec>, taker: OrderRec, i: nat): seq<OrderRec>
    requires i < |orders| && LiveOrders(orders)
  {
    var o := Fill(orders[i], Allocated(orders, taker, i));
    if o.IsFullyFilled() then [] else [o]
  }

  /** The first n orders after every order got its allocation. */
  function Residual(orders: seq<OrderRec>, taker: OrderRec, n: nat): seq<OrderRec>
    requires n <= |orders| && LiveOrders(orders)
  {
    if n == 0 then [] else Residual(orders, taker, n - 1) + Left(orders, taker, n - 1)
  }

  // ---- One step -------------------------------------------------------------

  lemma {:induction false} OrdersOfRemoveAt(book: Book, k: nat)
    requires k < |book|
    ensures Orders(RemoveAt(book, k)) == Without(Orders(book), k)
  {
  }

  /** Order k leads its side, in terms of the priority relation. */
  predicate Leads(orders: seq<OrderRec>, side: Side, k: nat) {
    && k < |orders| && orders[k].side == side
    && forall j | 0 <= j < |orders| && orders[j].side == side :: j == k || Before(orders, k, j)
  }

  /** Order k leads the side opposite to a taker that still wants some and crosses it. */
  predicate NextMaker(orders: seq<OrderRec>, taker: OrderRec, k: nat) {
    && LiveOrders(orders)
    && taker.filled < taker.initial
    && Leads(orders, Opposite(taker.side), k)
    && Crosses(taker, orders[k].price)
  }

  lemma {:induction false} TopIsNextMaker(book: Book, taker: OrderRec)
    requires Live(book) && taker.filled <= taker.initial && CanTrade(book, taker)
    ensures TopIndex(book, Opposite(taker.side)) >= 0
    ensures NextMaker(Orders(book), taker, TopIndex(book, Opposite(taker.side)))
  {
  }

  lemma {:induction false} AheadOfLeader(orders: seq<OrderRec>, side: Side, k: nat, n: nat)
    requires Leads(orders, side, k) && n <= |orders|
    ensures AheadWithin(orders, k, n) == 0
  {
    if n != 0 {
      AheadOfLeader(orders, side, k, n - 1);
    }
  }

  lemma {:induction false} LeaderIsAhead(orders: seq<OrderRec>, side: Side, k: nat, i: nat, n: nat)
    requires Leads(orders, side, k) && i < |orders| && orders[i].side == side && i != k
    requires k < n <= |orders|
    ensures AheadWithin(orders, i, n) >= orders[k].Remaining()
  {
    if n - 1 != k {
      LeaderIsAhead(orders, side, k, i, n - 1);
    }
  }

  lemma {:induction false} AllocatedToLeader(orders: seq<OrderRec>, taker: OrderRec, k: nat)
    requires NextMaker(orders, taker, k)
    ensures Allocated(orders, taker, k) == Min(taker.Remaining(), orders[k].Remaining())
  {
    AheadOfLeader(orders, Opposite(taker.side), k, |orders|);
  }

  /** Positions after taking order k out. */
  function Shift(i: nat, k: nat): nat
    requires i != k
  {
    if i < k then i else i - 1
  }

  lemma {:induction false} AheadWithout(orders: seq<OrderRec>, k: nat, i: nat, n: nat)
    requires k < |orders| && i < |orders| && i != k && n <= |orders|
    ensures AheadWithin(orders, i, n)
      == AheadWithin(Without(orders, k), Shift(i, k), if n <= k then n else n - 1)
       + (if k < n then AheadOffer(orders, k, i) else 0)
  {
    if n != 0 {
      AheadWithout(orders, k, i, n - 1);
    }
  }

  /** A consumed maker: everyone behind it keeps the same allocation. */
  lemma {:induction false} AllocatedAfterRemoval(
      orders: seq<OrderRec>, taker: OrderRec, taker': OrderRec, k: nat, i: nat)
    requires NextMaker(orders, taker, k) && i < |orders| && i != k
    requires orders[k].Remaining() <= taker.Remaining()
    requires taker' == taker.(filled := taker.filled + orders[k].Remaining())
    ensures Allocated(orders, taker, i) == Allocated(Without(orders, k), taker', Shift(i, k))
  {
    AheadWithout(orders, k, i, |orders|);
  }

  lemma {:induction false} LiveWithout(orders: seq<OrderRec>, k: nat)
    requires LiveOrders(orders) && k < |orders|
    ensures LiveOrders(Without(orders, k))
    ensures forall i | 0 <= i < |orders| && i != k :: Without(orders, k)[Shift(i, k)] == orders[i]
  {
  }

  lemma {:induction false} LeftAfterRemoval(
      orders: seq<OrderRec>, taker: OrderRec, taker': OrderRec, k: nat, i: nat)
    requires NextMaker(orders, taker, k) && i < |orders| && LiveOrders(Without(orders, k))
    requires orders[k].Remaining() <= taker.Remaining()
    requires taker' == taker.(filled := taker.filled + orders[k].Remaining())
    ensures Left(orders, taker, i) == if i == k then [] else Left(Without(orders, k), taker', Shift(i, k))
  {
    LiveWithout(orders, k);
    hide Allocated, Leads, Crosses, Without;
    if i == k {
      AllocatedToLeader(orders, taker, k);
    } else {
      AllocatedAfterRemoval(orders, taker, taker', k, i);
    }
  }

  lemma {:induction false} ResidualAfterRemoval(
      orders: seq<OrderRec>, taker: OrderRec, taker': OrderRec, k: nat, n: nat)
    requires NextMaker(orders, taker, k) && n <= |orders|
    requires orders[k].Remaining() <= taker.Remaining()
    requires taker' == taker.(filled := taker.filled + orders[k].Remaining())
    ensures LiveOrders(Without(orders, k))
    ensures Residual(orders, taker, n) == Residual(Without(orders, k), taker', if n <= k then n else n - 1)
  {
    hide Left, Crosses, LiveOrders;
    LiveWithout(orders, k);
    if n != 0 {
      ResidualAfterRemoval(orders, taker, taker', k, n - 1);
      LeftAfterRemoval(orders, taker, taker', k, n - 1);
    }
  }

  lemma {:induction false} ResidualUntouched(orders: seq<OrderRec>, taker: OrderRec, n: nat)
    requires LiveOrders(orders) && n <= |orders|
    requires forall i | 0 <= i < n :: Allocated(orders, taker, i) == 0
    ensures Residual(orders, taker, n) == orders[..n]
  {
    if n != 0 {
      ResidualUntouched(orders, taker, n - 1);
    }
  }

  /** A maker that outlasts the taker: nobody behind it gets anything. */
  lemma {:induction false} ResidualAfterLast(orders: seq<OrderRec>, taker: OrderRec, k: nat, n: nat)
    requires NextMaker(orders, taker, k) && n <= |orders|
    requires taker.Remaining() < orders[k].Remaining()
    ensures Residual(orders, taker, n) == orders[k := Fill(orders[k], taker.Remaining())][..n]
  {
    if n != 0 {
      ResidualAfterLast(orders, taker, k, n - 1);
      if n - 1 == k {
        AllocatedToLeader(orders, taker, k);
      } else if orders[n - 1].side == Opposite(taker.side) {
        LeaderIsAhead(orders, Opposite(taker.side), k, n - 1, |orders|);
      }
    }
  }

  lemma {:induction false} NothingAllocated(book: Book, taker: OrderRec)
    requires Live(book) && taker.filled <= taker.initial && !CanTrade(book, taker)
    ensures forall i | 0 <= i < |book| :: Allocated(Orders(book), taker, i) == 0
  {
    forall i | 0 <= i < |book| ensures Allocated(Orders(book), taker, i) == 0 {
      var k := TopIndex(book, Opposite(taker.side));
      if k < 0 {
        assert book[i].order.side != Opposite(taker.side);
      }
    }
  }

  lemma {:induction false} OrdersOfUpdate(book: Book, k: nat, r: Resting)
    requires k < |book|
    ensures Orders(book[k := r]) == Orders(book)[k := r.order]
  {
  }

  lemma {:induction false} OrdersOfStep(book: Book, taker: OrderRec)
    requires Live(book) && taker.filled <= taker.initial && CanTrade(book, taker)
    ensures LiveOrders(Orders(book)) && LiveOrders(Orders(StepBook(book, taker)))
    ensures var k, orders := TopIndex(book, Opposite(taker.side)), Orders(book);
      Orders(StepBook(book, taker))
      == if orders[k].Remaining() <= taker.Remaining() then Without(orders, k)
         else orders[k := Fill(orders[k], taker.Remaining())]
  {
    hide TopIndex, Orders, RemoveAt, Without, Crosses;
    var k := TopIndex(book, Opposite(taker.side));
    var fill := StepFill(book, taker);
    OrdersOfRemoveAt(book, k);
    var maker := book[k].order.(filled := book[k].order.filled + fill, status := PartiallyFilled);
    OrdersOfUpdate(book, k, Resting(maker, book[k].indexed));
  }

  /** A taker that wants nothing gets nothing. */
  lemma {:induction false} NothingForSated(orders: seq<OrderRec>, taker: OrderRec)
    requires taker.Remaining() == 0
    ensures forall i | 0 <= i < |orders| :: Allocated(orders, taker, i) == 0
  {
  }

  /** One step of the matcher does not change where the allocation leads. */
  lemma {:induction false} ResidualAfterStep(orders: seq<OrderRec>, taker: OrderRec, taker': OrderRec, k: nat)
    requires NextMaker(orders, taker, k)
    requires taker' == taker.(filled := taker.filled + Min(taker.Remaining(), orders[k].Remaining()))
    ensures LiveOrders(orders)
    ensures orders[k].Remaining() <= taker.Remaining() ==>
      && LiveOrders(Without(orders, k))
      && Residual(orders, taker, |orders|) == Residual(Without(orders, k), taker', |orders| - 1)
    ensures taker.Remaining() < orders[k].Remaining() ==>
      var orders' := orders[k := Fill(orders[k], taker.Remaining())];
      && LiveOrders(orders')
      && Residual(orders, taker, |orders|) == Residual(orders', taker', |orders|)
  {
    hide Residual, Allocated, Crosses;
    if orders[k].Remaining() <= taker.Remaining() {
      ResidualAfterRemoval(orders, taker, taker', k, |orders|);
    } else {
      var orders' := orders[k := Fill(orders[k], taker.Remaining())];
      ResidualAfterLast(orders, taker, k, |orders|);
      NothingForSated(orders', taker');
      ResidualUntouched(orders', taker', |orders|);
      assert orders'[..|orders|] == orders';
    }
  }

  lemma {:induction false} MatchUnfolds(book: Book, taker: OrderRec)
    requires Live(book) && taker.filled <= taker.initial
    ensures NaiveMatch(book, taker).book
      == if CanTrade(book, taker) then NaiveMatch(StepBook(book, taker), StepTaker(book, taker)).book else book
  {
  }

  /**
   * The naive matcher gives every resting order exactly its price-time
   * allocation: the residual book is the old book, in the same arrival order,
   * with each order filled by the part of the taker that reaches it.
   */
  lemma {:induction false} MatchAllocatesByPriority(book: Book, taker: OrderRec)
    requires Live(book) && taker.filled <= taker.initial
    ensures LiveOrders(Orders(book))
    ensures Orders(NaiveMatch(book, taker).book) == Residual(Orders(book), taker, |book|)
    decreases taker.Remaining()
  {
    hide NaiveMatch, Residual, StepBook, CanTrade, Fill, NextMaker;
    MatchUnfolds(book, taker);
    if !CanTrade(book, taker) {
      NothingAllocated(book, taker);
      ResidualUntouched(Orders(book), taker, |book|);
      assert Orders(book)[..|book|] == Orders(book);
    } else {
      MatchAllocatesByPriority(StepBook(book, taker), StepTaker(book, taker));
      OrdersOfStep(book, taker);
      TopIsNextMaker(book, taker);
      ResidualAfterStep(Orders(book), taker, StepTaker(book, taker), TopIndex(book, Opposite(taker.side)));
    }
  }

  // ---- The look-ahead -------------------------------------------------------

  lemma {:induction false} LiquidityWithout(orders: seq<OrderRec>, taker: OrderRec, k: nat)
    requires k < |orders|
    ensures Liquidity(orders, taker) == Liquidity(Without(orders, k), taker) + Offer(orders[k], taker)
  {
    var ws := Offers(orders, taker);
    assert Offers(Without(orders, k), taker) == Without(ws, k);
    SumWithout(ws, k);
  }

  lemma {:induction false} LiquidityOfOne(o: OrderRec, taker: OrderRec)
    ensures Liquidity([o], taker) == Offer(o, taker)
  {
    assert Offers([o], taker) == [Offer(o, taker)];
    SumOne(Offer(o, taker));
  }

  lemma {:induction false} LiquidityUpdate(orders: seq<OrderRec>, taker: OrderRec, k: nat, o: OrderRec)
    requires k < |orders|
    ensures Liquidity(orders, taker) + Offer(o, taker)
      == Liquidity(orders[k := o], taker) + Offer(orders[k], taker)
  {
    var ws := Offers(orders, taker);
    assert Offers(orders[k := o], taker) == ws[k := Offer(o, taker)];
    SumUpdate(ws, k, Offer(o, taker));
  }

  lemma {:induction false} LiquidityIgnoresFilled(orders: seq<OrderRec>, taker: OrderRec, q: Quantity)
    ensures Liquidity(orders, taker) == Liquidity(orders, taker.(filled := q))
  {
    assert Offers(orders, taker) == Offers(orders, taker.(filled := q));
  }

  lemma {:induction false} LiquidityAfterStep(book: Book, taker: OrderRec)
    requires Live(book) && taker.filled <= taker.initial && CanTrade(book, taker)
    ensures Liquidity(Orders(book), taker)
      == Liquidity(Orders(StepBook(book, taker)), StepTaker(book, taker)) + StepFill(book, taker)
  {
    var k, orders := TopIndex(book, Opposite(taker.side)), Orders(book);
    OrdersOfStep(book, taker);
    LiquidityIgnoresFilled(Orders(StepBook(book, taker)), taker, StepTaker(book, taker).filled);
    if orders[k].Remaining() <= taker.Remaining() {
      LiquidityWithout(orders, taker, k);
    } else {
      LiquidityUpdate(orders, taker, k, Fill(orders[k], taker.Remaining()));
    }
  }

  /** Matching fills the taker with the crossing liquidity, up to what it wants. */
  lemma {:induction false} MatchFillsFromLiquidity(book: Book, taker: OrderRec)
    requires Live(book) && taker.filled <= taker.initial
    ensures NaiveMatch(book, taker).taker.filled - taker.filled
      == (if Liquidity(Orders(book), taker) < taker.Remaining()
          then Liquidity(Orders(book), taker) else taker.Remaining())
    ensures NaiveMatch(book, taker).taker.IsFullyFilled()
        <==> Liquidity(Orders(book), taker) >= taker.Remaining()
    decreases taker.Remaining()
  {
    if CanTrade(book, taker) {
      MatchFillsFromLiquidity(StepBook(book, taker), StepTaker(book, taker));
      LiquidityAfterStep(book, taker);
    } else if taker.Remaining() > 0 {
      forall i | 0 <= i < |book| ensures Offers(Orders(book), taker)[i] == 0 {
        var k := TopIndex(book, Opposite(taker.side));
        if k < 0 {
          assert book[i].order.side != Opposite(taker.side);
        }
      }
      SumZero(Offers(Orders(book), taker));
    }
  }

  // ---- Sweep quality --------------------------------------------------------

  function Quantities(trades: seq<Trade>): (ws: seq<nat>)
    ensures |ws| == |trades|
    ensures forall i | 0 <= i < |trades| :: ws[i] == trades[i].quantity
  {
    if trades == [] then [] else Quantities(trades[..|trades| - 1]) + [trades[|trades| - 1].quantity]
  }

  function Traded(trades: seq<Trade>): nat {
    Sum(Quantities(trades))
  }

  lemma {:induction false} TradedConcat(a: seq<Trade>, b: seq<Trade>)
    ensures Traded(a + b) == Traded(a) + Traded(b)
  {
    assert Quantities(a + b) == Quantities(a) + Quantities(b);
    SumConcat(Quantities(a), Quantities(b));
  }

  lemma {:induction false} TradedOne(t: Trade)
    ensures Traded([t]) == t.quantity
  {
    assert Quantities([t]) == [t.quantity];
    SumOne(t.quantity);
  }

  lemma {:induction false} TradedIsFilled(book: Book, taker: OrderRec)
    requires Live(book) && taker.filled <= taker.initial
    ensures var r := NaiveMatch(book, taker); Traded(r.trades) == r.taker.filled - taker.filled
    decreases taker.Remaining()
  {
    if CanTrade(book, taker) {
      var rest := NaiveMatch(StepBook(book, taker), StepTaker(book, taker));
      TradedIsFilled(StepBook(book, taker), StepTaker(book, taker));
      TradedConcat([StepTrade(book, taker)], rest.trades);
      TradedOne(StepTrade(book, taker));
    }
  }

  /** No resting order on `side` has a price strictly better than p. */
  predicate NoneBetter(book: Book, side: Side, p: Price) {
    forall i | 0 <= i < |book| && book[i].order.side == side :: !Better(side, book[i].order.price, p)
  }

  /** Prices get no better for the taker, and each is within its limit. */
  predicate OrderlySweep(taker: OrderRec, trades: seq<Trade>) {
    && (forall i, j | 0 <= i < j < |trades| :: !Better(Opposite(taker.side), trades[j].price, trades[i].price))
    && (forall i | 0 <= i < |trades| :: trades[i].quantity > 0 && Crosses(taker, trades[i].price))
    && (forall i | 0 <= i < |trades| :: trades[i].taker == taker.id && trades[i].instrument == taker.instrument)
  }

  lemma {:induction false} TradesNoBetterThan(book: Book, taker: OrderRec, p: Price)
    requires Live(book) && taker.filled <= taker.initial && NoneBetter(book, Opposite(taker.side), p)
    ensures forall i | 0 <= i < |NaiveMatch(book, taker).trades| ::
              !Better(Opposite(taker.side), NaiveMatch(book, taker).trades[i].price, p)
    decreases taker.Remaining()
  {
    if CanTrade(book, taker) {
      TradesNoBetterThan(StepBook(book, taker), StepTaker(book, taker), p);
    }
  }

  lemma {:induction false} PrependTrade(taker: OrderRec, taker': OrderRec, t: Trade, rest: seq<Trade>)
    requires OrderlySweep(taker', rest) && OrderlySweep(taker, [t])
    requires taker' == taker.(filled := taker'.filled)
    requires forall i | 0 <= i < |rest| :: !Better(Opposite(taker.side), rest[i].price, t.price)
    ensures OrderlySweep(taker, [t] + rest)
  {
  }

  lemma {:induction false} TopPriceIsBest(book: Book, taker: OrderRec)
    requires Live(book) && taker.filled <= taker.initial && CanTrade(book, taker)
    ensures NoneBetter(StepBook(book, taker), Opposite(taker.side), StepTrade(book, taker).price)
    ensures OrderlySweep(taker, [StepTrade(book, taker)])
  {
  }

  lemma {:induction false} SweepIsOrderly(book: Book, taker: OrderRec)
    requires Live(book) && taker.filled <= taker.initial
    ensures OrderlySweep(taker, NaiveMatch(book, taker).trades)
    decreases taker.Remaining()
  {
    if CanTrade(book, taker) {
      hide StepBook, CanTrade, OrderlySweep, NoneBetter;
      var book', taker' := StepBook(book, taker), StepTaker(book, taker);
      TopPriceIsBest(book, taker);
      SweepIsOrderly(book', taker');
      TradesNoBetterThan(book', taker', StepTrade(book, taker).price);
      PrependTrade(taker, taker', StepTrade(book, taker), NaiveMatch(book', taker').trades);
    }
  }

  /** The trade names an order resting on `side`, and is struck at its price. */
  predicate WithMaker(book: Book, side: Side, t: Trade) {
    exists k | 0 <= k < |book| ::
      book[k].order.side == side && book[k].order.id == t.maker && book[k].order.price == t.price
  }

  /** Stepping adds no maker. */
  lemma {:induction false} StepMakers(book: Book, taker: OrderRec, t: Trade)
    requires Live(book) && taker.filled <= taker.initial && CanTrade(book, taker)
    ensures WithMaker(StepBook(book, taker), Opposite(taker.side), t) ==> WithMaker(book, Opposite(taker.side), t)
  {
    var k := TopIndex(book, Opposite(taker.side));
    RemoveAtElements(book, k);
    hide RemoveAt, TopIndex;
    var book' := StepBook(book, taker);
    if WithMaker(book', Opposite(taker.side), t) {
      var j :| 0 <= j < |book'| && book'[j].order.side == Opposite(taker.side) && book'[j].order.id == t.maker
            && book'[j].order.price == t.price;
      var i := if |book'| == |book| || j < k then j else j + 1;
      assert book[i].order.id == t.maker;
    }
  }

  /** Every trade of a sweep is with an order that rested on the other side, at that order's price. */
  lemma {:induction false} TradesAtMakersPrice(book: Book, taker: OrderRec)
    requires Live(book) && taker.filled <= taker.initial
    ensures forall i | 0 <= i < |NaiveMatch(book, taker).trades| ::
              WithMaker(book, Opposite(taker.side), NaiveMatch(book, taker).trades[i])
    decreases taker.Remaining()
  {
    if CanTrade(book, taker) {
      hide StepBook, WithMaker;
      var rest := NaiveMatch(StepBook(book, taker), StepTaker(book, taker)).trades;
      TradesAtMakersPrice(StepBook(book, taker), StepTaker(book, taker));
      TopIsMaker(book, taker);
      forall i | 0 <= i < |rest| ensures WithMaker(book, Opposite(taker.side), rest[i]) {
        StepMakers(book, taker, rest[i]);
      }
    }
  }

  lemma {:induction false} TopIsMaker(book: Book, taker: OrderRec)
    requires Live(book) && taker.filled <= taker.initial && CanTrade(book, taker)
    ensures WithMaker(book, Opposite(taker.side), StepTrade(book, taker))
  {
    assert book[TopIndex(book, Opposite(taker.side))].order.id == StepTrade(book, taker).maker;
  }

  /** The orders traded with, as they rest when their turn comes. */
  function Makers(book: Book, taker: OrderRec): seq<OrderRec>
    requires Live(book) && taker.filled <= taker.initial
    decreases taker.Remaining()
  {
    if !CanTrade(book, taker) then []
    else [book[TopIndex(book, Opposite(taker.side))].order] + Makers(StepBook(book, taker), StepTaker(book, taker))
  }

  /** The trades go through these makers one by one, and exhaust each but possibly the last. */
  predicate ExhaustsAllButLast(trades: seq<Trade>, makers: seq<OrderRec>, filled: bool) {
    && |trades| == |makers|
    && (forall i | 0 <= i < |trades| :: trades[i].maker == makers[i].id && trades[i].price == makers[i].price)
    && (forall i | 0 <= i < |trades| - 1 :: trades[i].quantity == makers[i].Remaining())
    && (trades != [] ==>
          var n := |trades| - 1;
          && trades[n].quantity <= makers[n].Remaining()
          && (trades[n].quantity == makers[n].Remaining() || filled))
  }

  lemma {:induction false} PrependMaker(
      t: Trade, maker: OrderRec, trades: seq<Trade>, makers: seq<OrderRec>, filled: bool)
    requires ExhaustsAllButLast(trades, makers, filled) && ExhaustsAllButLast([t], [maker], filled)
    requires t.quantity == maker.Remaining() || trades == []
    ensures ExhaustsAllButLast([t] + trades, [maker] + makers, filled)
  {
  }

  /** One step: an exhausted maker is gone, or the taker is done. */
  lemma {:induction false} StepExhausts(book: Book, taker: OrderRec)
    requires Live(book) && taker.filled <= taker.initial && CanTrade(book, taker)
    ensures var k, orders, fill := TopIndex(book, Opposite(taker.side)), Orders(book), StepFill(book, taker);
      && 0 <= k < |orders| && fill <= orders[k].Remaining()
      && (fill == orders[k].Remaining() ==> Orders(StepBook(book, taker)) == Without(orders, k))
      && (fill != orders[k].Remaining() ==> StepTaker(book, taker).IsFullyFilled())
  {
    hide TopIndex, Orders, StepBook, Without, Crosses;
    OrdersOfStep(book, taker);
  }

  /** A taker that is done trades no more. */
  lemma {:induction false} DoneTradesNothing(book: Book, taker: OrderRec)
    requires Live(book) && taker.IsFullyFilled()
    ensures NaiveMatch(book, taker) == Outcome(book, taker, []) && Makers(book, taker) == []
  {
  }

  /** All makers are orders of the book as it was, untouched until their turn. */
  lemma {:induction false} MakersRested(book: Book, taker: OrderRec)
    requires Live(book) && taker.filled <= taker.initial
    ensures forall m | m in Makers(book, taker) :: m in Orders(book)
    decreases taker.Remaining()
  {
    if CanTrade(book, taker) {
      hide StepBook, CanTrade, Orders, TopIndex;
      var k, book', taker' := TopIndex(book, Opposite(taker.side)), StepBook(book, taker), StepTaker(book, taker);
      StepExhausts(book, taker);
      if taker'.IsFullyFilled() {
        DoneTradesNothing(book', taker');
      } else {
        MakersRested(book', taker');
      }
      assert book[k].order == Orders(book)[k];
    }
  }

  /** Every trade but the last exhausts its maker; the last does so too unless it fills the taker. */
  lemma {:induction false} OnlyLastMakerSurvives(book: Book, taker: OrderRec)
    requires Live(book) && taker.filled <= taker.initial
    ensures var r := NaiveMatch(book, taker);
      ExhaustsAllButLast(r.trades, Makers(book, taker), r.taker.IsFullyFilled())
    decreases taker.Remaining()
  {
    if CanTrade(book, taker) {
      hide StepBook, CanTrade, Orders, TopIndex, ExhaustsAllButLast;
      var k, book', taker' := TopIndex(book, Opposite(taker.side)), StepBook(book, taker), StepTaker(book, taker);
      var rest := NaiveMatch(book', taker');
      StepExhausts(book, taker);
      OnlyLastMakerSurvives(book', taker');
      if taker'.IsFullyFilled() {
        DoneTradesNothing(book', taker');
      }
      OneMaker(book, taker, rest.taker.IsFullyFilled());
      PrependMaker(
        StepTrade(book, taker), book[k].order, rest.trades, Makers(book', taker'), rest.taker.IsFullyFilled());
    }
  }

  lemma {:induction false} OneMaker(book: Book, taker: OrderRec, filled: bool)
    requires Live(book) && taker.filled <= taker.initial && CanTrade(book, taker)
    requires StepTaker(book, taker).IsFullyFilled() ==> filled
    ensures ExhaustsAllButLast([StepTrade(book, taker)], [book[TopIndex(book, Opposite(taker.side))].order], filled)
  {
    StepExhausts(book, taker);
    hide StepBook, TopIndex, Orders;
  }

  /** How many orders are gone: one for each trade, but for a survivor of the last. */
  lemma {:induction false} TradesRemoveMakers(book: Book, taker: OrderRec)
    requires Live(book) && taker.filled <= taker.initial
    ensures var r := NaiveMatch(book, taker);
            || |r.book| == |book| - |r.trades|
            || (|r.book| == |book| - |r.trades| + 1 && r.taker.IsFullyFilled())
    decreases taker.Remaining()
  {
    if CanTrade(book, taker) {
      TradesRemoveMakers(StepBook(book, taker), StepTaker(book, taker));
    }
  }

  // ---- Priority in terms of the allocation -------------------------------------------------

  /** Whatever is ahead of i is ahead of l when i itself is. */
  lemma {:induction false} AheadGrows(orders: seq<OrderRec>, i: nat, l: nat, n: nat)
    requires i < |orders| && l < |orders| && n <= |orders| && Before(orders, i, l)
    ensures AheadWithin(orders, l, n) >= AheadWithin(orders, i, n) + (if i < n then orders[i].Remaining() else 0)
  {
    if n != 0 {
      AheadGrows(orders, i, l, n - 1);
    }
  }

  /** Nobody is served before everyone ahead of them is exhausted. */
  lemma {:induction false} AheadIsExhausted(orders: seq<OrderRec>, taker: OrderRec, i: nat, l: nat)
    requires i < |orders| && l < |orders| && Before(orders, i, l) && Allocated(orders, taker, l) > 0
    ensures Allocated(orders, taker, i) == orders[i].Remaining()
  {
    AheadGrows(orders, i, l, |orders|);
  }
}
