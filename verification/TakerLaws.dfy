/**
 * What a submitted order gets, in terms of its own fields and plain prices: a
 * limit order trades within its limit and leaves nothing behind within it, any
 * other order takes whatever is there, and the status follows from what the
 * book had to offer.
 */
module TakerLaws {
  import opened Types
  import opened PriceTime
  import opened Allocation
  import opened BookRuns

  /** A buyer accepts prices up to the limit, a seller prices from the limit. */
  predicate WithinLimit(side: Side, limit: Price, p: Price) {
    match side
    case Buy => p <= limit
    case Sell => p >= limit
  }

  /** Orders on the other side of the market. */
  predicate Faces(taker: OrderRec, o: OrderRec) {
    match taker.side
    case Buy => o.side == Sell
    case Sell => o.side == Buy
  }

  // ---- Orders without a limit ------------------------------------------------------------

  lemma {:induction false} StepIgnoresPrice(book: Book, taker: OrderRec, p: Price)
    requires Live(book) && taker.filled <= taker.initial && taker.kind != Limit
    ensures CanTrade(book, taker) == CanTrade(book, taker.(price := p))
    ensures CanTrade(book, taker) ==>
      && StepBook(book, taker) == StepBook(book, taker.(price := p))
      && StepTaker(book, taker).(price := p) == StepTaker(book, taker.(price := p))
      && StepTrade(book, taker) == StepTrade(book, taker.(price := p))
  {
    hide TopIndex, RemoveAt;
  }

  /** The price field of a market order plays no part. */
  lemma {:induction false} OnlyLimitOrdersHavePrices(book: Book, taker: OrderRec, p: Price)
    requires Live(book) && taker.filled <= taker.initial && taker.kind != Limit
    ensures var r, r' := NaiveMatch(book, taker), NaiveMatch(book, taker.(price := p));
      r'.book == r.book && r'.trades == r.trades && r'.taker == r.taker.(price := p)
    decreases taker.Remaining()
  {
    StepIgnoresPrice(book, taker, p);
    if CanTrade(book, taker) {
      hide StepBook, StepTrade, CanTrade, StepTaker;
      OnlyLimitOrdersHavePrices(StepBook(book, taker), StepTaker(book, taker), p);
    }
  }

  /** A market order left unfilled has emptied the other side. */
  lemma {:induction false} UnlimitedSweepsSide(book: Book, taker: OrderRec)
    requires Live(book) && taker.filled <= taker.initial && taker.kind != Limit
    requires NaiveMatch(book, taker).taker.filled < taker.initial
    ensures forall j | 0 <= j < |NaiveMatch(book, taker).book| :: !Faces(taker, NaiveMatch(book, taker).book[j].order)
  {
    var r := NaiveMatch(book, taker);
    hide NaiveMatch, CanTrade;
    NothingCrossesLeftover(r.book, r.taker);
  }

  // ---- Limit orders ------------------------------------------------------------------------

  /** Every trade of a limit order is within its limit. */
  lemma {:induction false} LimitIsRespected(book: Book, taker: OrderRec)
    requires Live(book) && taker.filled <= taker.initial && taker.kind == Limit
    ensures forall t | t in NaiveMatch(book, taker).trades :: WithinLimit(taker.side, taker.price, t.price)
  {
    SweepIsOrderly(book, taker);
    hide NaiveMatch;
  }

  /** A limit order left unfilled has left nothing within its limit. */
  lemma {:induction false} LimitIsExhausted(book: Book, taker: OrderRec)
    requires Live(book) && taker.filled <= taker.initial && taker.kind == Limit
    requires NaiveMatch(book, taker).taker.filled < taker.initial
    ensures forall j | 0 <= j < |NaiveMatch(book, taker).book| && Faces(taker, NaiveMatch(book, taker).book[j].order) ::
              !WithinLimit(taker.side, taker.price, NaiveMatch(book, taker).book[j].order.price)
  {
    var r := NaiveMatch(book, taker);
    hide NaiveMatch, CanTrade;
    NothingCrossesLeftover(r.book, r.taker);
  }

  /** A buyer pays rising prices, a seller gets falling ones. */
  lemma {:induction false} BestPricesFirst(book: Book, taker: OrderRec)
    requires Live(book) && taker.filled <= taker.initial
    ensures var ts := NaiveMatch(book, taker).trades;
      && (taker.side == Buy ==> forall i, j | 0 <= i < j < |ts| :: ts[i].price <= ts[j].price)
      && (taker.side == Sell ==> forall i, j | 0 <= i < j < |ts| :: ts[i].price >= ts[j].price)
  {
    SweepIsOrderly(book, taker);
    hide NaiveMatch;
  }

  // ---- The outcome, before the call --------------------------------------------------------

  /** What the book has for the order: everything facing it, within its limit if it has one. */
  function OnOffer(orders: seq<OrderRec>, o: OrderRec): nat {
    if orders == [] then 0
    else
      var m := orders[|orders| - 1];
      OnOffer(orders[..|orders| - 1], o)
      + (if Faces(o, m) && (o.kind == Limit ==> WithinLimit(o.side, o.price, m.price)) then m.Remaining() else 0)
  }

  lemma {:induction false} OnOfferIsLiquidity(orders: seq<OrderRec>, o: OrderRec)
    ensures OnOffer(orders, o) == Liquidity(orders, o)
  {
    if orders == [] {
      assert Offers(orders, o) == [];
    } else {
      var n := |orders| - 1;
      OnOfferIsLiquidity(orders[..n], o);
      LiquidityWithout(orders, o, n);
      assert Without(orders, n) == orders[..n];
      hide Liquidity;
    }
  }

  /** The checks of submit, written out. */
  predicate Admissible(instrument: InstrumentId, o: OrderRec) {
    && o.initial > 0 && o.instrument == instrument
    && (o.kind == Limit ==> o.price > 0)
    && (o.kind == Market ==> o.tif != GTC && o.tif != Day)
  }

  /** May an unfilled remainder go onto the book? */
  predicate MayRest(o: OrderRec) {
    o.kind != Market && o.tif != IOC
  }

  /** Status, fill and resting of a submitted order, all known from the book before the call. */
  lemma {:induction false} OutcomeIsKnown(book: Book, instrument: InstrumentId, o: OrderRec)
    requires Live(book) && o.filled == 0
    ensures var r, offer := NaiveSubmit(book, instrument, o), OnOffer(Orders(book), o);
      if !Admissible(instrument, o) || (o.tif == FOK && offer < o.initial) then
        r == Outcome(book, o.(status := Rejected), [])
      else
        && r.taker.filled == (if offer < o.initial then offer else o.initial)
        && Traded(r.trades) == r.taker.filled
        && r.taker.status == (
             if offer >= o.initial then Filled
             else if offer > 0 then PartiallyFilled
             else if MayRest(o) then New else Cancelled)
        && r.taker == o.(filled := r.taker.filled, status := r.taker.status)
        && (if offer < o.initial && MayRest(o)
            then r.book != [] && r.book[|r.book| - 1].order == r.taker
                 && r.book[..|r.book| - 1] == NaiveMatch(book, o).book
            else r.book == NaiveMatch(book, o).book)
  {
    OnOfferIsLiquidity(Orders(book), o);
    hide NaiveMatch, Liquidity, Orders, CanTrade, OnOffer, Traded;
    MatchFillsFromLiquidity(book, o);
    TradedIsFilled(book, o);
  }
}
