/**
 * What a client can rely on, message byte by message byte: how each message is
 * answered and what it leaves on the books.
 */
module GatewayLaws {
  import opened Types
  import opened PriceTime
  import opened Allocation
  import opened TakerLaws
  import opened Engines
  import opened Wire
  import opened Sessions
  import opened Gateway

  // ---- Session messages ----------------------------------------------------------------

  /** Logon, logout and heartbeat: the answer and the new state. */
  lemma {:induction false} SessionAnswers(d: Desk, c: U32, room: bool)
    ensures d.phase == NotLoggedOn ==> React(d, Logon(c), room) == Reaction(Desk(Active, c, d.books), [Logon(c)])
    ensures d.phase != NotLoggedOn ==> React(d, Logon(c), room) == Reaction(d, [])
    ensures React(d, Logout, room) == Reaction(Desk(Closing, d.client, d.books), [Logout])
    ensures React(d, Heartbeat, room) == Reaction(d, [Heartbeat])
  {
  }

  /** Messages that only a server sends are ignored. */
  lemma {:induction false} ServerMessagesAreIgnored(d: Desk, m: Body, room: bool)
    requires m.OrderAck? || m.OrderReject? || m.Fill? || m.Cancelled?
    ensures React(d, m, room) == Reaction(d, [])
  {
  }

  // ---- New orders ------------------------------------------------------------------------

  /** What the book holds for a new order: the other side, within the limit if the type byte says limit. */
  function Offered(orders: seq<OrderRec>, m: Body): nat
    requires m.NewOrder?
  {
    if orders == [] then 0
    else
      var o := orders[|orders| - 1];
      var within := if m.side == 0 then o.price <= m.price else o.price >= m.price;
      var faces := if m.side == 0 then o.side == Sell else o.side == Buy;
      Offered(orders[..|orders| - 1], m) + (if faces && (m.orderType == 0 ==> within) then o.Remaining() else 0)
  }

  lemma {:induction false} OfferedIsOnOffer(orders: seq<OrderRec>, client: U32, m: Body)
    requires m.NewOrder?
    ensures Offered(orders, m) == OnOffer(orders, OrderOf(client, m))
  {
    if orders != [] {
      OfferedIsOnOffer(orders[..|orders| - 1], client, m);
    }
  }

  /** The reject reason byte for a new order, or 0 when it is taken. */
  function ReasonByte(books: Books, m: Body): U8
    requires m.NewOrder?
  {
    if m.instrument !in books then 1
    else if m.quantity == 0 then 2
    else if m.orderType == 0 && m.price <= 0 then 3
    else if m.orderType == 1 && (m.tif == 0 || m.tif == 3) then 4
    else if m.tif == 2 && Offered(Orders(books[m.instrument]), m) < m.quantity then 7
    else 0
  }

  /** An order on the book with the fields the message gave. */
  predicate AsSent(client: U32, m: Body, o: OrderRec)
    requires m.NewOrder?
  {
    && o.id == m.clientOrderId && o.price == m.price && o.initial == m.quantity
    && o.instrument == m.instrument && o.client == client
    && o.side == (if m.side == 0 then Buy else Sell)
  }

  /** A fill message: its ids, a price within the limit, and the status byte. */
  predicate FillFor(m: Body, f: Body, status: U8)
    requires m.NewOrder?
  {
    && f.Fill? && f.clientOrderId == m.clientOrderId && f.serverOrderId == m.clientOrderId && f.postStatus == status
    && (m.orderType == 0 ==> if m.side == 0 then f.price <= m.price else f.price >= m.price)
  }

  /** Refused before the engine is asked. */
  lemma {:induction false} OrderTurnedAway(d: Desk, m: Body, room: bool)
    requires m.NewOrder? && (d.phase != Active || !room)
    ensures React(d, m, room) == Reaction(d, [OrderReject(m.clientOrderId, if d.phase != Active then 5 else 0)])
  {
    hide RouteSubmit;
  }

  /** Rejected by the engine: exactly when a reason byte applies, with that byte, and nothing else happens. */
  lemma {:induction false} OrderRejected(d: Desk, m: Body)
    requires m.NewOrder? && d.phase == Active
    ensures var x := React(d, m, true);
      if ReasonByte(d.books, m) != 0 then
        x == Reaction(d, [OrderReject(m.clientOrderId, ReasonByte(d.books, m))])
      else
        x.out != [] && x.out[0] == OrderAck(m.clientOrderId, m.clientOrderId)
  {
    hide NaiveMatch, NaiveSubmit, Liquidity, Orders, Accepted, OnOffer, Offered, FillsOf, RouteSubmit;
    var o := OrderOf(d.client, m);
    ReasonIsExact(d.books, d.client, m);
    if m.instrument in d.books {
      OfferedIsOnOffer(Orders(d.books[m.instrument]), d.client, m);
      OnOfferIsLiquidity(Orders(d.books[m.instrument]), o);
    }
  }

  /** The whole reaction to an order that is taken, in terms of what the engine returns. */
  lemma {:induction false} TakenReaction(d: Desk, m: Body)
    requires m.NewOrder? && d.phase == Active && ReasonByte(d.books, m) == 0
    ensures var r := NaiveSubmit(d.books[m.instrument], m.instrument, OrderOf(d.client, m));
      React(d, m, true) == Reaction(
        d.(books := d.books[m.instrument := r.book]),
        [OrderAck(m.clientOrderId, m.clientOrderId)] + FillsOf(m, r.taker.status, r.trades))
  {
    hide NaiveMatch, NaiveSubmit, Orders, Offered, FillsOf, Traded, AsSent, StatusCode;
    EngineTakes(d.books, d.client, m);
  }

  /**
   * Taken by the engine: one ack, then fills within the limit that sum to what
   * the book had on offer or to the quantity, with the status byte 2 for filled
   * and 1 for partly filled.
   */
  lemma {:induction false} OrderTaken(d: Desk, m: Body)
    requires m.NewOrder? && d.phase == Active && ReasonByte(d.books, m) == 0
    ensures var x, have := React(d, m, true), Offered(Orders(d.books[m.instrument]), m);
      && x.out != [] && x.out[0] == OrderAck(m.clientOrderId, m.clientOrderId)
      && (forall f | f in x.out[1..] :: FillFor(m, f, if have >= m.quantity then 2 else 1))
      && FillQuantities(x.out[1..]) == (if have < m.quantity then have else m.quantity)
  {
    hide React, NaiveMatch, NaiveSubmit, Orders, Offered, FillsOf, Traded, AsSent, StatusCode, FillFor, FillQuantities;
    hide OrderOf;
    TakenReaction(d, m);
    EngineTakes(d.books, d.client, m);
    var r := NaiveSubmit(d.books[m.instrument], m.instrument, OrderOf(d.client, m));
    FillsAreFor(m, r.taker.status, r.trades);
    FillQuantitiesOf(m, r.taker.status, r.trades);
    var fills := FillsOf(m, r.taker.status, r.trades);
    assert ([OrderAck(m.clientOrderId, m.clientOrderId)] + fills)[1..] == fills;
  }

  /** Behind the ack, one fill for each trade of the sweep, in order, with its price and quantity. */
  lemma {:induction false} FillsFollowTrades(d: Desk, m: Body)
    requires m.NewOrder? && d.phase == Active && ReasonByte(d.books, m) == 0
    ensures var x, trades := React(d, m, true), NaiveMatch(d.books[m.instrument], OrderOf(d.client, m)).trades;
      && |x.out| == |trades| + 1
      && forall i | 0 <= i < |trades| ::
           var f := x.out[i + 1];
           f.Fill? && f.price == trades[i].price && f.quantity == trades[i].quantity
  {
    hide React, NaiveMatch, NaiveSubmit, Orders, Offered, FillsOf, Traded, AsSent, StatusCode, OrderOf, ReasonByte;
    TakenReaction(d, m);
    EngineTakes(d.books, d.client, m);
  }

  /**
   * What a taken order leaves: of all books only that of its instrument is
   * different. A remainder comes last on it, with the fields of the message,
   * unless the order is a market order or its time in force byte is 1; the rest
   * is the book after matching.
   */
  lemma {:induction false} RemainderRests(d: Desk, m: Body)
    requires m.NewOrder? && d.phase == Active && ReasonByte(d.books, m) == 0
    ensures var x, have := React(d, m, true), Offered(Orders(d.books[m.instrument]), m);
      && m.instrument in x.desk.books && x.desk == d.(books := d.books[m.instrument := x.desk.books[m.instrument]])
      && var book, left := x.desk.books[m.instrument], NaiveMatch(d.books[m.instrument], OrderOf(d.client, m)).book;
      if have < m.quantity && m.orderType != 1 && m.tif != 1
      then book != [] && AsSent(d.client, m, book[|book| - 1].order) && book[|book| - 1].order.filled == have
           && book[..|book| - 1] == left
      else book == left
  {
    hide React, NaiveMatch, NaiveSubmit, Orders, Offered, FillsOf, Traded, AsSent, StatusCode, OrderOf, ReasonByte;
    TakenReaction(d, m);
    EngineTakes(d.books, d.client, m);
  }

  /** What the engine does with an order that is taken, in terms of the message. */
  lemma {:induction false} EngineTakes(books: Books, client: U32, m: Body)
    requires m.NewOrder? && ReasonByte(books, m) == 0
    ensures var book, have := books[m.instrument], Offered(Orders(books[m.instrument]), m);
      var r, left := NaiveSubmit(book, m.instrument, OrderOf(client, m)), NaiveMatch(book, OrderOf(client, m)).book;
      && r.taker.status != Rejected && r.trades == NaiveMatch(book, OrderOf(client, m)).trades
      && Traded(r.trades) == (if have < m.quantity then have else m.quantity)
      && (r.trades != [] ==> StatusCode(r.taker.status) == (if have >= m.quantity then 2 else 1))
      && (m.orderType == 0 ==>
            forall t | t in r.trades :: if m.side == 0 then t.price <= m.price else t.price >= m.price)
      && if have < m.quantity && m.orderType != 1 && m.tif != 1
         then r.book != [] && AsSent(client, m, r.book[|r.book| - 1].order)
              && r.book[|r.book| - 1].order.filled == have && r.book[..|r.book| - 1] == left
         else r.book == left
  {
    hide NaiveMatch, NaiveSubmit, Orders, OnOffer, Offered, Traded;
    var o, book := OrderOf(client, m), books[m.instrument];
    OfferedIsOnOffer(Orders(book), client, m);
    OutcomeIsKnown(book, m.instrument, o);
    TradesOf(book, m.instrument, o);
    var r := NaiveSubmit(book, m.instrument, o);
    NoFillsForNothing(r.trades);
    if m.orderType == 0 {
      LimitIsRespected(book, o);
    }
  }

  /** The trades of a taken order are those of matching, each of a positive quantity. */
  lemma {:induction false} TradesOf(book: LiveBook, instrument: InstrumentId, o: OrderRec)
    requires o.filled == 0
    ensures NaiveSubmit(book, instrument, o).taker.status != Rejected ==>
      NaiveSubmit(book, instrument, o).trades == NaiveMatch(book, o).trades
    ensures forall t | t in NaiveMatch(book, o).trades :: t.quantity > 0
  {
    SubmitRejectsIff(book, instrument, o);
    SweepIsOrderly(book, o);
    hide NaiveMatch, NaiveSubmit;
  }

  lemma {:induction false} FillsAreFor(m: Body, status: OrderStatus, trades: seq<Trade>)
    requires m.NewOrder?
    requires m.orderType == 0 ==>
      forall t | t in trades :: if m.side == 0 then t.price <= m.price else t.price >= m.price
    ensures forall f | f in FillsOf(m, status, trades) :: FillFor(m, f, StatusCode(status))
  {
    forall i | 0 <= i < |trades| ensures FillFor(m, FillsOf(m, status, trades)[i], StatusCode(status)) {
      assert trades[i] in trades;
    }
  }

  /** Trades that add up to nothing are none, if each is of something. */
  lemma {:induction false} NoFillsForNothing(trades: seq<Trade>)
    ensures (forall t | t in trades :: t.quantity > 0) && Traded(trades) == 0 ==> trades == []
  {
    if trades != [] {
      var n := |trades| - 1;
      assert trades == trades[..n] + [trades[n]];
      TradedConcat(trades[..n], [trades[n]]);
      TradedOne(trades[n]);
      assert trades[n] in trades;
    }
  }
}
