/**
 * What the dispatcher answers to each message (src/gateway/dispatcher.cpp), as
 * a function of the session, the books and whether the pool has a free slot.
 */
module Gateway {
  import opened Types
  import opened PriceTime
  import opened Allocation
  import opened Engines
  import opened Wire
  import opened Sessions

  // Reject reasons on the wire.
  const REASON_UNKNOWN: U8 := 0
  const REASON_UNKNOWN_INSTRUMENT: U8 := 1
  const REASON_INVALID_QUANTITY: U8 := 2
  const REASON_INVALID_PRICE: U8 := 3
  const REASON_INVALID_TIF: U8 := 4
  const REASON_NOT_LOGGED_ON: U8 := 5
  const REASON_INSUFFICIENT_LIQUIDITY: U8 := 7

  /** The order the dispatcher fills in; a side byte other than 0 acts as Sell wherever the source looks at it. */
  function OrderOf(client: U32, m: Body): (o: OrderRec)
    requires m.NewOrder?
    ensures o.filled == 0 <= o.initial
  {
    OrderRec(m.clientOrderId, m.price, m.quantity, 0, m.instrument, client, New,
             if m.side == 0 then Buy else Sell,
             if m.orderType == 0 then Limit else if m.orderType == 1 then Market else OtherType,
             if m.tif == 0 then GTC else if m.tif == 1 then IOC else if m.tif == 2 then FOK
             else if m.tif == 3 then Day else OtherTif)
  }

  function StatusCode(s: OrderStatus): U8 {
    match s
    case New => 0
    case PartiallyFilled => 1
    case Filled => 2
    case Cancelled => 3
    case Rejected => 4
  }

  /** classify, asked after the engine has rejected the order; `known` says whether the instrument has a book. */
  function Classify(known: bool, m: Body): U8
    requires m.NewOrder?
  {
    if !known then REASON_UNKNOWN_INSTRUMENT
    else if m.quantity == 0 then REASON_INVALID_QUANTITY
    else if m.orderType == 0 && m.price <= 0 then REASON_INVALID_PRICE
    else if m.orderType == 1 && (m.tif == 0 || m.tif == 3) then REASON_INVALID_TIF
    else if m.tif == 2 then REASON_INSUFFICIENT_LIQUIDITY
    else REASON_UNKNOWN
  }

  /** The fill messages for the trades of a new order. */
  function FillsOf(m: Body, status: OrderStatus, trades: seq<Trade>): (fs: seq<Body>)
    requires m.NewOrder?
    ensures |fs| == |trades|
    ensures forall i | 0 <= i < |fs| ::
      fs[i] == Fill(m.clientOrderId, m.clientOrderId, trades[i].price, trades[i].quantity, StatusCode(status))
  {
    if trades == [] then []
    else
      var t := trades[|trades| - 1];
      FillsOf(m, status, trades[..|trades| - 1])
      + [Fill(m.clientOrderId, m.clientOrderId, t.price, t.quantity, StatusCode(status))]
  }

  /** The messages sent for an order the engine has seen. */
  function Answer(m: Body, r: Reply): seq<Body>
    requires m.NewOrder?
  {
    if r.order.status == Rejected then [OrderReject(m.clientOrderId, Classify(m.instrument in r.books, m))]
    else [OrderAck(m.clientOrderId, m.clientOrderId)] + FillsOf(m, r.order.status, r.trades)
  }

  /** A partly filled order that may not rest: neither terminal nor on a book. */
  predicate Stranded(o: OrderRec) {
    o.status == PartiallyFilled && !Rests(o)
  }

  /** An order the engine is done with ends resting, terminal or stranded, and in one of these ways only. */
  lemma {:induction false} EndsOneWay(books: Books, o: OrderRec)
    requires o.filled == 0
    ensures var r := RouteSubmit(books, o).order;
      && (r.IsTerminal() ==> r.status == Rejected || !Rests(r))
      && (Stranded(r) <==> !r.IsTerminal() && !Rests(r))
  {
    hide NaiveMatch, Accepted, Add;
  }

  /** Known before the call: the order is taken, may not rest, and the book can fill some of it but not all. */
  predicate WillStrand(books: Books, o: OrderRec) {
    && o.instrument in books && PassesChecks(o.instrument, o)
    && (o.kind == Market || o.tif == IOC) && o.tif != FOK
    && 0 < Liquidity(Orders(books[o.instrument]), o) < o.initial
  }

  /** An order ends stranded if and only if the book offers it something, but too little, and it may not rest. */
  lemma {:induction false} StrandedIff(books: Books, o: OrderRec)
    requires o.filled == 0
    ensures Stranded(RouteSubmit(books, o).order) <==> WillStrand(books, o)
  {
    hide NaiveMatch, Accepted, Liquidity, Orders, Add, CanTrade;
    if o.instrument in books {
      AcceptedIff(books[o.instrument], o);
      MatchFillsFromLiquidity(books[o.instrument], o);
    }
  }

  /** An immediate-or-cancel bid of 10 against an ask of 5 ends stranded. */
  lemma {:induction false} IocIsStranded()
    ensures var books: Books := map[1 := [Resting(SomeAsk, true)]];
      && WillStrand(books, SomeIoc) && Stranded(RouteSubmit(books, SomeIoc).order)
  {
    hide RouteSubmit, Stranded, Liquidity, Orders;
    var book: Book := [Resting(SomeAsk, true)];
    assert Orders(book) == [SomeAsk];
    LiquidityOfOne(SomeAsk, SomeIoc);
    StrandedIff(map[1 := book], SomeIoc);
  }

  const SomeAsk: OrderRec := OrderRec(7, 100, 5, 0, 1, 1, New, Sell, Limit, GTC)
  const SomeIoc: OrderRec := OrderRec(8, 100, 10, 0, 1, 1, New, Buy, Limit, IOC)

  /** One session in front of the engine. */
  datatype Desk = Desk(phase: Phase, client: U32, books: Books)

  datatype Reaction = Reaction(desk: Desk, out: seq<Body>)

  /** What handling one message does; `room` says whether the pool has a free slot. */
  function React(d: Desk, m: Body, room: bool): Reaction
  {
    match m
    case Logon(c) =>
      if d.phase != NotLoggedOn then Reaction(d, [])
      else Reaction(d.(phase := Active, client := c), [Logon(c)])
    case Logout => Reaction(d.(phase := Closing), [Logout])
    case Heartbeat => Reaction(d, [Heartbeat])
    case NewOrder(id, _, _, _, _, _, _) =>
      if d.phase != Active then Reaction(d, [OrderReject(id, REASON_NOT_LOGGED_ON)])
      else if !room then Reaction(d, [OrderReject(id, REASON_UNKNOWN)])
      else
        var r := RouteSubmit(d.books, OrderOf(d.client, m));
        Reaction(d.(books := r.books), Answer(m, r))
    case CancelOrder(id, i) =>
      if d.phase != Active then Reaction(d, [OrderReject(id, REASON_NOT_LOGGED_ON)])
      else if CanCancel(d.books, i, id) then Reaction(d.(books := RouteCancel(d.books, i, id)), [Body.Cancelled(id)])
      else Reaction(d, [OrderReject(id, REASON_UNKNOWN)])
    case _ => Reaction(d, [])
  }

  /** A cancel that finds nothing changes nothing. */
  lemma {:induction false} MissedCancel(books: Books, instrument: InstrumentId, id: OrderId)
    ensures !CanCancel(books, instrument, id) ==> RouteCancel(books, instrument, id) == books
  {
    hide RemoveAt;
    if instrument in books && !IdIndexed(books[instrument], id) {
      assert NaiveCancel(books[instrument], id) == books[instrument];
    }
  }

  /** How many slots handling a message leaves stranded. */
  function Strands(d: Desk, m: Body, room: bool): (n: nat)
    ensures n <= 1
  {
    if m.NewOrder? && d.phase == Active && room && WillStrand(d.books, OrderOf(d.client, m)) then 1 else 0
  }

  // ---- Reject reasons ---------------------------------------------------------------

  /** The check that stops an order, in the order the engine makes them. */
  datatype Obstacle = Nothing | NoSuchInstrument | NoQuantity | BadPrice | BadTif | NotFillable

  function ObstacleTo(books: Books, o: OrderRec): Obstacle {
    if o.instrument !in books then NoSuchInstrument
    else if o.initial == 0 then NoQuantity
    else if o.kind == Limit && o.price <= 0 then BadPrice
    else if o.kind == Market && (o.tif == GTC || o.tif == Day) then BadTif
    else if o.tif == FOK && Liquidity(Orders(books[o.instrument]), o) < o.initial then NotFillable
    else Nothing
  }

  function ReasonFor(x: Obstacle): U8 {
    match x
    case Nothing => REASON_UNKNOWN
    case NoSuchInstrument => REASON_UNKNOWN_INSTRUMENT
    case NoQuantity => REASON_INVALID_QUANTITY
    case BadPrice => REASON_INVALID_PRICE
    case BadTif => REASON_INVALID_TIF
    case NotFillable => REASON_INSUFFICIENT_LIQUIDITY
  }

  /** Whether an order is taken, in terms of what the book offers it. */
  lemma {:induction false} AcceptedIff(book: LiveBook, o: OrderRec)
    requires o.filled == 0
    ensures Accepted(book, o.instrument, o)
       <==> PassesChecks(o.instrument, o) && (o.tif == FOK ==> Liquidity(Orders(book), o) >= o.initial)
  {
    hide NaiveMatch, Liquidity, Orders, CanTrade;
    MatchFillsFromLiquidity(book, o);
  }

  /** A submit either rejects and changes nothing, or ends with another status. */
  lemma {:induction false} SubmitRejectsIff(book: LiveBook, instrument: InstrumentId, o: OrderRec)
    requires o.filled == 0
    ensures var r := NaiveSubmit(book, instrument, o);
      && (Accepted(book, instrument, o) ==>
            && r.taker.status != Rejected && r.taker.filled == NaiveMatch(book, o).taker.filled <= o.initial
            && r.trades == NaiveMatch(book, o).trades)
      && (!Accepted(book, instrument, o) ==> r == Outcome(book, o.(status := Rejected), []))
  {
    hide NaiveMatch, Accepted, Add, CanTrade;
  }

  /**
   * The engine rejects exactly when some check stops the order; rejection
   * leaves the books as they were; and the reason found afterwards names the
   * very check, never Unknown.
   */
  lemma {:induction false} ReasonIsExact(books: Books, client: U32, m: Body)
    requires m.NewOrder?
    ensures var o := OrderOf(client, m);
      var r := RouteSubmit(books, o);
      && (r.order.status == Rejected <==> ObstacleTo(books, o) != Nothing)
      && (r.order.status == Rejected ==>
            && r.books == books && r.trades == []
            && Classify(m.instrument in r.books, m) == ReasonFor(ObstacleTo(books, o)) != REASON_UNKNOWN)
  {
    hide NaiveMatch, NaiveSubmit, Accepted, Liquidity, Orders, CanTrade;
    var o := OrderOf(client, m);
    if o.instrument in books {
      AcceptedIff(books[o.instrument], o);
      SubmitRejectsIff(books[o.instrument], o.instrument, o);
      assert books[o.instrument := books[o.instrument]] == books;
    }
  }

  // ---- Answers ----------------------------------------------------------------------

  function FillQuantities(out: seq<Body>): nat {
    if out == [] then 0
    else
      FillQuantities(out[..|out| - 1]) + (if out[|out| - 1].Fill? then out[|out| - 1].quantity else 0)
  }

  lemma {:induction false} FillQuantitiesOf(m: Body, status: OrderStatus, trades: seq<Trade>)
    requires m.NewOrder?
    ensures FillQuantities(FillsOf(m, status, trades)) == Traded(trades)
  {
    if trades == [] {
      assert Quantities(trades) == [];
    } else {
      var n := |trades| - 1;
      FillQuantitiesOf(m, status, trades[..n]);
      assert FillsOf(m, status, trades)[..n] == FillsOf(m, status, trades[..n]);
      assert trades == trades[..n] + [trades[n]];
      TradedConcat(trades[..n], [trades[n]]);
      TradedOne(trades[n]);
      hide Traded;
    }
  }

  /**
   * A new order is answered by exactly one reject, or by one ack followed by
   * fills only; the fills carry the final status and sum up to what the order
   * got from the engine.
   */
  lemma {:induction false} NewOrderIsAnswered(d: Desk, m: Body, room: bool)
    requires m.NewOrder?
    ensures var x := React(d, m, room);
      || (exists reason :: x == Reaction(d, [OrderReject(m.clientOrderId, reason)]))
      || (&& d.phase == Active && room
          && var r := RouteSubmit(d.books, OrderOf(d.client, m));
          && x.out != [] && x.out[0] == OrderAck(m.clientOrderId, m.clientOrderId)
          && (forall i | 1 <= i < |x.out| ::
                x.out[i].Fill? && x.out[i].clientOrderId == m.clientOrderId
                && x.out[i].postStatus == StatusCode(r.order.status))
          && FillQuantities(x.out[1..]) == r.order.filled <= m.quantity)
  {
    hide NaiveMatch, NaiveSubmit, Accepted, Liquidity, Orders, CanTrade, FillQuantities, Traded, ObstacleTo, Classify;
    if d.phase == Active && room {
      var o := OrderOf(d.client, m);
      var r := RouteSubmit(d.books, o);
      ReasonIsExact(d.books, d.client, m);
      if r.order.status != Rejected {
        SubmitRejectsIff(d.books[o.instrument], o.instrument, o);
        TradedIsFilled(d.books[o.instrument], o);
        FillQuantitiesOf(m, r.order.status, r.trades);
        assert React(d, m, room).out[1..] == FillsOf(m, r.order.status, r.trades);
      }
    }
  }

  lemma {:induction false} CancelledIsUnindexed(book: LiveBook, id: OrderId)
    ensures !IdIndexed(NaiveCancel(book, id), id)
  {
    var k := IndexedAt(book, id);
    if k >= 0 {
      RemoveAtElements(book, k);
      hide RemoveAt;
    }
  }

  /**
   * A cancel is answered once: Cancelled if the id is indexed for that
   * instrument, and from then on by a reject; a reject leaves the books alone.
   */
  lemma {:induction false} CancelIsAnsweredOnce(d: Desk, m: Body, room: bool, again: bool)
    requires m.CancelOrder? && d.phase == Active
    ensures var x := React(d, m, room);
      && x.desk == d.(books := x.desk.books)
      && (x.out == [Body.Cancelled(m.clientOrderId)] <==> CanCancel(d.books, m.instrument, m.clientOrderId))
      && (x.out != [Body.Cancelled(m.clientOrderId)] ==>
            x == Reaction(d, [OrderReject(m.clientOrderId, REASON_UNKNOWN)]))
      && React(x.desk, m, again) == Reaction(x.desk, [OrderReject(m.clientOrderId, REASON_UNKNOWN)])
  {
    hide NaiveCancel, IdIndexed;
    if m.instrument in d.books {
      CancelledIsUnindexed(d.books[m.instrument], m.clientOrderId);
    }
  }

  // ---- Sessions -----------------------------------------------------------------------

  /** A message of this session, or work of other sessions on the shared engine. */
  datatype Turn = Inbound(m: Body, room: bool) | Others(books: Books)

  function Take(d: Desk, t: Turn): Reaction
  {
    match t
    case Inbound(m, room) => React(d, m, room)
    case Others(books) => Reaction(d.(books := books), [])
  }

  /** The session after all these turns. */
  function Serve(d: Desk, ts: seq<Turn>): Desk
  {
    if ts == [] then d else Take(Serve(d, ts[..|ts| - 1]), ts[|ts| - 1]).desk
  }

  /** Everything sent in these turns. */
  function Sent(d: Desk, ts: seq<Turn>): seq<Body>
  {
    if ts == [] then []
    else Sent(d, ts[..|ts| - 1]) + Take(Serve(d, ts[..|ts| - 1]), ts[|ts| - 1]).out
  }

  /** The slots stranded in these turns. */
  function StrandedIn(d: Desk, ts: seq<Turn>): nat
  {
    if ts == [] then 0
    else
      var t := ts[|ts| - 1];
      StrandedIn(d, ts[..|ts| - 1])
      + (if t.Inbound? then Strands(Serve(d, ts[..|ts| - 1]), t.m, t.room) else 0)
  }

  /** New orders among the turns of a session. */
  function NewOrdersIn(ts: seq<Turn>): nat {
    if ts == [] then 0
    else
      var t := ts[|ts| - 1];
      NewOrdersIn(ts[..|ts| - 1]) + (if t.Inbound? && t.m.NewOrder? then 1 else 0)
  }

  /** Serving in several pumps is serving in one. */
  lemma {:induction false} ServeInParts(d: Desk, ts: seq<Turn>, more: seq<Turn>)
    ensures Serve(d, ts + more) == Serve(Serve(d, ts), more)
    ensures Sent(d, ts + more) == Sent(d, ts) + Sent(Serve(d, ts), more)
    ensures StrandedIn(d, ts + more) == StrandedIn(d, ts) + StrandedIn(Serve(d, ts), more)
  {
    hide Take, Strands;
    if more == [] {
      assert ts + more == ts;
    } else {
      var n := |more| - 1;
      ServeInParts(d, ts, more[..n]);
      assert (ts + more)[..|ts + more| - 1] == ts + more[..n];
    }
  }

  predicate SawLogon(ts: seq<Turn>) {
    exists i | 0 <= i < |ts| :: ts[i].Inbound? && ts[i].m.Logon?
  }

  predicate SawLogout(ts: seq<Turn>) {
    exists i | 0 <= i < |ts| :: ts[i].Inbound? && ts[i].m.Logout?
  }

  /** What a turn does to the phase. */
  lemma {:induction false} PhaseAfterTurn(d: Desk, t: Turn)
    ensures var p := Take(d, t).desk.phase;
      if t.Inbound? && t.m.Logout? then p == Closing
      else if t.Inbound? && t.m.Logon? && d.phase == NotLoggedOn then p == Active
      else p == d.phase
    ensures d.phase != NotLoggedOn ==> Take(d, t).desk.client == d.client
  {
    hide RouteSubmit, RouteCancel, CanCancel;
  }

  /** The phase of a session is decided by which of logon and logout it has seen. */
  lemma {:induction false} PhaseByHistory(d: Desk, ts: seq<Turn>)
    requires d.phase == NotLoggedOn
    ensures Serve(d, ts).phase ==
      if SawLogout(ts) then Closing else if SawLogon(ts) then Active else NotLoggedOn
  {
    hide Take;
    if ts != [] {
      var n := |ts| - 1;
      var before, t := ts[..n], ts[n];
      PhaseByHistory(d, before);
      PhaseAfterTurn(Serve(d, before), t);
      assert forall i | 0 <= i < n :: ts[i] == before[i];
      assert SawLogon(ts) <==> SawLogon(before) || (t.Inbound? && t.m.Logon?);
      assert SawLogout(ts) <==> SawLogout(before) || (t.Inbound? && t.m.Logout?);
    }
  }

  /** Outside Active a message leaves the books alone, and orders are turned away. */
  lemma {:induction false} InactiveIsInert(d: Desk, m: Body, room: bool)
    requires d.phase != Active
    ensures var x := React(d, m, room);
      && x.desk.books == d.books
      && (m.NewOrder? || m.CancelOrder? ==> x.out == [OrderReject(m.clientOrderId, REASON_NOT_LOGGED_ON)])
  {
    hide RouteSubmit, RouteCancel, CanCancel;
  }

  /** A message of the session changes the books only after a logon and before any logout. */
  lemma {:induction false} OnlyActiveTouchesEngine(d: Desk, ts: seq<Turn>, k: nat)
    requires d.phase == NotLoggedOn
    requires k < |ts| && ts[k].Inbound?
    ensures Serve(d, ts[..k + 1]).books != Serve(d, ts[..k]).books ==> SawLogon(ts[..k]) && !SawLogout(ts[..k])
  {
    hide React, SawLogon, SawLogout;
    PhaseByHistory(d, ts[..k]);
    assert ts[..k + 1][..k] == ts[..k];
    assert Serve(d, ts[..k + 1]) == React(Serve(d, ts[..k]), ts[k].m, ts[k].room).desk;
    if Serve(d, ts[..k]).phase != Active {
      InactiveIsInert(Serve(d, ts[..k]), ts[k].m, ts[k].room);
    }
  }

  /** Closing is never left, whatever follows. */
  lemma {:induction false} ClosingIsFinal(d: Desk, ts: seq<Turn>, more: seq<Turn>)
    ensures Serve(d, ts).phase == Closing ==> Serve(d, ts + more).phase == Closing
  {
    if more == [] {
      assert ts + more == ts;
    } else {
      hide Take;
      var n := |more| - 1;
      ClosingIsFinal(d, ts, more[..n]);
      assert (ts + more)[..|ts + more| - 1] == ts + more[..n];
      PhaseAfterTurn(Serve(d, ts + more[..n]), more[n]);
    }
  }

  /** Only a logon makes a session Active, and it does so once: the client never changes after. */
  lemma {:induction false} ClientIsFixedOnceActive(d: Desk, ts: seq<Turn>, more: seq<Turn>)
    ensures Serve(d, ts).phase != NotLoggedOn ==>
      Serve(d, ts + more).phase != NotLoggedOn && Serve(d, ts + more).client == Serve(d, ts).client
  {
    if more == [] {
      assert ts + more == ts;
    } else {
      hide Take;
      var n := |more| - 1;
      ClientIsFixedOnceActive(d, ts, more[..n]);
      assert (ts + more)[..|ts + more| - 1] == ts + more[..n];
      PhaseAfterTurn(Serve(d, ts + more[..n]), more[n]);
    }
  }
}
