/**
 * Whole runs of one book: what every sequence of submits and cancels keeps.
 * Quantities are conserved, the book is never crossed, and the id index stays
 * a bijection exactly while no order rests under an id that is taken.
 */
module BookRuns {
  import opened Types
  import opened PriceTime
  import opened Allocation
  import opened Sums

  datatype Op = SubmitOp(order: OrderRec) | CancelOp(id: OrderId)

  /** A book together with the quantities that passed through it. */
  datatype Ledger = Ledger(
    book: Book,
    trades: seq<Trade>,
    accepted: nat,   // initial quantity of the orders that were not rejected
    cancelled: nat,  // what cancelled orders had left
    dropped: nat)    // what orders that may not rest had left

  const EmptyLedger: Ledger := Ledger([], [], 0, 0, 0)

  /** What resting orders look like. */
  predicate SaneOrder(instrument: InstrumentId, o: OrderRec) {
    && o.filled < o.initial
    && o.instrument == instrument
    && o.kind != Market && (o.kind == Limit ==> o.price > 0)
    && o.tif != IOC && o.tif != FOK
    && o.status == if o.filled > 0 then PartiallyFilled else New
  }

  predicate Sane(instrument: InstrumentId, book: Book) {
    forall i | 0 <= i < |book| :: SaneOrder(instrument, book[i].order)
  }

  /** Every bid is below every ask. */
  predicate Uncrossed(book: Book) {
    forall i, j | 0 <= i < |book| && 0 <= j < |book| && book[i].order.side == Buy && book[j].order.side == Sell ::
      book[i].order.price < book[j].order.price
  }

  /** The index holds at most one order per id. */
  predicate IndexFunctional(book: Book) {
    forall i, j | 0 <= i < j < |book| && book[i].indexed && book[j].indexed :: book[i].order.id != book[j].order.id
  }

  /** The index and the resting orders are in bijection. */
  predicate IndexBijective(book: Book) {
    && (forall i | 0 <= i < |book| :: book[i].indexed)
    && (forall i, j | 0 <= i < j < |book| :: book[i].order.id != book[j].order.id)
  }

  predicate BookOk(instrument: InstrumentId, book: Book) {
    Sane(instrument, book) && Uncrossed(book) && IndexFunctional(book)
  }

  predicate IdResting(book: Book, id: OrderId) {
    exists i | 0 <= i < |book| :: book[i].order.id == id
  }

  // ---- Matching keeps the book in order -----------------------------------

  lemma {:induction false} RemoveKeepsOk(instrument: InstrumentId, book: Book, k: nat)
    requires BookOk(instrument, book) && k < |book|
    ensures BookOk(instrument, RemoveAt(book, k))
  {
    RemoveAtElements(book, k);
    hide RemoveAt;
  }

  lemma {:induction false} StepKeepsOk(instrument: InstrumentId, book: Book, taker: OrderRec)
    requires BookOk(instrument, book) && Live(book) && taker.filled <= taker.initial && CanTrade(book, taker)
    ensures BookOk(instrument, StepBook(book, taker))
  {
    hide RemoveAt, BookOk;
    var k := TopIndex(book, Opposite(taker.side));
    var fill := StepFill(book, taker);
    if book[k].order.filled + fill == book[k].order.initial {
      RemoveKeepsOk(instrument, book, k);
    } else {
      UpdateKeepsOk(instrument, book, k, book[k].order.filled + fill);
    }
  }

  lemma {:induction false} UpdateKeepsOk(instrument: InstrumentId, book: Book, k: nat, filled: Quantity)
    requires BookOk(instrument, book) && k < |book| && 0 < filled < book[k].order.initial
    ensures BookOk(instrument,
              book[k := Resting(book[k].order.(filled := filled, status := PartiallyFilled), book[k].indexed)])
  {
  }

  lemma {:induction false} MatchKeepsOk(instrument: InstrumentId, book: Book, taker: OrderRec)
    requires BookOk(instrument, book) && Live(book) && taker.filled <= taker.initial
    ensures BookOk(instrument, NaiveMatch(book, taker).book)
    decreases taker.Remaining()
  {
    if CanTrade(book, taker) {
      hide BookOk, StepBook, StepTaker, CanTrade;
      StepKeepsOk(instrument, book, taker);
      MatchKeepsOk(instrument, StepBook(book, taker), StepTaker(book, taker));
    }
  }

  /** Nothing on the opposite side crosses what a taker has left after matching. */
  lemma {:induction false} NothingCrossesLeftover(book: Book, taker: OrderRec)
    requires Live(book) && taker.filled < taker.initial && !CanTrade(book, taker)
    ensures forall j | 0 <= j < |book| && book[j].order.side == Opposite(taker.side) ::
              !Crosses(taker, book[j].order.price)
  {
    var k := TopIndex(book, Opposite(taker.side));
    if k < 0 {
      assert forall j | 0 <= j < |book| :: book[j].order.side != Opposite(taker.side);
    }
  }

  lemma {:induction false} AddKeepsOk(instrument: InstrumentId, book: Book, o: OrderRec)
    requires BookOk(instrument, book) && SaneOrder(instrument, o)
    requires forall j | 0 <= j < |book| && book[j].order.side == Opposite(o.side) :: !Crosses(o, book[j].order.price)
    ensures BookOk(instrument, Add(book, o))
  {
    assert forall i | 0 <= i < |book| && book[i].indexed && book[i].order.id == o.id :: IdIndexed(book, o.id);
  }

  /** Submitting keeps the book sane and uncrossed, whatever the order. */
  lemma {:induction false} SubmitKeepsOk(instrument: InstrumentId, book: Book, o: OrderRec)
    requires BookOk(instrument, book) && Live(book) && o.filled == 0
    ensures BookOk(instrument, NaiveSubmit(book, instrument, o).book)
  {
    hide BookOk, NaiveMatch, CanTrade;
    if Accepted(book, instrument, o) {
      var m := NaiveMatch(book, o);
      MatchKeepsOk(instrument, book, o);
      var t := m.taker.(status := StatusAfterMatch(m.taker));
      if Rests(t) {
        NothingCrossesLeftover(m.book, m.taker);
        AddKeepsOk(instrument, m.book, t);
      }
    }
  }

  lemma {:induction false} CancelKeepsOk(instrument: InstrumentId, book: Book, id: OrderId)
    requires BookOk(instrument, book)
    ensures BookOk(instrument, NaiveCancel(book, id))
  {
    hide BookOk, RemoveAt;
    var k := IndexedAt(book, id);
    if k >= 0 {
      RemoveKeepsOk(instrument, book, k);
    }
  }

  // ---- Fill or kill ---------------------------------------------------------

  /**
   * A fill-or-kill order is all or nothing: it is filled completely by trades
   * of exactly its quantity and does not rest, or it is rejected with the book
   * unchanged, and the crossing liquidity decides which.
   */
  lemma {:induction false} FillOrKillIsAtomic(book: Book, instrument: InstrumentId, o: OrderRec)
    requires Live(book) && o.filled == 0 && o.tif == FOK && PassesChecks(instrument, o)
    ensures var r := NaiveSubmit(book, instrument, o);
      if Liquidity(Orders(book), o) >= o.initial then
        && r.taker.status == Filled && r.taker.filled == o.initial
        && Traded(r.trades) == o.initial
        && r.book == NaiveMatch(book, o).book
      else
        r == Outcome(book, o.(status := Rejected), [])
  {
    MatchFillsFromLiquidity(book, o);
    TradedIsFilled(book, o);
    hide NaiveMatch, Liquidity, Traded;
  }

  // ---- Conservation ---------------------------------------------------------

  function Remains(orders: seq<OrderRec>): (ws: seq<nat>)
    ensures |ws| == |orders|
    ensures forall i | 0 <= i < |orders| :: ws[i] == orders[i].Remaining()
  {
    if orders == [] then [] else Remains(orders[..|orders| - 1]) + [orders[|orders| - 1].Remaining()]
  }

  /** What rests on the book, both sides together. */
  function RestingQty(book: Book): nat {
    Sum(Remains(Orders(book)))
  }

  lemma {:induction false} RestingQtyRemove(book: Book, k: nat)
    requires k < |book|
    ensures RestingQty(book) == RestingQty(RemoveAt(book, k)) + book[k].order.Remaining()
  {
    OrdersOfRemoveAt(book, k);
    var ws := Remains(Orders(book));
    assert Remains(Orders(RemoveAt(book, k))) == ws[..k] + ws[k + 1..];
    SumWithout(ws, k);
  }

  lemma {:induction false} RestingQtyUpdate(book: Book, k: nat, r: Resting)
    requires k < |book|
    ensures RestingQty(book[k := r]) + book[k].order.Remaining() == RestingQty(book) + r.order.Remaining()
  {
    var ws := Remains(Orders(book));
    assert Remains(Orders(book[k := r])) == ws[k := r.order.Remaining()];
    SumUpdate(ws, k, r.order.Remaining());
  }

  lemma {:induction false} RestingQtyAdd(book: Book, o: OrderRec)
    ensures RestingQty(Add(book, o)) == RestingQty(book) + o.Remaining()
  {
    var b := Add(book, o);
    assert Remains(Orders(b)) == Remains(Orders(book)) + [o.Remaining()];
    SumConcat(Remains(Orders(book)), [o.Remaining()]);
    SumOne(o.Remaining());
  }

  lemma {:induction false} StepTakesFill(book: Book, taker: OrderRec)
    requires Live(book) && taker.filled <= taker.initial && CanTrade(book, taker)
    ensures RestingQty(book) == RestingQty(StepBook(book, taker)) + StepFill(book, taker)
  {
    hide RestingQty, RemoveAt;
    var k := TopIndex(book, Opposite(taker.side));
    var filled := book[k].order.filled + StepFill(book, taker);
    if filled == book[k].order.initial {
      RestingQtyRemove(book, k);
    } else {
      RestingQtyUpdate(book, k,
        Resting(book[k].order.(filled := filled, status := PartiallyFilled), book[k].indexed));
    }
  }

  /** What the taker gets, the book loses. */
  lemma {:induction false} MatchTakesFilled(book: Book, taker: OrderRec)
    requires Live(book) && taker.filled <= taker.initial
    ensures var r := NaiveMatch(book, taker);
      RestingQty(book) == RestingQty(r.book) + (r.taker.filled - taker.filled)
    decreases taker.Remaining()
  {
    if CanTrade(book, taker) {
      hide RestingQty, StepBook, CanTrade;
      StepTakesFill(book, taker);
      MatchTakesFilled(StepBook(book, taker), StepTaker(book, taker));
    }
  }

  predicate Balanced(s: Ledger) {
    s.accepted == RestingQty(s.book) + 2 * Traded(s.trades) + s.cancelled + s.dropped
  }

  function ApplySubmit(instrument: InstrumentId, s: Ledger, o: OrderRec): Ledger
    requires Live(s.book) && o.filled <= o.initial
  {
    var r := NaiveSubmit(s.book, instrument, o);
    if r.taker.status == Rejected then s.(book := r.book)
    else
      Ledger(r.book, s.trades + r.trades, s.accepted + o.initial, s.cancelled,
             s.dropped + (if Rests(r.taker) then 0 else r.taker.Remaining()))
  }

  function ApplyCancel(s: Ledger, id: OrderId): Ledger {
    var k := IndexedAt(s.book, id);
    if k < 0 then s
    else s.(book := NaiveCancel(s.book, id), cancelled := s.cancelled + s.book[k].order.Remaining())
  }

  lemma {:induction false} SubmitBalances(instrument: InstrumentId, s: Ledger, o: OrderRec)
    requires Live(s.book) && o.filled == 0 && Balanced(s)
    ensures Balanced(ApplySubmit(instrument, s, o))
  {
    hide RestingQty, Traded, NaiveMatch, Add, CanTrade;
    if Accepted(s.book, instrument, o) {
      var m := NaiveMatch(s.book, o);
      var t := m.taker.(status := StatusAfterMatch(m.taker));
      MatchTakesFilled(s.book, o);
      TradedIsFilled(s.book, o);
      TradedConcat(s.trades, m.trades);
      RestingQtyAdd(m.book, t);
    }
  }

  lemma {:induction false} CancelBalances(s: Ledger, id: OrderId)
    requires Balanced(s)
    ensures Balanced(ApplyCancel(s, id))
  {
    hide RestingQty, Traded, RemoveAt;
    var k := IndexedAt(s.book, id);
    if k >= 0 {
      RestingQtyRemove(s.book, k);
    }
  }

  // ---- Runs -----------------------------------------------------------------

  predicate RunOk(ops: seq<Op>) {
    forall i | 0 <= i < |ops| && ops[i].SubmitOp? :: ops[i].order.filled == 0
  }

  /** Applies the operations in order, from the empty book. */
  function Run(instrument: InstrumentId, ops: seq<Op>): (s: Ledger)
    requires RunOk(ops)
    ensures BookOk(instrument, s.book) && Live(s.book)
  {
    if ops == [] then EmptyLedger
    else
      var n := |ops| - 1;
      var s := Run(instrument, ops[..n]);
      match ops[n]
      case SubmitOp(o) =>
        SubmitKeepsOk(instrument, s.book, o);
        ApplySubmit(instrument, s, o)
      case CancelOp(id) =>
        CancelKeepsOk(instrument, s.book, id);
        ApplyCancel(s, id)
  }

  /**
   * Over every run: accepted quantity equals what rests, plus twice what
   * traded, plus what was cancelled and what could not rest.
   */
  lemma {:induction false} QuantityIsConserved(instrument: InstrumentId, ops: seq<Op>)
    requires RunOk(ops)
    ensures Balanced(Run(instrument, ops))
  {
    if ops == [] {
      assert Quantities([]) == [];
    } else {
      var n := |ops| - 1;
      QuantityIsConserved(instrument, ops[..n]);
      var s := Run(instrument, ops[..n]);
      hide Balanced, ApplySubmit, ApplyCancel, BookOk;
      match ops[n]
      case SubmitOp(o) => SubmitBalances(instrument, s, o);
      case CancelOp(id) => CancelBalances(s, id);
    }
  }

  // ---- The id index -----------------------------------------------------------

  lemma {:induction false} RemoveKeepsBijective(book: Book, k: nat)
    requires IndexBijective(book) && k < |book|
    ensures IndexBijective(RemoveAt(book, k))
    ensures forall id :: IdResting(RemoveAt(book, k), id) ==> IdResting(book, id)
    ensures !IdResting(RemoveAt(book, k), book[k].order.id)
  {
    RemoveAtElements(book, k);
    var r := RemoveAt(book, k);
    hide RemoveAt;
    forall id | IdResting(r, id) ensures IdResting(book, id) {
      var j :| 0 <= j < |r| && r[j].order.id == id;
      assert book[if j < k then j else j + 1].order.id == id;
    }
  }

  lemma {:induction false} StepKeepsBijective(book: Book, taker: OrderRec)
    requires Live(book) && taker.filled <= taker.initial && CanTrade(book, taker) && IndexBijective(book)
    ensures IndexBijective(StepBook(book, taker))
    ensures forall id :: IdResting(StepBook(book, taker), id) ==> IdResting(book, id)
  {
    var k := TopIndex(book, Opposite(taker.side));
    var book' := StepBook(book, taker);
    if book' == RemoveAt(book, k) {
      RemoveKeepsBijective(book, k);
    } else {
      forall id | IdResting(book', id) ensures IdResting(book, id) {
        var j :| 0 <= j < |book'| && book'[j].order.id == id;
        assert book[j].order.id == id;
      }
    }
  }

  lemma {:induction false} MatchKeepsBijective(book: Book, taker: OrderRec)
    requires Live(book) && taker.filled <= taker.initial && IndexBijective(book)
    ensures IndexBijective(NaiveMatch(book, taker).book)
    ensures forall id :: IdResting(NaiveMatch(book, taker).book, id) ==> IdResting(book, id)
    decreases taker.Remaining()
  {
    if CanTrade(book, taker) {
      hide IndexBijective, IdResting, StepBook, CanTrade;
      StepKeepsBijective(book, taker);
      MatchKeepsBijective(StepBook(book, taker), StepTaker(book, taker));
    }
  }

  lemma {:induction false} AddBijectiveIff(book: Book, o: OrderRec)
    requires IndexBijective(book)
    ensures IndexBijective(Add(book, o)) <==> !IdResting(book, o.id)
  {
    var b := Add(book, o);
    if IdResting(book, o.id) {
      var i :| 0 <= i < |book| && book[i].order.id == o.id;
      assert b[i].order.id == b[|book|].order.id;
    }
  }

  /** The order is on the taker's own side, or its price does not cross the taker. */
  predicate OutOfReach(o: OrderRec, taker: OrderRec) {
    !(o.side == Opposite(taker.side) && Crosses(taker, o.price))
  }

  predicate IdOutOfReach(book: Book, taker: OrderRec, id: OrderId) {
    exists i | 0 <= i < |book| :: book[i].order.id == id && OutOfReach(book[i].order, taker)
  }

  /** A step after which the taker still wants some has removed a maker within reach. */
  lemma {:induction false} HungryStep(book: Book, taker: OrderRec)
    requires Live(book) && taker.filled <= taker.initial && CanTrade(book, taker)
    requires StepTaker(book, taker).filled < taker.initial
    ensures var k := TopIndex(book, Opposite(taker.side));
      && 0 <= k < |book| && !OutOfReach(book[k].order, taker) && StepBook(book, taker) == RemoveAt(book, k)
  {
    hide TopIndex, RemoveAt;
  }

  /** The orders out of the taker's reach, in order. */
  function Unreached(orders: seq<OrderRec>, taker: OrderRec): seq<OrderRec> {
    if orders == [] then []
    else
      var n := |orders| - 1;
      Unreached(orders[..n], taker) + (if OutOfReach(orders[n], taker) then [orders[n]] else [])
  }

  lemma {:induction false} UnreachedWithout(orders: seq<OrderRec>, taker: OrderRec, k: nat)
    requires k < |orders| && !OutOfReach(orders[k], taker)
    ensures Unreached(Without(orders, k), taker) == Unreached(orders, taker)
  {
    hide OutOfReach;
    var n := |orders| - 1;
    if k == n {
      assert Without(orders, k) == orders[..n];
    } else {
      UnreachedWithout(orders[..n], taker, k);
      var w := Without(orders, k);
      assert w[..n - 1] == Without(orders[..n], k) && w[n - 1] == orders[n];
    }
  }

  lemma {:induction false} AllUnreached(orders: seq<OrderRec>, taker: OrderRec)
    requires forall i | 0 <= i < |orders| :: OutOfReach(orders[i], taker)
    ensures Unreached(orders, taker) == orders
  {
    if orders != [] {
      AllUnreached(orders[..|orders| - 1], taker);
    }
  }

  lemma {:induction false} UnreachedIgnoresFilled(orders: seq<OrderRec>, taker: OrderRec, taker': OrderRec)
    requires taker' == taker.(filled := taker'.filled)
    ensures Unreached(orders, taker) == Unreached(orders, taker')
  {
    if orders != [] {
      UnreachedIgnoresFilled(orders[..|orders| - 1], taker, taker');
    }
  }

  /** A taker left unfilled has taken exactly the orders within its reach; the others are as they were. */
  lemma {:induction false} UnfilledTakesAll(book: Book, taker: OrderRec)
    requires Live(book) && taker.filled <= taker.initial && NaiveMatch(book, taker).taker.filled < taker.initial
    ensures Orders(NaiveMatch(book, taker).book) == Unreached(Orders(book), taker)
    decreases taker.Remaining()
  {
    if !CanTrade(book, taker) {
      NothingCrossesLeftover(book, taker);
      AllUnreached(Orders(book), taker);
    } else {
      hide StepBook, CanTrade, RemoveAt, Orders, TopIndex, Unreached;
      var k, taker' := TopIndex(book, Opposite(taker.side)), StepTaker(book, taker);
      HungryStep(book, taker);
      UnfilledTakesAll(StepBook(book, taker), taker');
      OrdersOfRemoveAt(book, k);
      UnreachedWithout(Orders(book), taker, k);
      UnreachedIgnoresFilled(Without(Orders(book), k), taker, taker');
    }
  }

  /** So an id rests afterwards if and only if some order of that id was out of reach. */
  lemma {:induction false} UnreachedIds(orders: seq<OrderRec>, taker: OrderRec, id: OrderId)
    ensures (exists o | o in Unreached(orders, taker) :: o.id == id)
       <==> (exists o | o in orders :: o.id == id && OutOfReach(o, taker))
  {
    hide OutOfReach;
    if orders != [] {
      var n := |orders| - 1;
      UnreachedIds(orders[..n], taker, id);
      assert orders == orders[..n] + [orders[n]];
    }
  }

  lemma {:induction false} UnfilledKeepsIds(book: Book, taker: OrderRec, id: OrderId)
    requires Live(book) && taker.filled <= taker.initial && NaiveMatch(book, taker).taker.filled < taker.initial
    ensures IdResting(NaiveMatch(book, taker).book, id) <==> IdOutOfReach(book, taker, id)
  {
    hide NaiveMatch, Unreached, OutOfReach, Orders;
    UnfilledTakesAll(book, taker);
    UnreachedIds(Orders(book), taker, id);
    IdsOfOrders(NaiveMatch(book, taker).book, taker, id);
    IdsOfOrders(book, taker, id);
  }

  lemma {:induction false} IdsOfOrders(book: Book, taker: OrderRec, id: OrderId)
    ensures IdResting(book, id) <==> exists o | o in Orders(book) :: o.id == id
    ensures IdOutOfReach(book, taker, id) <==> exists o | o in Orders(book) :: o.id == id && OutOfReach(o, taker)
  {
    hide OutOfReach;
    assert forall i | 0 <= i < |book| :: book[i].order in Orders(book);
    if o :| o in Orders(book) && o.id == id {
      var i :| 0 <= i < |book| && Orders(book)[i] == o;
      assert book[i].order.id == id;
    }
    if o :| o in Orders(book) && o.id == id && OutOfReach(o, taker) {
      var i :| 0 <= i < |book| && Orders(book)[i] == o;
      assert book[i].order.id == id;
    }
  }

  /** The order will come to rest: it passes the checks, may rest, and the book cannot fill it. */
  predicate WillRest(book: Book, instrument: InstrumentId, o: OrderRec) {
    && PassesChecks(instrument, o) && o.kind != Market && o.tif != IOC && o.tif != FOK
    && Liquidity(Orders(book), o) < o.initial
  }

  lemma {:induction false} WillRestIff(book: Book, instrument: InstrumentId, o: OrderRec)
    requires Live(book) && o.filled == 0
    ensures var r := NaiveSubmit(book, instrument, o);
      && (r.taker.status != Rejected && Rests(r.taker) <==> WillRest(book, instrument, o))
      && (WillRest(book, instrument, o) ==> NaiveMatch(book, o).taker.filled < o.initial)
  {
    hide NaiveMatch, Liquidity, Orders, Add, CanTrade;
    MatchFillsFromLiquidity(book, o);
  }

  /**
   * Submitting keeps the index a bijection unless the order will come to rest
   * while its id belongs to a resting order that it cannot consume.
   */
  lemma {:induction false} SubmitBijectiveIff(book: Book, instrument: InstrumentId, o: OrderRec)
    requires Live(book) && o.filled == 0 && IndexBijective(book)
    ensures IndexBijective(NaiveSubmit(book, instrument, o).book)
       <==> !(WillRest(book, instrument, o) && IdOutOfReach(book, o, o.id))
  {
    hide NaiveMatch, IndexBijective, IdResting, Add, CanTrade, IdOutOfReach, WillRest;
    MatchKeepsBijective(book, o);
    WillRestIff(book, instrument, o);
    var m := NaiveMatch(book, o);
    AddBijectiveIff(m.book, m.taker.(status := StatusAfterMatch(m.taker)));
    if WillRest(book, instrument, o) {
      UnfilledKeepsIds(book, o, o.id);
    }
  }

  lemma {:induction false} OutOfReachRests(book: Book, taker: OrderRec, id: OrderId)
    ensures IdOutOfReach(book, taker, id) ==> IdResting(book, id)
  {
    if IdOutOfReach(book, taker, id) {
      var i :| 0 <= i < |book| && book[i].order.id == id && OutOfReach(book[i].order, taker);
      assert book[i].order.id == id;
    }
  }

  /** Each submitted id is free at the time. */
  predicate FreshIds(instrument: InstrumentId, ops: seq<Op>)
    requires RunOk(ops)
  {
    forall n | 0 <= n < |ops| && ops[n].SubmitOp? ::
      !IdResting(Run(instrument, ops[..n]).book, ops[n].order.id)
  }

  /** With fresh ids the index is a bijection with the resting orders after every run. */
  lemma {:induction false} FreshRunIsBijective(instrument: InstrumentId, ops: seq<Op>)
    requires RunOk(ops) && FreshIds(instrument, ops)
    ensures IndexBijective(Run(instrument, ops).book)
  {
    if ops != [] {
      var n := |ops| - 1;
      forall k | 0 <= k < n && ops[..n][k].SubmitOp?
        ensures !IdResting(Run(instrument, ops[..n][..k]).book, ops[..n][k].order.id)
      {
        assert ops[..n][..k] == ops[..k];
      }
      FreshRunIsBijective(instrument, ops[..n]);
      var s := Run(instrument, ops[..n]);
      hide IndexBijective, IdResting, BookOk;
      match ops[n]
      case SubmitOp(o) =>
        OutOfReachRests(s.book, o, o.id);
        SubmitBijectiveIff(s.book, instrument, o);
      case CancelOp(id) =>
        var k := IndexedAt(s.book, id);
        if k >= 0 {
          RemoveKeepsBijective(s.book, k);
        }
    }
  }

  /** With a bijective index, cancelling an id takes exactly the order of that id off the book. */
  lemma {:induction false} CancelFindsId(book: Book, id: OrderId)
    requires IndexBijective(book)
    ensures IdIndexed(book, id) <==> IdResting(book, id)
    ensures !IdResting(NaiveCancel(book, id), id)
    ensures IdResting(book, id) ==>
      exists k | 0 <= k < |book| :: book[k].order.id == id && Orders(NaiveCancel(book, id)) == Without(Orders(book), k)
  {
    var k := IndexedAt(book, id);
    if k >= 0 {
      RemoveKeepsBijective(book, k);
      OrdersOfRemoveAt(book, k);
    }
    hide RemoveAt;
  }

  /**
   * An order that rests under a taken id is never indexed: cancelling the id
   * takes off the other order, and cancelling it again finds nothing.
   */
  lemma {:induction false} DuplicateIsOrphaned(book: Book, o: OrderRec)
    requires IndexFunctional(book) && IdIndexed(book, o.id)
    ensures var b := NaiveCancel(Add(book, o), o.id);
      && |b| == |book|
      && b[|b| - 1] == Resting(o, false)
      && NaiveCancel(b, o.id) == b
  {
    var a := Add(book, o);
    var i :| 0 <= i < |book| && book[i].indexed && book[i].order.id == o.id;
    assert a[i].indexed && a[i].order.id == o.id;
    var k := IndexedAt(a, o.id);
    RemoveAtElements(a, k);
    var b := RemoveAt(a, k);
    hide RemoveAt;
    assert !IdIndexed(b, o.id);
  }

  lemma {:induction false} CancelUndoesAdd(book: Book, o: OrderRec)
    requires !IdResting(book, o.id)
    ensures NaiveCancel(Add(book, o), o.id) == book
  {
    assert forall i | 0 <= i < |book| :: book[i].order.id != o.id;
    var b := Add(book, o);
    assert IndexedAt(b, o.id) == |book|;
    RemoveAtElements(b, |book|);
    hide RemoveAt;
    assert forall i | 0 <= i < |book| :: RemoveAt(b, |book|)[i] == book[i];
  }

  /**
   * Cancelling an order that has just come to rest under a fresh id undoes the
   * resting and nothing else: what is left is the book after its trades, which
   * is the book before if it did not trade.
   */
  lemma {:induction false} CancelUndoesSubmit(book: Book, instrument: InstrumentId, o: OrderRec)
    requires Live(book) && o.filled == 0 && IndexBijective(book) && !IdResting(book, o.id)
    requires WillRest(book, instrument, o)
    ensures var r := NaiveSubmit(book, instrument, o);
      && NaiveCancel(r.book, o.id) == NaiveMatch(book, o).book
      && (r.trades == [] ==> NaiveCancel(r.book, o.id) == book)
  {
    WillRestIff(book, instrument, o);
    MatchKeepsBijective(book, o);
    NoTradesNoChange(book, o);
    var m := NaiveMatch(book, o);
    var t := m.taker.(status := StatusAfterMatch(m.taker));
    hide NaiveMatch, IndexBijective, IdResting, Add, CanTrade, NaiveCancel, WillRest;
    CancelUndoesAdd(m.book, t);
  }

  lemma {:induction false} NoTradesNoChange(book: Book, taker: OrderRec)
    requires Live(book) && taker.filled <= taker.initial
    ensures NaiveMatch(book, taker).trades == [] ==> NaiveMatch(book, taker).book == book
  {
  }

  /** A bid of 5 at price 100 under id 7. */
  const SomeBid: OrderRec := OrderRec(7, 100, 5, 0, 1, 1, New, Buy, Limit, GTC)

  lemma {:induction false} SomeBidRests(book: LiveBook)
    requires forall i | 0 <= i < |book| :: book[i].order.side == Buy
    ensures NaiveSubmit(book, 1, SomeBid).book == Add(book, SomeBid)
  {
    assert !CanTrade(book, SomeBid);
  }

  /** Submitting the same id twice leaves an order that the index does not know. */
  lemma {:induction false} SameIdTwice()
    ensures var b := NaiveSubmit([], 1, SomeBid).book;
      && IndexBijective(b) && !IndexBijective(NaiveSubmit(b, 1, SomeBid).book)
  {
    SomeBidRests([]);
    var b := Add([], SomeBid);
    SomeBidRests(b);
    assert b == [Resting(SomeBid, true)];
    assert b[0].order.id == SomeBid.id;
    AddBijectiveIff(b, SomeBid);
  }
}
