/**
 * Following one resting order through everything that happens to its book, and
 * what becomes of an order that the id index does not know: no cancel ever
 * reaches it.
 */
module Fates {
  import opened Types
  import opened PriceTime
  import opened BookRuns

  /** Where an order is, or how it left the book. */
  datatype Fate = At(k: nat) | TradedOut | CancelledOut

  /** Positions after order k has been taken out. */
  function Past(j: nat, k: nat): nat {
    if j <= k then j else j - 1
  }

  /** What matching does to order j. */
  function InMatch(book: Book, taker: OrderRec, j: nat): (f: Fate)
    requires Live(book) && taker.filled <= taker.initial && j < |book|
    ensures f.At? ==> f.k < |NaiveMatch(book, taker).book|
    decreases taker.Remaining()
  {
    if !CanTrade(book, taker) then At(j)
    else
      var k, book', taker' := TopIndex(book, Opposite(taker.side)), StepBook(book, taker), StepTaker(book, taker);
      if |book'| == |book| then InMatch(book', taker', j)
      else if j == k then TradedOut
      else InMatch(book', taker', Past(j, k))
  }

  /** What one operation does to order j. */
  function InOp(instrument: InstrumentId, book: Book, op: Op, j: nat): (f: Fate)
    requires Live(book) && j < |book| && (op.SubmitOp? ==> op.order.filled == 0)
    ensures f.At? ==> f.k < |AfterOp(instrument, book, op)|
  {
    match op
    case SubmitOp(o) => if Accepted(book, instrument, o) then InMatch(book, o, j) else At(j)
    case CancelOp(id) =>
      var k := IndexedAt(book, id);
      if k < 0 then At(j) else if j == k then CancelledOut else At(Past(j, k))
  }

  function AfterOp(instrument: InstrumentId, book: Book, op: Op): (b: Book)
    requires Live(book) && (op.SubmitOp? ==> op.order.filled == 0)
    ensures Live(b)
  {
    match op
    case SubmitOp(o) => NaiveSubmit(book, instrument, o).book
    case CancelOp(id) => NaiveCancel(book, id)
  }

  /** The same order, filled no less. */
  predicate SameOrder(before: OrderRec, after: OrderRec) {
    after == before.(filled := after.filled, status := after.status) && before.filled <= after.filled
  }

  /** The order is still there and still unknown to the index, or it has been traded away. */
  predicate OutOfIndex(before: OrderRec, book: Book, f: Fate) {
    match f
    case At(k) => k < |book| && !book[k].indexed && SameOrder(before, book[k].order)
    case TradedOut => true
    case CancelledOut => false
  }

  lemma {:induction false} OrphanInStep(book: Book, taker: OrderRec, j: nat)
    requires Live(book) && taker.filled <= taker.initial && CanTrade(book, taker) && j < |book| && !book[j].indexed
    ensures var k, book' := TopIndex(book, Opposite(taker.side)), StepBook(book, taker);
      && (|book'| == |book| ==> OutOfIndex(book[j].order, book', At(j)))
      && (|book'| != |book| && j != k ==> OutOfIndex(book[j].order, book', At(Past(j, k))))
  {
    var k := TopIndex(book, Opposite(taker.side));
    RemoveAtElements(book, k);
    hide RemoveAt, TopIndex, Crosses;
  }

  lemma {:induction false} OrphanInMatch(book: Book, taker: OrderRec, j: nat)
    requires Live(book) && taker.filled <= taker.initial && j < |book| && !book[j].indexed
    ensures OutOfIndex(book[j].order, NaiveMatch(book, taker).book, InMatch(book, taker, j))
    decreases taker.Remaining()
  {
    if CanTrade(book, taker) {
      hide StepBook, CanTrade, TopIndex;
      OrphanInStep(book, taker, j);
      var k, book', taker' := TopIndex(book, Opposite(taker.side)), StepBook(book, taker), StepTaker(book, taker);
      if |book'| == |book| {
        OrphanInMatch(book', taker', j);
      } else if j != k {
        OrphanInMatch(book', taker', Past(j, k));
      }
    }
  }

  /** Traded away means traded: some trade of the sweep names the order, at its price. */
  lemma {:induction false} TradedOutHasTrade(book: Book, taker: OrderRec, j: nat)
    requires Live(book) && taker.filled <= taker.initial && j < |book| && InMatch(book, taker, j).TradedOut?
    ensures exists t | t in NaiveMatch(book, taker).trades ::
              t.maker == book[j].order.id && t.price == book[j].order.price
    decreases taker.Remaining()
  {
    var k, book', taker' := TopIndex(book, Opposite(taker.side)), StepBook(book, taker), StepTaker(book, taker);
    var trades := NaiveMatch(book', taker').trades;
    assert NaiveMatch(book, taker).trades == [StepTrade(book, taker)] + trades;
    if |book'| == |book| || j != k {
      var i := if |book'| == |book| then j else Past(j, k);
      KeptInStep(book, taker, j);
      TradedOutHasTrade(book', taker', i);
      hide NaiveMatch, StepBook;
      var t :| t in trades && t.maker == book'[i].order.id && t.price == book'[i].order.price;
      assert t in NaiveMatch(book, taker).trades;
    } else {
      assert StepTrade(book, taker) in NaiveMatch(book, taker).trades;
    }
  }

  lemma {:induction false} KeptInStep(book: Book, taker: OrderRec, j: nat)
    requires Live(book) && taker.filled <= taker.initial && CanTrade(book, taker) && j < |book|
    ensures var k, book' := TopIndex(book, Opposite(taker.side)), StepBook(book, taker);
      && (|book'| == |book| ==> SameOrder(book[j].order, book'[j].order))
      && (|book'| != |book| && j != k ==> Past(j, k) < |book'| && SameOrder(book[j].order, book'[Past(j, k)].order))
  {
    RemoveAtElements(book, TopIndex(book, Opposite(taker.side)));
    hide RemoveAt, TopIndex, Crosses;
  }

  lemma {:induction false} OrphanInOp(instrument: InstrumentId, book: Book, op: Op, j: nat)
    requires Live(book) && j < |book| && !book[j].indexed && (op.SubmitOp? ==> op.order.filled == 0)
    ensures OutOfIndex(book[j].order, AfterOp(instrument, book, op), InOp(instrument, book, op, j))
  {
    match op
    case SubmitOp(o) =>
      hide NaiveMatch, InMatch, Accepted;
      if Accepted(book, instrument, o) {
        OrphanInMatch(book, o, j);
      }
    case CancelOp(id) =>
      var k := IndexedAt(book, id);
      if k >= 0 {
        RemoveAtElements(book, k);
        hide RemoveAt;
      }
  }

  // ---- Whole runs --------------------------------------------------------------------------

  /** The book after all these operations. */
  function AfterOps(instrument: InstrumentId, book: Book, ops: seq<Op>): (b: Book)
    requires Live(book) && RunOk(ops)
    ensures Live(b)
  {
    if ops == [] then book
    else AfterOp(instrument, AfterOps(instrument, book, ops[..|ops| - 1]), ops[|ops| - 1])
  }

  /** What all these operations do to order j. */
  function InOps(instrument: InstrumentId, book: Book, ops: seq<Op>, j: nat): (f: Fate)
    requires Live(book) && RunOk(ops) && j < |book|
    ensures f.At? ==> f.k < |AfterOps(instrument, book, ops)|
  {
    if ops == [] then At(j)
    else
      var n := |ops| - 1;
      var f := InOps(instrument, book, ops[..n], j);
      if f.At? then InOp(instrument, AfterOps(instrument, book, ops[..n]), ops[n], f.k) else f
  }

  lemma {:induction false} SameOrderTwice(a: OrderRec, b: OrderRec, c: OrderRec)
    requires SameOrder(a, b) && SameOrder(b, c)
    ensures SameOrder(a, c)
  {
  }

  /**
   * An order resting outside the index stays outside it through every later
   * submit and cancel, and leaves the book only by being traded away.
   */
  lemma {:induction false} OrphanIsNeverCancelled(instrument: InstrumentId, book: Book, ops: seq<Op>, j: nat)
    requires Live(book) && RunOk(ops) && j < |book| && !book[j].indexed
    ensures OutOfIndex(book[j].order, AfterOps(instrument, book, ops), InOps(instrument, book, ops, j))
  {
    hide AfterOp, InOp;
    if ops != [] {
      var n := |ops| - 1;
      OrphanIsNeverCancelled(instrument, book, ops[..n], j);
      var f := InOps(instrument, book, ops[..n], j);
      if f.At? {
        var b := AfterOps(instrument, book, ops[..n]);
        OrphanInOp(instrument, b, ops[n], f.k);
        var g := InOp(instrument, b, ops[n], f.k);
        if g.At? {
          SameOrderTwice(book[j].order, b[f.k].order, AfterOp(instrument, b, ops[n])[g.k].order);
        }
      }
    }
  }

  lemma {:induction false} RunUnfolds(instrument: InstrumentId, ops: seq<Op>, op: Op)
    requires RunOk(ops) && RunOk(ops + [op]) && (op.SubmitOp? ==> op.order.filled == 0)
    ensures Run(instrument, ops + [op]).book == AfterOp(instrument, Run(instrument, ops).book, op)
  {
    assert (ops + [op])[..|ops|] == ops;
    CancelIsNaive(Run(instrument, ops));
    hide NaiveSubmit, NaiveCancel, BookOk;
  }

  /** These are the runs of the ledger. */
  lemma {:induction false} RunGoesOn(instrument: InstrumentId, ops: seq<Op>, more: seq<Op>)
    requires RunOk(ops) && RunOk(more)
    ensures RunOk(ops + more)
    ensures Run(instrument, ops + more).book == AfterOps(instrument, Run(instrument, ops).book, more)
  {
    hide Run, AfterOp, BookOk;
    if more == [] {
      assert ops + more == ops;
    } else {
      var n := |more| - 1;
      RunGoesOn(instrument, ops, more[..n]);
      assert ops + more == ops + more[..n] + [more[n]];
      RunUnfolds(instrument, ops + more[..n], more[n]);
    }
  }

  lemma {:induction false} CancelIsNaive(s: Ledger)
    ensures forall id :: ApplyCancel(s, id).book == NaiveCancel(s.book, id)
  {
    hide RemoveAt;
  }

  /**
   * In every run: an order submitted under an indexed id, once it rests, is out
   * of reach of every cancel for as long as it rests.
   */
  lemma {:induction false} DuplicateIsNeverCancelled(instrument: InstrumentId, ops: seq<Op>, o: OrderRec, more: seq<Op>)
    requires RunOk(ops) && RunOk(more) && o.filled == 0
    requires WillRest(Run(instrument, ops).book, instrument, o)
    requires IdIndexed(NaiveMatch(Run(instrument, ops).book, o).book, o.id)
    ensures RunOk(ops + [SubmitOp(o)] + more)
    ensures var book := NaiveSubmit(Run(instrument, ops).book, instrument, o).book;
      && book != [] && SameOrder(o, book[|book| - 1].order)
      && OutOfIndex(book[|book| - 1].order, Run(instrument, ops + [SubmitOp(o)] + more).book,
                    InOps(instrument, book, more, |book| - 1))
  {
    hide Run, NaiveSubmit, NaiveMatch, InOps, AfterOps, OutOfIndex, WillRest;
    var before := Run(instrument, ops).book;
    var book := NaiveSubmit(before, instrument, o).book;
    RestsLast(instrument, before, o);
    LastIsUnindexed(NaiveMatch(before, o).book, NaiveSubmit(before, instrument, o).taker);
    assert RunOk(ops + [SubmitOp(o)]);
    RunUnfolds(instrument, ops, SubmitOp(o));
    RunGoesOn(instrument, ops + [SubmitOp(o)], more);
    OrphanIsNeverCancelled(instrument, book, more, |book| - 1);
  }

  lemma {:induction false} LastIsUnindexed(book: Book, o: OrderRec)
    requires IdIndexed(book, o.id)
    ensures Add(book, o) != [] && Add(book, o)[|book|] == Resting(o, false)
  {
  }

  lemma {:induction false} RestsLast(instrument: InstrumentId, book: Book, o: OrderRec)
    requires Live(book) && o.filled == 0 && WillRest(book, instrument, o)
    ensures var m, r := NaiveMatch(book, o), NaiveSubmit(book, instrument, o);
      && r.book == Add(m.book, r.taker) && r.taker.id == o.id && SameOrder(o, r.taker)
  {
    WillRestIff(book, instrument, o);
    hide NaiveMatch, Add, WillRest;
  }
}
