/**
 * Price-time priority on a flat, arrival-ordered list of resting orders: the
 * naive matcher that the book of price levels refines, and a closed form for
 * what each resting order receives.
 */
module PriceTime {
  import opened Types

  datatype Trade = Trade(
    maker: OrderId, taker: OrderId, instrument: InstrumentId, price: Price, quantity: Quantity)

  /** A resting order, and whether the id index of the book points at it. */
  datatype Resting = Resting(order: OrderRec, indexed: bool)

  type Book = seq<Resting>

  predicate PricesCross(takerSide: Side, takerLimit: Price, makerPrice: Price) {
    if takerSide == Buy then makerPrice <= takerLimit else makerPrice >= takerLimit
  }

  predicate Crosses(taker: OrderRec, makerPrice: Price) {
    taker.kind != Limit || PricesCross(taker.side, taker.price, makerPrice)
  }

  /** Among orders resting on `side`, price p goes strictly before price q. */
  predicate Better(side: Side, p: Price, q: Price) {
    if side == Buy then p > q else p < q
  }

  /** Resting orders always have something left to trade. */
  predicate Live(book: Book) {
    forall i | 0 <= i < |book| :: book[i].order.filled < book[i].order.initial
  }

  /** No two orders share side and price. */
  predicate AloneAtPrice(book: Book) {
    forall i, j | 0 <= i < j < |book| ::
      !(book[i].order.side == book[j].order.side && book[i].order.price == book[j].order.price)
  }

  type LiveBook = b: Book | Live(b) witness []

  /** Order k has the best price on `side` and is the earliest at that price. */
  predicate IsTop(book: Book, side: Side, k: int) {
    && 0 <= k < |book|
    && book[k].order.side == side
    && forall j | 0 <= j < |book| && book[j].order.side == side ::
         || Better(side, book[k].order.price, book[j].order.price)
         || (book[k].order.price == book[j].order.price && k <= j)
  }

  predicate NoneOn(book: Book, side: Side) {
    forall j | 0 <= j < |book| :: book[j].order.side != side
  }

  /** One scan in arrival order for the best price; -1 when the side is empty. */
  function TopIndex(book: Book, side: Side): (k: int)
    ensures k < 0 ==> k == -1 && NoneOn(book, side)
    ensures k >= 0 ==> IsTop(book, side, k)
  {
    if book == [] then -1
    else
      var n := |book| - 1;
      var k := TopIndex(book[..n], side);
      if book[n].order.side == side && (k < 0 || Better(side, book[n].order.price, book[k].order.price))
      then n else k
  }

  lemma {:induction false} TopIsUnique(book: Book, side: Side, k: int)
    requires IsTop(book, side, k)
    ensures TopIndex(book, side) == k
  {
    var t := TopIndex(book, side);
    assert book[k].order.side == side;
  }

  /** Erasing an id from the index. */
  function Unindex(book: Book, id: OrderId): (r: Book)
    ensures |r| == |book|
    ensures forall i | 0 <= i < |book| ::
              r[i] == Resting(book[i].order, book[i].indexed && book[i].order.id != id)
  {
    if book == [] then []
    else
      var last := book[|book| - 1];
      Unindex(book[..|book| - 1], id) + [Resting(last.order, last.indexed && last.order.id != id)]
  }

  function Without<T>(s: seq<T>, k: nat): seq<T>
    requires k < |s|
  {
    s[..k] + s[k + 1..]
  }

  /** Taking order k off the book erases its id from the index. */
  function RemoveAt(book: Book, k: nat): Book
    requires k < |book|
  {
    Unindex(Without(book, k), book[k].order.id)
  }

  lemma {:induction false} RemoveAtElements(book: Book, k: nat)
    requires k < |book|
    ensures |RemoveAt(book, k)| == |book| - 1
    ensures forall j | 0 <= j < |book| - 1 ::
      var r := book[if j < k then j else j + 1];
      RemoveAt(book, k)[j] == Resting(r.order, r.indexed && r.order.id != book[k].order.id)
  {
  }

  predicate IdIndexed(book: Book, id: OrderId) {
    exists i | 0 <= i < |book| :: book[i].indexed && book[i].order.id == id
  }

  /** Resting a new order; the index ignores an id it already holds. */
  function Add(book: Book, o: OrderRec): Book {
    book + [Resting(o, !IdIndexed(book, o.id))]
  }

  function Orders(book: Book): (r: seq<OrderRec>)
    ensures |r| == |book|
    ensures forall i | 0 <= i < |book| :: r[i] == book[i].order
  {
    if book == [] then [] else Orders(book[..|book| - 1]) + [book[|book| - 1].order]
  }

  function Min(a: Quantity, b: Quantity): Quantity {
    if a < b then a else b
  }

  /** Order k is filled by `fill`; it leaves the book once nothing remains. */
  function Hit(book: Book, k: nat, fill: Quantity): Book
    requires k < |book|
    requires book[k].order.filled + fill <= book[k].order.initial
  {
    var maker := book[k].order.(filled := book[k].order.filled + fill);
    if maker.IsFullyFilled() then RemoveAt(book, k)
    else book[k := Resting(maker.(status := PartiallyFilled), book[k].indexed)]
  }

  datatype Outcome = Outcome(book: Book, taker: OrderRec, trades: seq<Trade>)

  /** The taker still wants quantity and the best opposite order crosses it. */
  predicate CanTrade(book: Book, taker: OrderRec) {
    var k := TopIndex(book, Opposite(taker.side));
    taker.Remaining() > 0 && k >= 0 && Crosses(taker, book[k].order.price)
  }

  function StepFill(book: Book, taker: OrderRec): (fill: Quantity)
    requires Live(book) && taker.filled <= taker.initial && CanTrade(book, taker)
    ensures 0 < fill <= taker.Remaining()
  {
    Min(taker.Remaining(), book[TopIndex(book, Opposite(taker.side))].order.Remaining())
  }

  function StepBook(book: Book, taker: OrderRec): (r: Book)
    requires Live(book) && taker.filled <= taker.initial && CanTrade(book, taker)
    ensures Live(r)
  {
    Hit(book, TopIndex(book, Opposite(taker.side)), StepFill(book, taker))
  }

  function StepTaker(book: Book, taker: OrderRec): (r: OrderRec)
    requires Live(book) && taker.filled <= taker.initial && CanTrade(book, taker)
    ensures r.filled <= r.initial && r.Remaining() < taker.Remaining()
  {
    taker.(filled := taker.filled + StepFill(book, taker))
  }

  function StepTrade(book: Book, taker: OrderRec): Trade
    requires Live(book) && taker.filled <= taker.initial && CanTrade(book, taker)
  {
    var maker := book[TopIndex(book, Opposite(taker.side))].order;
    Trade(maker.id, taker.id, taker.instrument, maker.price, StepFill(book, taker))
  }

  /** Repeatedly trade with the best-priced, earliest-arrived opposite order. */
  function NaiveMatch(book: Book, taker: OrderRec): (r: Outcome)
    requires Live(book) && taker.filled <= taker.initial
    ensures Live(r.book) && r.taker.filled <= r.taker.initial
    ensures r.taker == taker.(filled := r.taker.filled) && taker.filled <= r.taker.filled
    ensures !CanTrade(r.book, r.taker)
    decreases taker.Remaining()
  {
    if !CanTrade(book, taker) then Outcome(book, taker, [])
    else
      var rest := NaiveMatch(StepBook(book, taker), StepTaker(book, taker));
      rest.(trades := [StepTrade(book, taker)] + rest.trades)
  }

  /** The checks made before matching, in the order they are made. */
  predicate PassesChecks(instrument: InstrumentId, o: OrderRec) {
    && o.initial != 0
    && o.instrument == instrument
    && !(o.kind == Limit && o.price <= 0)
    && !(o.kind == Market && (o.tif == GTC || o.tif == Day))
  }

  predicate Accepted(book: Book, instrument: InstrumentId, o: OrderRec)
    requires Live(book) && o.filled <= o.initial
  {
    && PassesChecks(instrument, o)
    && (o.tif == FOK ==> NaiveMatch(book, o).taker.IsFullyFilled())
  }

  /** An unfilled remainder of such an order goes onto the book. */
  predicate Rests(o: OrderRec) {
    !o.IsFullyFilled() && o.kind != Market && o.tif != IOC
  }

  function StatusAfterMatch(o: OrderRec): OrderStatus {
    if o.IsFullyFilled() then Filled
    else if o.filled > 0 then PartiallyFilled
    else if o.kind == Market || o.tif == IOC then Cancelled
    else New
  }

  /** What submitting an order does to a flat book. */
  function NaiveSubmit(book: Book, instrument: InstrumentId, o: OrderRec): (r: Outcome)
    requires Live(book) && o.filled <= o.initial
    ensures Live(r.book)
  {
    if !Accepted(book, instrument, o) then Outcome(book, o.(status := Rejected), [])
    else
      var m := NaiveMatch(book, o);
      var t := m.taker.(status := StatusAfterMatch(m.taker));
      Outcome(if Rests(t) then Add(m.book, t) else m.book, t, m.trades)
  }

  /** The position the index gives for an id; -1 when the id is not indexed. */
  function IndexedAt(book: Book, id: OrderId): (k: int)
    ensures k < 0 ==> k == -1 && !IdIndexed(book, id)
    ensures k >= 0 ==> k < |book| && book[k].indexed && book[k].order.id == id
  {
    if book == [] then -1
    else
      var n := |book| - 1;
      if book[n].indexed && book[n].order.id == id then n
      else IndexedAt(book[..n], id)
  }

  function NaiveCancel(book: Book, id: OrderId): (r: Book)
    ensures Live(book) ==> Live(r)
  {
    var k := IndexedAt(book, id);
    if k < 0 then book else RemoveAt(book, k)
  }
}
