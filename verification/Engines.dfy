/**
 * Routing by instrument (src/matching/engine.cpp): one matcher per instrument
 * over a shared pool, proved against a map of flat books.
 */
module Engines {
  import opened Types
  import opened PriceTime
  import opened PriceLevels
  import opened Tickets
  import opened OrderBooks
  import opened Pools
  import opened Matchers

  /** The books of an engine as flat lists. */
  type Books = map<InstrumentId, LiveBook>

  datatype Reply = Reply(books: Books, order: OrderRec, trades: seq<Trade>)

  /** What submitting does: an unknown instrument rejects, a known one decides alone. */
  function RouteSubmit(books: Books, o: OrderRec): Reply
    requires o.filled <= o.initial
  {
    if o.instrument !in books then Reply(books, o.(status := Rejected), [])
    else
      var r := NaiveSubmit(books[o.instrument], o.instrument, o);
      Reply(books[o.instrument := r.book], r.taker, r.trades)
  }

  function RouteCancel(books: Books, instrument: InstrumentId, id: OrderId): Books {
    if instrument !in books then books else books[instrument := NaiveCancel(books[instrument], id)]
  }

  predicate CanCancel(books: Books, instrument: InstrumentId, id: OrderId) {
    instrument in books && IdIndexed(books[instrument], id)
  }

  /** Nothing a book consists of was touched. */
  twostate predicate BookKept(b: OrderBook, levels: set<PriceLevel>, orders: set<Order>)
    reads b, levels, orders
  {
    && unchanged(b)
    && (forall l | l in levels :: unchanged(l))
    && (forall o | o in orders :: unchanged(o))
  }

  twostate lemma {:induction false} KeptBookIsSame(b: OrderBook)
    requires BookKept(b, old(b.LevelSet()), old(b.OrderSet()))
    ensures b.LevelSet() == old(b.LevelSet()) && b.OrderSet() == old(b.OrderSet())
    ensures b.Valid() == old(b.Valid()) && b.View() == old(b.View())
  {
  }

  lemma {:induction false} OneBookChanged(before: Books, after: Books, i: InstrumentId, b: LiveBook)
    requires before.Keys == after.Keys && i in after && after[i] == b
    requires forall j | j in before && j != i :: after[j] == before[j]
    ensures after == before[i := b]
  {
  }

  lemma {:induction false} PoolInOrder(m: Matcher)
    requires m.Valid()
    ensures m.pool.Valid()
  {
  }

  lemma {:induction false} EmptyMatcher(m: Matcher)
    requires m.book.Valid() && m.pool.Valid() && m.book.tickets == [] && m.book.bids == map[] && m.book.asks == map[]
    ensures m.Valid() && m.book.View() == [] && m.book.LevelSet() == {} && m.book.OrderSet() == {}
  {
  }

  class Engine {
    const pool: Pool
    var matchers: map<InstrumentId, Matcher>
    var bookPtrs: map<InstrumentId, OrderBook>

    ghost function BookSet(): set<OrderBook>
      reads this
    {
      set i | i in matchers :: matchers[i].book
    }

    ghost function AllLevels(): set<PriceLevel>
      reads this, BookSet()
    {
      set i, l | i in matchers && l in matchers[i].book.LevelSet() :: l
    }

    ghost function AllOrders(): set<Order>
      reads this, BookSet()
    {
      set i, o | i in matchers && o in matchers[i].book.OrderSet() :: o
    }

    /** The matcher of instrument i is in order, and keyed by its own book. */
    ghost predicate SlotOk(i: InstrumentId)
      requires i in matchers
      reads this, BookSet(), AllLevels(), AllOrders(), pool, pool.freeSlots
    {
      var m := matchers[i];
      && m.book in BookSet() && m.book.LevelSet() <= AllLevels() && m.book.OrderSet() <= AllOrders()
      && m.pool == pool
      && m.book.instrument == i
      && m.Valid()
    }

    /** Two books share no book object, level or order. */
    ghost predicate Apart(i: InstrumentId, j: InstrumentId)
      requires i in matchers && j in matchers
      reads this, BookSet()
    {
      var a, b := matchers[i].book, matchers[j].book;
      && a in BookSet() && b in BookSet()
      && a != b && a.LevelSet() !! b.LevelSet() && a.OrderSet() !! b.OrderSet()
    }

    ghost predicate Valid()
      reads this, BookSet(), AllLevels(), AllOrders(), pool, pool.freeSlots
    {
      && pool.Valid()
      && bookPtrs.Keys == matchers.Keys
      && (forall i | i in matchers :: bookPtrs[i] == matchers[i].book)
      && (forall i {:trigger SlotOk(i)} | i in matchers :: SlotOk(i))
      && (forall i, j {:trigger Apart(i, j)} | i in matchers && j in matchers && i != j :: Apart(i, j))
    }

    ghost function View(): (r: Books)
      requires Valid()
      reads this, BookSet(), AllLevels(), AllOrders(), pool, pool.freeSlots
      ensures r.Keys == matchers.Keys
      ensures forall i {:trigger r[i]} | i in matchers :: r[i] == matchers[i].book.View()
    {
      assert forall i | i in matchers :: SlotOk(i);
      map i | i in matchers :: matchers[i].book.View()
    }

    /** A slot in the hands of a caller: neither free nor resting in any book. */
    ghost predicate Held(o: Order)
      requires pool.Valid()
      reads this, BookSet(), pool, pool.freeSlots
    {
      o in pool.Slots() && o !in pool.FreeSet() && o !in AllOrders()
    }

    constructor (pool: Pool)
      requires pool.Valid()
      ensures Valid() && this.pool == pool && View() == map[] && AllOrders() == {} && BookSet() == {}
    {
      this.pool := pool;
      matchers, bookPtrs := map[], map[];
    }

    // ---- One matcher at work --------------------------------------------------

    twostate lemma {:induction false} OtherSlotOk(new i: InstrumentId, new j: InstrumentId)
      requires old(Valid()) && i in old(matchers) && j in old(matchers) && i != j
      requires matchers == old(matchers)
      requires BookKept(matchers[j].book, old(matchers[j].book.LevelSet()), old(matchers[j].book.OrderSet()))
      requires pool.Valid() && pool.FreeSet() <= old(pool.FreeSet()) + old(matchers[i].book.OrderSet())
      ensures SlotOk(j)
    {
      hide OrderBook.Valid, OrderBook.View, Pool.Valid;
      assert old(SlotOk(j)) && old(Apart(i, j));
      KeptBookIsSame(matchers[j].book);
    }

    /** Nothing of the book of instrument j was touched. */
    twostate predicate SlotKept(new j: InstrumentId)
      requires j in old(matchers)
      reads *
    {
      var b := old(matchers)[j].book;
      BookKept(b, old(b.LevelSet()), old(b.OrderSet()))
    }

    /** Only the book of instrument i was worked on, and it took in at most new levels and `taken`. */
    twostate predicate OnlySlot(new i: InstrumentId, taken: set<Order>)
      requires i in old(matchers) && old(pool.Valid())
      reads *
    {
      && matchers == old(matchers) && bookPtrs == old(bookPtrs)
      && pool.Valid() && pool.FreeSet() <= old(pool.FreeSet()) + old(matchers[i].book.OrderSet())
      && fresh(matchers[i].book.LevelSet() - old(matchers[i].book.LevelSet()))
      && matchers[i].book.OrderSet() <= old(matchers[i].book.OrderSet()) + taken
      && forall j {:trigger SlotKept(j)} | j in old(matchers) && j != i :: SlotKept(j)
    }

    /** Nothing the engine consists of was touched. */
    twostate predicate Untouched()
      reads *
    {
      && unchanged(this) && unchanged(pool) && unchanged(pool.freeSlots)
      && (forall b | b in old(BookSet()) :: unchanged(b))
      && (forall l | l in old(AllLevels()) :: unchanged(l))
      && (forall o | o in old(AllOrders()) :: unchanged(o))
    }

    /** If no book was touched, nothing was. */
    twostate lemma {:induction false} AllSlotsKept()
      requires unchanged(this) && unchanged(pool) && unchanged(pool.freeSlots)
      requires forall j {:trigger SlotKept(j)} | j in old(matchers) :: SlotKept(j)
      ensures Untouched()
    {
      forall b | b in old(BookSet()) ensures unchanged(b) {
        var j :| j in old(matchers) && old(matchers[j].book) == b;
        assert SlotKept(j);
      }
      forall l | l in old(AllLevels()) ensures unchanged(l) {
        var j :| j in old(matchers) && l in old(matchers[j].book.LevelSet());
        assert SlotKept(j);
      }
      forall o | o in old(AllOrders()) ensures unchanged(o) {
        var j :| j in old(matchers) && o in old(matchers[j].book.OrderSet());
        assert SlotKept(j);
      }
    }

    twostate lemma {:induction false} OthersKept(new i: InstrumentId, taken: set<Order>, new j: InstrumentId)
      requires i in old(matchers) && j in old(matchers) && i != j && old(pool.Valid())
      requires OnlySlot(i, taken)
      ensures BookKept(matchers[j].book, old(matchers[j].book.LevelSet()), old(matchers[j].book.OrderSet()))
      ensures matchers[j].book.LevelSet() == old(matchers[j].book.LevelSet())
      ensures matchers[j].book.OrderSet() == old(matchers[j].book.OrderSet())
    {
      hide OrderBook.Valid, OrderBook.View, Pool.Valid, Matcher.Valid, AllLevels, AllOrders, OrderBook.LevelSet;
      assert SlotKept(j);
      KeptBookIsSame(matchers[j].book);
    }

    twostate lemma {:induction false} StillApart(new i: InstrumentId, taken: set<Order>, new j: InstrumentId)
      requires i in old(matchers) && j in old(matchers) && i != j && taken !! old(AllOrders())
      requires old(SlotOk(j)) && old(Apart(i, j)) && old(pool.Valid())
      requires OnlySlot(i, taken)
      ensures Apart(i, j) && Apart(j, i)
    {
      hide OrderBook.Valid, OrderBook.View, Pool.Valid, Matcher.Valid, AllLevels, AllOrders;
      OthersKept(i, taken, j);
    }

    /** Everything of instrument j that survives work on instrument i. */
    twostate lemma {:induction false} OtherAfterSlot(new i: InstrumentId, taken: set<Order>, new j: InstrumentId)
      requires old(Valid()) && i in old(matchers) && j in old(matchers) && i != j && taken !! old(AllOrders())
      requires OnlySlot(i, taken)
      ensures SlotOk(j) && Apart(i, j) && Apart(j, i)
      ensures matchers[j].book.OrderSet() == old(matchers[j].book.OrderSet())
    {
      assert old(SlotOk(j)) && old(Apart(i, j));
      hide Valid, SlotOk, Apart, AllLevels, AllOrders;
      OthersKept(i, taken, j);
      StillApart(i, taken, j);
      OtherSlotOk(i, j);
    }

    twostate lemma {:induction false} OthersApart(
        new i: InstrumentId, taken: set<Order>, new j: InstrumentId, new j': InstrumentId)
      requires i in old(matchers) && j in old(matchers) && i != j && taken !! old(AllOrders()) && old(pool.Valid())
      requires j' in old(matchers) && j' != i && j' != j
      requires old(SlotOk(j)) && old(SlotOk(j')) && old(Apart(j, j')) && old(Apart(i, j)) && old(Apart(i, j'))
      requires OnlySlot(i, taken)
      ensures Apart(j, j')
    {
      OthersKept(i, taken, j);
      OthersKept(i, taken, j');
      hide SlotOk, AllLevels, AllOrders, OrderBook.LevelSet, OrderBook.OrderSet;
    }

    twostate lemma {:induction false} ApartAfterSlot(
        new i: InstrumentId, taken: set<Order>, new j: InstrumentId, new j': InstrumentId)
      requires old(Valid()) && i in old(matchers) && taken !! old(AllOrders())
      requires j in old(matchers) && j' in old(matchers) && j != j'
      requires OnlySlot(i, taken)
      ensures Apart(j, j')
    {
      hide SlotOk, AllLevels, AllOrders, OnlySlot, Apart, BookSet;
      assert old(SlotOk(j)) && old(SlotOk(j')) && old(Apart(j, j'));
      if i == j {
        StillApart(i, taken, j');
      } else if i == j' {
        assert old(Apart(i, j));
        StillApart(i, taken, j);
      } else {
        assert old(Apart(i, j)) && old(Apart(i, j'));
        OthersApart(i, taken, j, j');
      }
    }

    twostate lemma {:induction false} SlotAfterWork(new i: InstrumentId, taken: set<Order>)
      requires i in old(matchers) && old(pool.Valid()) && old(SlotOk(i))
      requires OnlySlot(i, taken)
      requires matchers[i].Valid()
      ensures SlotOk(i)
    {
      hide OrderBook.Valid, OrderBook.View, Pool.Valid, Matcher.Valid, Apart;
    }

    twostate lemma {:induction false} ValidAfterSlot(new i: InstrumentId, taken: set<Order>)
      requires old(Valid()) && i in old(matchers) && taken !! old(AllOrders())
      requires OnlySlot(i, taken)
      requires matchers[i].Valid()
      ensures Valid()
    {
      hide OrderBook.Valid, OrderBook.View, Pool.Valid, Matcher.Valid, Apart, SlotOk, AllLevels, AllOrders, BookSet;
      assert old(SlotOk(i));
      SlotAfterWork(i, taken);
      forall j | j in matchers ensures SlotOk(j) {
        if j != i {
          OtherAfterSlot(i, taken, j);
        }
      }
      forall j, j' | j in matchers && j' in matchers && j != j' ensures Apart(j, j') {
        ApartAfterSlot(i, taken, j, j');
      }
    }

    twostate lemma {:induction false} OrdersAfterSlot(new i: InstrumentId, taken: set<Order>)
      requires old(Valid()) && i in old(matchers) && OnlySlot(i, taken) && taken !! old(AllOrders())
      ensures old(AllOrders()) - AllOrders() == old(matchers[i].book.OrderSet()) - matchers[i].book.OrderSet()
      ensures AllOrders() <= old(AllOrders()) + taken
      ensures forall o | o in taken :: o in AllOrders() <==> o in matchers[i].book.OrderSet()
    {
      hide OrderBook.OrderSet, OrderBook.LevelSet, AllLevels;
      assert old(SlotOk(i));
      hide SlotOk;
      forall j | j in matchers && j != i
        ensures matchers[j].book.OrderSet() == old(matchers[j].book.OrderSet())
        ensures matchers[j].book.OrderSet() !! old(matchers[i].book.OrderSet())
        ensures matchers[j].book.OrderSet() <= old(AllOrders())
      {
        OthersKept(i, taken, j);
        assert old(Apart(i, j));
      }
    }

    /** Work on one book brings in no level but new ones. */
    twostate lemma {:induction false} LevelsAfterSlot(new i: InstrumentId, taken: set<Order>)
      requires old(Valid()) && i in old(matchers) && OnlySlot(i, taken)
      ensures fresh(AllLevels() - old(AllLevels()))
    {
      hide SlotOk, Apart, Pool.Valid, OrderBook.OrderSet, OrderBook.LevelSet, AllOrders;
      forall j | j in matchers && j != i ensures matchers[j].book.LevelSet() == old(matchers[j].book.LevelSet()) {
        OthersKept(i, taken, j);
      }
    }

    lemma {:induction false} SlotFacts(i: InstrumentId)
      requires Valid() && i in matchers
      ensures matchers[i].Valid() && matchers[i].pool == pool && matchers[i].book.instrument == i
      ensures matchers[i].book in BookSet()
      ensures matchers[i].book.LevelSet() <= AllLevels() && matchers[i].book.OrderSet() <= AllOrders()
    {
      assert SlotOk(i);
    }

    lemma {:induction false} OthersFacts(i: InstrumentId)
      requires Valid() && i in matchers
      ensures forall j {:trigger Apart(i, j)} | j in matchers && j != i ::
                Apart(i, j) && matchers[j].book.OrderSet() <= AllOrders()
    {
      forall j | j in matchers && j != i ensures Apart(i, j) && matchers[j].book.OrderSet() <= AllOrders() {
        assert SlotOk(j);
      }
    }

    twostate lemma {:induction false} SameBookView(new i: InstrumentId, taken: set<Order>, new j: InstrumentId)
      requires i in old(matchers) && j in old(matchers) && i != j && old(pool.Valid()) && OnlySlot(i, taken)
      ensures matchers[j].book.View() == old(matchers[j].book.View())
    {
      OthersKept(i, taken, j);
      hide OrderBook.View, OrderBook.Valid;
      KeptBookIsSame(matchers[j].book);
    }

    /** The flat books change in one place. */
    twostate lemma {:induction false} ViewAfterSlot(new i: InstrumentId, taken: set<Order>, new b: LiveBook)
      requires old(Valid()) && old(pool.Valid()) && Valid()
      requires i in old(matchers) && OnlySlot(i, taken) && b == matchers[i].book.View()
      ensures View() == old(View())[i := b]
    {
      hide OrderBook.Valid, OrderBook.View, Pool.Valid, SlotOk, Apart, AllLevels, AllOrders, BookSet, SlotKept, View,
           Valid, BookKept,
           OrderBook.OrderSet, OrderBook.LevelSet;
      assert matchers == old(matchers);
      hide OnlySlot;
      forall j | j in old(View()) && j != i ensures View()[j] == old(View())[j] {
        SameBookView(i, taken, j);
      }
      OneBookChanged(old(View()), View(), i, b);
    }

    // ---- Operations -----------------------------------------------------------

    /** The matcher of instrument i at work, with the books of the others in view. */
    method SubmitTo(i: InstrumentId, m: Matcher, order: Order) returns (trades: seq<Trade>)
      requires pool.Valid() && m.Valid() && m.pool == pool
      requires Valid() && i in matchers && m == matchers[i]
      requires Held(order) && order.data.filled <= order.data.initial
      modifies BookSet(), AllLevels(), AllOrders(), order, pool, pool.freeSlots
      ensures pool.Valid() && m.Valid()
      ensures Outcome(m.book.View(), order.data, trades)
           == NaiveSubmit(old(m.book.View()), m.book.instrument, old(order.data))
      ensures order in m.book.OrderSet() <==> order.data.status != Rejected && Rests(order.data)
      ensures m.book.OrderSet() <= old(m.book.OrderSet()) + {order}
      ensures pool.FreeSet() == old(pool.FreeSet()) + (old(m.book.OrderSet()) - m.book.OrderSet())
      ensures fresh(m.book.LevelSet() - old(m.book.LevelSet()))
      ensures forall j {:trigger SlotKept(j)} | j in old(matchers) && j != i :: SlotKept(j)
      ensures order.data.status == Rejected ==> SlotKept(i) && unchanged(pool) && unchanged(pool.freeSlots)
    {
      hide Valid, SlotOk, Pool.Valid, Pool.FreeSet, Matcher.Valid, OrderBook.View, AllLevels, AllOrders, BookSet,
           NaiveSubmit, Rests, Matcher.Held, Held;
      SlotFacts(i);
      OthersFacts(i);
      HeldByMatcher(i, order);
      trades := m.Submit(order);
      PoolInOrder(m);
      forall j | j in old(matchers) && j != i ensures SlotKept(j) {
        assert old(Apart(i, j));
      }
    }

    /** What no book of the engine holds, the matcher of instrument i does not hold. */
    lemma {:induction false} HeldByMatcher(i: InstrumentId, order: Order)
      requires pool.Valid() && Valid() && i in matchers && matchers[i].pool == pool && Held(order)
      ensures matchers[i].Held(order)
      ensures forall j | j in matchers :: order !in matchers[j].book.OrderSet()
    {
      hide Valid, SlotOk, Pool.Valid, Pool.FreeSet, AllLevels, BookSet, OrderBook.OrderSet;
    }

    twostate lemma {:induction false} IsOnlySlot(new i: InstrumentId, taken: set<Order>)
      requires i in old(matchers) && old(pool.Valid()) && pool.Valid() && unchanged(this)
      requires matchers[i].book.OrderSet() <= old(matchers[i].book.OrderSet()) + taken
      requires pool.FreeSet() <= old(pool.FreeSet()) + old(matchers[i].book.OrderSet())
      requires fresh(matchers[i].book.LevelSet() - old(matchers[i].book.LevelSet()))
      requires forall j {:trigger SlotKept(j)} | j in old(matchers) && j != i :: SlotKept(j)
      ensures OnlySlot(i, taken)
    {
      hide OrderBook.LevelSet, OrderBook.OrderSet, SlotKept;
    }

    method Submit(order: Order) returns (trades: seq<Trade>)
      requires Valid() && Held(order) && order.data.filled <= order.data.initial
      modifies BookSet(), AllLevels(), AllOrders(), order, pool, pool.freeSlots
      ensures Valid()
      ensures Reply(View(), order.data, trades) == RouteSubmit(old(View()), old(order.data))
      ensures order in AllOrders() <==> order.data.status != Rejected && Rests(order.data)
      ensures order.data.status == Rejected ==> Untouched()
      ensures AllOrders() <= old(AllOrders()) + {order}
      ensures pool.FreeSet() == old(pool.FreeSet()) + (old(AllOrders()) - AllOrders())
      ensures fresh(AllLevels() - old(AllLevels()))
    {
      hide Valid, View, SlotOk, Apart, Pool.Valid, Pool.FreeSet, Matcher.Valid, OrderBook.View, OrderBook.OrderSet,
           AllLevels, AllOrders, BookSet, OnlySlot, NaiveSubmit, Rests;
      var i := order.data.instrument;
      if i !in matchers {
        order.data := order.data.(status := Rejected);
        return [];
      }
      SlotFacts(i);
      trades := SubmitTo(i, matchers[i], order);
      IsOnlySlot(i, {order});
      OrdersAfterSlot(i, {order});
      LevelsAfterSlot(i, {order});
      ValidAfterSlot(i, {order});
      ViewAfterSlot(i, {order}, NaiveSubmit(old(View())[i], i, old(order.data)).book);
      if order.data.status == Rejected {
        AllSlotsKept();
      }
    }

    method CancelAt(i: InstrumentId, m: Matcher, id: OrderId) returns (ok: bool)
      requires pool.Valid() && m.Valid() && m.pool == pool
      requires Valid() && i in matchers && m == matchers[i]
      modifies BookSet(), AllLevels(), AllOrders(), pool, pool.freeSlots
      ensures pool.Valid() && m.Valid()
      ensures m.book.View() == NaiveCancel(old(m.book.View()), id)
      ensures ok <==> IdIndexed(old(m.book.View()), id)
      ensures m.book.OrderSet() <= old(m.book.OrderSet())
      ensures pool.FreeSet() == old(pool.FreeSet()) + (old(m.book.OrderSet()) - m.book.OrderSet())
      ensures OnlySlot(i, {})
    {
      hide Valid, SlotOk, Pool.Valid, Matcher.Valid, OrderBook.View, AllLevels, AllOrders, BookSet;
      SlotFacts(i);
      OthersFacts(i);
      ok := m.Cancel(id);
      PoolInOrder(m);
      assert matchers == old(matchers) && bookPtrs == old(bookPtrs);
      forall j | j in matchers && j != i ensures SlotKept(j) {
        assert old(Apart(i, j));
      }
    }

    method Cancel(instrument: InstrumentId, id: OrderId) returns (ok: bool)
      requires Valid()
      modifies BookSet(), AllLevels(), AllOrders(), pool, pool.freeSlots
      ensures Valid()
      ensures View() == RouteCancel(old(View()), instrument, id)
      ensures ok <==> CanCancel(old(View()), instrument, id)
      ensures AllOrders() <= old(AllOrders())
      ensures pool.FreeSet() == old(pool.FreeSet()) + (old(AllOrders()) - AllOrders())
      ensures fresh(AllLevels() - old(AllLevels()))
    {
      hide Valid, View, Pool.Valid, Matcher.Valid, OrderBook.View, OrderBook.OrderSet, AllLevels, AllOrders, BookSet,
           OnlySlot;
      if instrument !in matchers {
        return false;
      }
      SlotFacts(instrument);
      ok := CancelAt(instrument, matchers[instrument], id);
      OrdersAfterSlot(instrument, {});
      LevelsAfterSlot(instrument, {});
      ValidAfterSlot(instrument, {});
      ViewAfterSlot(instrument, {}, NaiveCancel(old(View())[instrument], id));
    }

    // ---- Adding and expiring instruments --------------------------------------

    /** Some matchers came or went; the books that stayed are untouched. */
    twostate predicate Stayed()
      reads *
    {
      && unchanged(pool) && unchanged(pool.freeSlots)
      && forall j {:trigger SlotKept(j)} | j in old(matchers) && j in matchers ::
           matchers[j] == old(matchers)[j] && SlotKept(j)
    }

    twostate lemma {:induction false} StayedSlot(new j: InstrumentId)
      requires j in old(matchers) && j in matchers && old(SlotOk(j)) && old(pool.Valid()) && Stayed()
      ensures SlotOk(j)
      ensures matchers[j].book.View() == old(matchers[j].book.View())
      ensures matchers[j].book.LevelSet() == old(matchers[j].book.LevelSet())
      ensures matchers[j].book.OrderSet() == old(matchers[j].book.OrderSet())
    {
      hide OrderBook.Valid, OrderBook.View, Pool.Valid;
      assert SlotKept(j);
      KeptBookIsSame(matchers[j].book);
    }

    twostate lemma {:induction false} StayedApart(new j: InstrumentId, new j': InstrumentId)
      requires j in old(matchers) && j in matchers && j' in old(matchers) && j' in matchers && j != j'
      requires old(SlotOk(j)) && old(SlotOk(j')) && old(Apart(j, j')) && old(pool.Valid()) && Stayed()
      ensures Apart(j, j')
    {
      StayedSlot(j);
      StayedSlot(j');
      hide SlotOk, AllLevels, AllOrders, OrderBook.LevelSet, OrderBook.OrderSet;
    }

    /** A book that did not exist before shares nothing with the others. */
    twostate lemma {:induction false} NewApart(new id: InstrumentId, new j: InstrumentId)
      requires id !in old(matchers) && id in matchers && fresh(matchers[id].book)
      requires matchers[id].book.LevelSet() == {} && matchers[id].book.OrderSet() == {}
      requires j in old(matchers) && j in matchers && matchers[j] == old(matchers)[j]
      ensures Apart(id, j) && Apart(j, id)
    {
    }

    ghost predicate NewSlotOk(id: InstrumentId)
      requires id in matchers
      reads this, BookSet(), AllLevels(), AllOrders(), pool, pool.freeSlots
    {
      var m := matchers[id];
      && m.book in BookSet()
      && m.pool == pool && m.book.instrument == id
      && m.book.LevelSet() == {} && m.book.OrderSet() == {} && m.book.View() == []
      && m.book.LevelSet() <= AllLevels() && m.book.OrderSet() <= AllOrders()
      && m.Valid()
    }

    /** The maps took in one new matcher. */
    twostate predicate Entered(new id: InstrumentId)
      reads *
    {
      && id !in old(matchers) && id in matchers && Stayed()
      && matchers == old(matchers)[id := matchers[id]] && bookPtrs == old(bookPtrs)[id := matchers[id].book]
      && fresh(matchers[id].book) && NewSlotOk(id)
    }

    twostate lemma {:induction false} SlotAfterNew(new id: InstrumentId, new j: InstrumentId)
      requires old(Valid()) && Entered(id) && j in matchers
      ensures SlotOk(j)
      ensures j != id ==> matchers[j].book.View() == old(matchers[j].book.View())
    {
      hide OrderBook.Valid, OrderBook.View, Pool.Valid, Matcher.Valid;
      if j != id {
        assert old(SlotOk(j));
        hide SlotOk, AllLevels, AllOrders, Stayed;
        StayedSlot(j);
      }
    }

    twostate lemma {:induction false} ApartAfterNew(new id: InstrumentId, new j: InstrumentId, new j': InstrumentId)
      requires old(Valid()) && Entered(id) && j in matchers && j' in matchers && j != j'
      ensures Apart(j, j')
    {
      hide SlotOk, Apart, AllLevels, AllOrders, BookSet, Stayed;
      if j == id {
        NewApart(id, j');
      } else if j' == id {
        NewApart(id, j);
      } else {
        assert old(SlotOk(j)) && old(SlotOk(j')) && old(Apart(j, j'));
        StayedApart(j, j');
      }
    }

    twostate lemma {:induction false} ValidAfterNew(new id: InstrumentId)
      requires old(Valid()) && Entered(id)
      ensures Valid()
    {
      hide OrderBook.Valid, OrderBook.View, Pool.Valid, Matcher.Valid, SlotOk, Apart, AllLevels, AllOrders, BookSet;
      forall j | j in matchers ensures SlotOk(j) {
        SlotAfterNew(id, j);
      }
      forall j, j' | j in matchers && j' in matchers && j != j' ensures Apart(j, j') {
        ApartAfterNew(id, j, j');
      }
    }

    twostate lemma {:induction false} ViewAfterNew(new id: InstrumentId)
      requires old(Valid()) && Valid() && Entered(id)
      ensures View() == old(View())[id := []]
    {
      hide OrderBook.Valid, OrderBook.View, Pool.Valid, Matcher.Valid, SlotOk, Apart, AllLevels, AllOrders, BookSet,
           Valid;
      forall j | j in matchers && j != id ensures View()[j] == old(View())[j] {
        SlotAfterNew(id, j);
      }
    }

    twostate lemma {:induction false} OrdersAfterNew(new id: InstrumentId)
      requires old(Valid()) && Entered(id)
      ensures AllOrders() == old(AllOrders()) && BookSet() == old(BookSet()) + {matchers[id].book}
    {
      hide OrderBook.Valid, OrderBook.View, Pool.Valid, Matcher.Valid, SlotOk, Apart, AllLevels, OrderBook.OrderSet;
      forall j | j in old(matchers) ensures matchers[j].book.OrderSet() == old(matchers[j].book.OrderSet()) {
        assert old(SlotOk(j));
        StayedSlot(j);
      }
    }

    lemma {:induction false} PoolFacts()
      requires Valid()
      ensures pool.Valid()
    {
    }

    method Emplace(id: InstrumentId)
      requires Valid() && id !in matchers && id !in bookPtrs
      modifies this
      ensures Entered(id)
    {
      hide Valid, Pool.Valid, SlotOk, Apart, Matcher.Valid, OrderBook.View;
      PoolFacts();
      var book := new OrderBook(id);
      var matcher := new Matcher(book, pool);
      assert (this as object) != pool && (this as object) != pool.freeSlots;
      matchers := matchers[id := matcher];
      bookPtrs := bookPtrs[id := book];
      assert book.Valid() && pool.Valid();
      EmptyMatcher(matcher);
    }

    /** emplace of a new book and matcher; an id that is present is left alone. */
    method AddInstrument(id: InstrumentId)
      requires Valid()
      modifies this
      ensures Valid()
      ensures View() == if id in old(View()) then old(View()) else old(View())[id := []]
      ensures AllOrders() == old(AllOrders()) && fresh(BookSet() - old(BookSet()))
    {
      hide Valid, View, SlotOk, Apart, AllOrders, AllLevels, BookSet;
      if id in matchers {
        return;
      }
      SameKeys();
      Emplace(id);
      ValidAfterNew(id);
      ViewAfterNew(id);
      OrdersAfterNew(id);
    }

    lemma {:induction false} SameKeys()
      requires Valid()
      ensures bookPtrs.Keys == matchers.Keys == View().Keys
    {
    }

    /** The loop of the Engine constructor: a book for each registered instrument that passes the filter. */
    method Load(registry: seq<InstrumentId>, filter: InstrumentId -> bool)
      requires Valid() && View() == map[] && AllOrders() == {}
      modifies this
      ensures Valid() && AllOrders() == {}
      ensures View().Keys == set i | i in registry && filter(i)
      ensures forall i | i in View() :: View()[i] == []
    {
      hide Valid, View, AllOrders, BookSet, AllLevels;
      for n := 0 to |registry|
        invariant Valid() && AllOrders() == {}
        invariant View().Keys == set i | i in registry[..n] && filter(i)
        invariant forall i | i in View() :: View()[i] == []
      {
        assert registry[..n + 1] == registry[..n] + [registry[n]];
        if filter(registry[n]) {
          AddInstrument(registry[n]);
        }
      }
      assert registry[..|registry|] == registry;
    }

    /** Engine::book: the raw pointer map answers for exactly the traded instruments. */
    function FindBook(id: InstrumentId): (b: OrderBook?)
      reads this
    {
      if id in bookPtrs then bookPtrs[id] else null
    }

    // ---- Expiry -----------------------------------------------------------------

    /** The book of an instrument was emptied and taken out of the maps. */
    twostate predicate Left(new id: InstrumentId)
      reads *
    {
      && id in old(matchers)
      && matchers == old(matchers) - {id} && bookPtrs == old(bookPtrs) - {id}
      && old(pool.Valid()) && pool.Valid()
      && pool.FreeSet() <= old(pool.FreeSet()) + old(matchers[id].book.OrderSet())
      && forall j {:trigger SlotKept(j)} | j in matchers :: SlotKept(j)
    }

    twostate lemma {:induction false} SlotAfterLeave(new id: InstrumentId, new j: InstrumentId)
      requires old(Valid()) && Left(id) && j in matchers
      ensures SlotOk(j)
      ensures matchers[j].book.View() == old(matchers[j].book.View())
      ensures matchers[j].book.LevelSet() == old(matchers[j].book.LevelSet())
      ensures matchers[j].book.OrderSet() == old(matchers[j].book.OrderSet())
      ensures matchers[j].book.OrderSet() !! old(matchers[id].book.OrderSet())
    {
      hide OrderBook.Valid, OrderBook.View, Pool.Valid;
      assert old(SlotOk(j)) && old(Apart(id, j));
      assert SlotKept(j);
      KeptBookIsSame(matchers[j].book);
    }

    twostate lemma {:induction false} ApartAfterLeave(new id: InstrumentId, new j: InstrumentId, new j': InstrumentId)
      requires old(Valid()) && Left(id) && j in matchers && j' in matchers && j != j'
      ensures Apart(j, j')
    {
      assert old(Apart(j, j'));
      SlotAfterLeave(id, j);
      SlotAfterLeave(id, j');
      hide SlotOk, AllLevels, AllOrders, OrderBook.LevelSet, OrderBook.OrderSet, Valid;
    }

    twostate lemma {:induction false} ValidAfterLeave(new id: InstrumentId)
      requires old(Valid()) && Left(id)
      ensures Valid()
    {
      hide OrderBook.Valid, OrderBook.View, Pool.Valid, Matcher.Valid, SlotOk, Apart, AllLevels, AllOrders, BookSet;
      forall j | j in matchers ensures SlotOk(j) {
        SlotAfterLeave(id, j);
      }
      forall j, j' | j in matchers && j' in matchers && j != j' ensures Apart(j, j') {
        ApartAfterLeave(id, j, j');
      }
    }

    twostate lemma {:induction false} ViewAfterLeave(new id: InstrumentId)
      requires old(Valid()) && Valid() && Left(id)
      ensures View() == old(View()) - {id}
      ensures AllOrders() == old(AllOrders()) - old(matchers[id].book.OrderSet())
    {
      hide OrderBook.Valid, OrderBook.View, Pool.Valid, Matcher.Valid, SlotOk, Apart, AllLevels, OrderBook.OrderSet,
           Valid;
      forall j | j in matchers
        ensures View()[j] == old(View())[j]
        ensures matchers[j].book.OrderSet() == old(matchers[j].book.OrderSet())
        ensures matchers[j].book.OrderSet() !! old(matchers[id].book.OrderSet())
      {
        SlotAfterLeave(id, j);
      }
    }

    method Drain(id: InstrumentId, m: Matcher)
      requires pool.Valid() && m.Valid() && m.pool == pool
      requires Valid() && id in matchers && m == matchers[id] && id in bookPtrs
      modifies this, BookSet(), AllOrders(), pool, pool.freeSlots
      ensures pool.Valid()
      ensures pool.FreeSet() == old(pool.FreeSet()) + HeadOrders(old(m.book.tickets))
      ensures pool.FreeSet() == old(pool.FreeSet()) + old(m.book.OrderSet()) <==> AloneAtPrice(old(m.book.View()))
      ensures Left(id)
    {
      hide Valid, SlotOk, Pool.Valid, Pool.FreeSet, Matcher.Valid, OrderBook.View, AllLevels, AllOrders, BookSet,
           HeadOrders, AloneAtPrice;
      SlotFacts(id);
      OthersFacts(id);
      HeadsRest(m.book.tickets);
      m.CancelAll();
      PoolInOrder(m);
      assert matchers == old(matchers) && bookPtrs == old(bookPtrs);
      assert (this as object) != pool && (this as object) != pool.freeSlots;
      matchers := matchers - {id};
      bookPtrs := bookPtrs - {id};
      forall j | j in matchers ensures SlotKept(j) {
        assert old(Apart(id, j));
      }
    }

    /**
     * expire_instrument: the instrument is gone, but only the order heading each
     * of its levels goes back to the pool.
     */
    method ExpireInstrument(id: InstrumentId) returns (ok: bool)
      requires Valid()
      modifies this, BookSet(), AllOrders(), pool, pool.freeSlots
      ensures Valid() && ok == (id in old(View())) && View() == old(View()) - {id}
      ensures id !in old(matchers) ==> AllOrders() == old(AllOrders()) && pool.FreeSet() == old(pool.FreeSet())
      ensures id in old(matchers) ==>
        && AllOrders() == old(AllOrders()) - old(matchers[id].book.OrderSet())
        && pool.FreeSet() == old(pool.FreeSet()) + HeadOrders(old(matchers[id].book.tickets))
        && (pool.FreeSet() == old(pool.FreeSet()) + old(matchers[id].book.OrderSet())
            <==> AloneAtPrice(old(View())[id]))
    {
      hide Valid, View, Pool.Valid, Pool.FreeSet, Matcher.Valid, OrderBook.View, OrderBook.OrderSet, AllLevels,
           AllOrders, BookSet, HeadOrders, Left;
      SameKeys();
      if id !in matchers {
        return false;
      }
      SlotFacts(id);
      PoolFacts();
      Drain(id, matchers[id]);
      ValidAfterLeave(id);
      ViewAfterLeave(id);
      return true;
    }

    // ---- Slots in the hands of callers ------------------------------------------

    /** Only the free stack changed, and nothing resting got onto it. */
    twostate predicate OnlyPool()
      reads *
    {
      && matchers == old(matchers) && bookPtrs == old(bookPtrs)
      && pool.Valid() && pool.FreeSet() !! old(AllOrders())
      && forall j {:trigger SlotKept(j)} | j in matchers :: SlotKept(j)
    }

    twostate lemma {:induction false} SlotAfterPool(new j: InstrumentId)
      requires old(Valid()) && OnlyPool() && j in matchers
      ensures SlotOk(j)
      ensures matchers[j].book.View() == old(matchers[j].book.View())
      ensures matchers[j].book.LevelSet() == old(matchers[j].book.LevelSet())
      ensures matchers[j].book.OrderSet() == old(matchers[j].book.OrderSet())
    {
      hide OrderBook.Valid, OrderBook.View, Pool.Valid;
      assert old(SlotOk(j));
      assert SlotKept(j);
      KeptBookIsSame(matchers[j].book);
    }

    twostate lemma {:induction false} ApartAfterPool(new j: InstrumentId, new j': InstrumentId)
      requires old(Valid()) && OnlyPool() && j in matchers && j' in matchers && j != j'
      ensures Apart(j, j')
    {
      assert old(Apart(j, j'));
      SlotAfterPool(j);
      SlotAfterPool(j');
      hide SlotOk, AllLevels, AllOrders, OrderBook.LevelSet, OrderBook.OrderSet, Valid;
    }

    twostate lemma {:induction false} ValidAfterPool()
      requires old(Valid()) && OnlyPool()
      ensures Valid()
    {
      hide OrderBook.Valid, OrderBook.View, Pool.Valid, Matcher.Valid, SlotOk, Apart, AllLevels, AllOrders, BookSet;
      forall j | j in matchers ensures SlotOk(j) {
        SlotAfterPool(j);
      }
      forall j, j' | j in matchers && j' in matchers && j != j' ensures Apart(j, j') {
        ApartAfterPool(j, j');
      }
    }

    twostate lemma {:induction false} ViewAfterPool()
      requires old(Valid()) && Valid() && OnlyPool()
      ensures View() == old(View()) && AllOrders() == old(AllOrders())
    {
      hide OrderBook.Valid, OrderBook.View, Pool.Valid, Matcher.Valid, SlotOk, Apart, AllLevels, OrderBook.OrderSet,
           Valid;
      forall j | j in matchers
        ensures View()[j] == old(View())[j]
        ensures matchers[j].book.OrderSet() == old(matchers[j].book.OrderSet())
      {
        SlotAfterPool(j);
      }
    }

    twostate lemma {:induction false} LevelsAfterPool()
      requires old(Valid()) && OnlyPool()
      ensures AllLevels() == old(AllLevels())
    {
      hide OrderBook.Valid, OrderBook.View, Pool.Valid, Matcher.Valid, SlotOk, Apart, AllOrders, OrderBook.LevelSet,
           Valid;
      forall j | j in matchers ensures matchers[j].book.LevelSet() == old(matchers[j].book.LevelSet()) {
        SlotAfterPool(j);
      }
    }

    ghost predicate Covered(j: InstrumentId)
      reads this, BookSet()
    {
      j in matchers ==> matchers[j].book in BookSet() && matchers[j].book.OrderSet() <= AllOrders()
    }

    lemma {:induction false} AllCovered()
      requires Valid()
      ensures forall j {:trigger Covered(j)} :: Covered(j)
    {
      hide OrderBook.Valid, OrderBook.View, Pool.Valid, Matcher.Valid;
      forall j ensures Covered(j) {
        if j in matchers {
          assert SlotOk(j);
        }
      }
    }

    /** Resting orders are not free. */
    lemma {:induction false} RestingNotFree()
      requires Valid()
      ensures pool.Valid() && AllOrders() !! pool.FreeSet() && AllOrders() <= pool.Slots()
    {
      hide OrderBook.Valid, OrderBook.View, Pool.Valid;
      forall i, o | i in matchers && o in matchers[i].book.OrderSet()
        ensures o !in pool.FreeSet() && o in pool.Slots()
      {
        assert SlotOk(i);
      }
    }

    method AcquireOrder() returns (o: Order?)
      requires Valid() && pool.Valid()
      modifies pool, pool.FreeSet()
      ensures Valid() && View() == old(View()) && AllOrders() == old(AllOrders())
      ensures pool.Valid() && (o == null <==> old(pool.FreeSet()) == {})
      ensures o == null ==> pool.FreeSet() == {}
      ensures o != null ==> Held(o) && o in old(pool.FreeSet()) && pool.FreeSet() == old(pool.FreeSet()) - {o}
    {
      hide Valid, View, Apart, Pool.Valid, Pool.FreeSet, AllOrders, AllLevels, BookSet, OrderBook.View, Matcher.Valid;
      RestingNotFree();
      AllCovered();
      pool.FreeAreSlots();
      o := pool.Acquire();
      forall j | j in matchers ensures SlotKept(j) {
        assert old(Covered(j));
      }
      ValidAfterPool();
      ViewAfterPool();
    }

    /** Only a slot the caller holds may be given back. */
    method ReleaseOrder(o: Order)
      requires Valid() && pool.Valid() && Held(o)
      modifies pool, pool.freeSlots
      ensures Valid() && View() == old(View()) && AllOrders() == old(AllOrders()) && AllLevels() == old(AllLevels())
      ensures pool.Valid() && pool.FreeSet() == old(pool.FreeSet()) + {o}
    {
      hide Valid, View, Apart, Pool.Valid, Pool.FreeSet, AllOrders, AllLevels, BookSet, OrderBook.View, Matcher.Valid;
      RestingNotFree();
      AllCovered();
      pool.Release(o);
      forall j | j in matchers ensures SlotKept(j) {
        assert old(Covered(j));
      }
      ValidAfterPool();
      ViewAfterPool();
      LevelsAfterPool();
    }
  }
}
