/**
 * The matcher of one book (src/matching/matcher.cpp): the loops over the heap
 * structure, proved against the flat price-time specification, together with
 * the ownership of pool slots.
 */
module Matchers {
  import opened Types
  import opened PriceTime
  import opened PriceLevels
  import opened Tickets
  import opened OrderBooks
  import opened Pools
  import opened Allocation
  import opened Depth

  class Matcher {
    const book: OrderBook
    const pool: Pool

    constructor (book: OrderBook, pool: Pool)
      ensures this.book == book && this.pool == pool
    {
      this.book, this.pool := book, pool;
    }

    /** Book and pool are in order, resting slots are allocated, and resting orders are live. */
    ghost predicate Valid()
      reads book, book.LevelSet(), book.OrderSet(), pool, pool.freeSlots
    {
      && book.Valid() && pool.Valid()
      && book.OrderSet() <= pool.Slots()
      && book.OrderSet() !! pool.FreeSet()
      && Live(book.View())
    }

    /** A slot the caller holds: neither free nor resting in this book. */
    ghost predicate Held(o: Order)
      requires pool.Valid()
      reads book, pool, pool.freeSlots
    {
      o in pool.Slots() && o !in pool.FreeSet() && o !in book.OrderSet()
    }

    /** Filling the top order in place, as far as the book can tell. */
    method FillMaker(maker: Order, fill: Quantity, ghost k: nat)
      requires book.Valid() && k < |book.tickets| && book.tickets[k].order == maker
      requires 0 < fill && maker.data.filled + fill <= maker.data.initial
      modifies maker`data
      ensures book.Valid()
      ensures maker.data == old(maker.data).(
                filled := old(maker.data.filled) + fill,
                status := if old(maker.data.filled) + fill == maker.data.initial then Filled else PartiallyFilled)
      ensures book.View() == old(book.View())[k := Resting(maker.data, old(book.View())[k].indexed)]
    {
      hide book.Valid, book.View;
      maker.data := maker.data.(filled := maker.data.filled + fill);
      maker.data := maker.data.(status := if maker.data.IsFullyFilled() then Filled else PartiallyFilled);
      book.ValidAfterFill(k);
    }

    /** One naive step in the two moves the code makes: fill order k, then retire it if exhausted. */
    lemma {:induction false} StepInTwoMoves(b: Book, taker: OrderRec, k: nat, r: Resting)
      requires Live(b) && taker.filled <= taker.initial && CanTrade(b, taker)
      requires k == TopIndex(b, Opposite(taker.side)) && r.indexed == b[k].indexed
      requires var filled := b[k].order.filled + StepFill(b, taker);
        r.order == b[k].order.(
          filled := filled, status := if filled == b[k].order.initial then Filled else PartiallyFilled)
      ensures TopIndex(b[k := r], Opposite(taker.side)) == k
      ensures StepBook(b, taker) == if r.order.IsFullyFilled() then RemoveAt(b[k := r], k) else b[k := r]
    {
      TopIsUnique(b[k := r], Opposite(taker.side), k);
      assert Without(b[k := r], k) == Without(b, k);
    }

    /** What the matcher needs to know about the order at the top. */
    lemma {:induction false} TopFacts(taker: OrderRec)
      requires Valid() && taker.filled <= taker.initial && CanTrade(book.View(), taker)
      ensures var k := TopIndex(book.View(), Opposite(taker.side));
        && 0 <= k < |book.tickets|
        && book.tickets[k].order in book.OrderSet()
        && book.View()[k].order == book.tickets[k].order.data
        && book.View()[k].order.filled < book.View()[k].order.initial
        && StepFill(book.View(), taker) <= book.View()[k].order.Remaining()
    {
      hide book.Valid;
      var k := TopIndex(book.View(), Opposite(taker.side));
      assert book.tickets[k] in book.tickets;
    }

    /** An exhausted maker leaves the book and its slot goes back to the pool. */
    method RetireTop(side: Side, maker: Order)
      requires book.Valid() && pool.Valid()
      requires book.OrderSet() <= pool.Slots() && book.OrderSet() !! pool.FreeSet()
      requires TopIndex(book.View(), side) >= 0 && maker == book.tickets[TopIndex(book.View(), side)].order
      modifies book, book.LevelSet(), book.OrderSet()`levelPrev, book.OrderSet()`levelNext, pool, pool.freeSlots
      ensures book.Valid() && pool.Valid()
      ensures book.View() == RemoveAt(old(book.View()), TopIndex(old(book.View()), side))
      ensures book.LevelSet() <= old(book.LevelSet()) && book.OrderSet() == old(book.OrderSet()) - {maker}
      ensures pool.FreeSet() == old(pool.FreeSet()) + {maker}
    {
      hide book.Valid, book.View, pool.Valid, TopIndex;
      book.TopHasLevel(side);
      assert book.tickets[TopIndex(book.View(), side)] in book.tickets;
      assert maker in book.OrderSet() && maker in pool.Slots();
      book.PopTop(side);
      pool.Release(maker);
    }

    /** One round of the matching loop, with the order at the top of the opposite side. */
    method TradeWithTop(taker: Order, maker: Order) returns (trade: Trade)
      requires Valid() && taker.data.filled <= taker.data.initial && taker !in book.OrderSet()
      requires CanTrade(book.View(), taker.data)
      requires maker == book.tickets[TopIndex(book.View(), Opposite(taker.data.side))].order
      modifies book, book.LevelSet(), book.OrderSet(), taker`data, pool, pool.freeSlots
      ensures Valid()
      ensures book.View() == StepBook(old(book.View()), old(taker.data))
      ensures taker.data == StepTaker(old(book.View()), old(taker.data))
      ensures trade == StepTrade(old(book.View()), old(taker.data))
      ensures book.LevelSet() <= old(book.LevelSet()) && book.OrderSet() <= old(book.OrderSet())
      ensures pool.FreeSet() == old(pool.FreeSet()) + (old(book.OrderSet()) - book.OrderSet())
    {
      hide book.Valid, pool.Valid, book.View, TopIndex, StepBook, CanTrade;
      var opp := Opposite(taker.data.side);
      ghost var b, k := book.View(), TopIndex(book.View(), opp);
      TopFacts(taker.data);
      var fill := Min(taker.data.Remaining(), maker.data.Remaining());
      trade := Trade(maker.data.id, taker.data.id, taker.data.instrument, maker.data.price, fill);
      taker.data := taker.data.(filled := taker.data.filled + fill);
      FillMaker(maker, fill, k);
      StepInTwoMoves(b, old(taker.data), k, book.View()[k]);
      if maker.data.IsFullyFilled() {
        RetireTop(opp, maker);
      }
    }

    /** `whole` is what the matcher will have produced, given the trades so far. */
    ghost predicate OnTrack(whole: Outcome, b: Book, taker: OrderRec, trades: seq<Trade>)
      requires Live(b) && taker.filled <= taker.initial
    {
      var rest := NaiveMatch(b, taker);
      whole == rest.(trades := trades + rest.trades)
    }

    lemma {:induction false} OnTrackAfterStep(whole: Outcome, b: Book, taker: OrderRec, trades: seq<Trade>)
      requires Live(b) && taker.filled <= taker.initial && CanTrade(b, taker)
      requires OnTrack(whole, b, taker, trades)
      ensures OnTrack(whole, StepBook(b, taker), StepTaker(b, taker), trades + [StepTrade(b, taker)])
    {
      hide StepBook, StepTaker, StepTrade, CanTrade;
      var rest := NaiveMatch(StepBook(b, taker), StepTaker(b, taker));
      assert trades + ([StepTrade(b, taker)] + rest.trades) == trades + [StepTrade(b, taker)] + rest.trades;
    }

    method Match(taker: Order) returns (trades: seq<Trade>)
      requires Valid() && taker.data.filled <= taker.data.initial && taker !in book.OrderSet()
      modifies book, book.LevelSet(), book.OrderSet(), taker`data, pool, pool.freeSlots
      ensures Valid()
      ensures Outcome(book.View(), taker.data, trades) == NaiveMatch(old(book.View()), old(taker.data))
      ensures book.LevelSet() <= old(book.LevelSet()) && book.OrderSet() <= old(book.OrderSet())
      ensures pool.FreeSet() == old(pool.FreeSet()) + (old(book.OrderSet()) - book.OrderSet())
    {
      hide book.Valid, pool.Valid, book.View, TopIndex, StepBook, StepTaker, NaiveMatch;
      trades := [];
      var opp := Opposite(taker.data.side);
      ghost var whole := NaiveMatch(book.View(), taker.data);
      while taker.data.Remaining() > 0
        invariant Valid() && taker.data.filled <= taker.data.initial && taker !in book.OrderSet()
        invariant opp == Opposite(taker.data.side)
        invariant OnTrack(whole, book.View(), taker.data, trades)
        invariant book.LevelSet() <= old(book.LevelSet()) && book.OrderSet() <= old(book.OrderSet())
        invariant pool.FreeSet() == old(pool.FreeSet()) + (old(book.OrderSet()) - book.OrderSet())
        decreases taker.data.Remaining()
      {
        var maker := book.PeekTop(opp);
        if maker == null {
          break;
        }
        book.ViewAt(TopIndex(book.View(), opp));
        if taker.data.kind == Limit && !PricesCross(taker.data.side, taker.data.price, maker.data.price) {
          break;
        }
        OnTrackAfterStep(whole, book.View(), taker.data, trades);
        var trade := TradeWithTop(taker, maker);
        trades := trades + [trade];
      }
      MatchStops(book.View(), taker.data);
    }

    lemma {:induction false} MatchStops(b: Book, taker: OrderRec)
      requires Live(b) && taker.filled <= taker.initial && !CanTrade(b, taker)
      ensures NaiveMatch(b, taker) == Outcome(b, taker, [])
    {
    }

    // ---- The look-ahead -----------------------------------------------------

    /** Walks one level: either it covers the need, or it leaves the rest of the need. */
    method WalkLevel(level: PriceLevel, need: Quantity) returns (covered: bool, left: Quantity)
      requires level.Valid() && level.nodes != [] && book.Valid()
      ensures book.Valid() && book.View() == old(book.View())
      ensures covered <==> QueueQty(level.nodes) >= need
      ensures !covered ==> left == need - QueueQty(level.nodes)
    {
      hide book.Valid, book.View;
      ghost var nodes := level.nodes;
      left := need;
      var cur := level.head;
      ghost var i := 0;
      while cur != null
        invariant 0 <= i <= |nodes| && cur == (if i == |nodes| then null else nodes[i])
        invariant left == need - QueueQty(nodes[..i]) && (i > 0 ==> left > 0)
        invariant book.Valid() && book.View() == old(book.View())
        decreases |nodes| - i
      {
        assert Linked(nodes, i);
        assert nodes[..i + 1] == nodes[..i] + [nodes[i]];
        QueueQtyAppend(nodes[..i], nodes[i]);
        if cur.data.Remaining() >= left {
          QueueQtyGrows(nodes, i + 1);
          return true, 0;
        }
        left := left - cur.data.Remaining();
        cur := cur.levelNext;
        i := i + 1;
      }
      assert nodes[..i] == nodes;
      covered := false;
    }

    /** Once no remaining level crosses, the levels walked are all the liquidity. */
    lemma {:induction false} WalkedAll(taker: OrderRec, done: set<Price>, rest: set<Price>)
      requires book.Valid() && done + rest == book.Levels(Opposite(taker.side)).Keys
      requires forall p | p in done :: Crosses(taker, p)
      requires rest == {} || !Crosses(taker, Begin(Opposite(taker.side), rest))
      ensures QtyIn(Orders(book.View()), Opposite(taker.side), done) == Liquidity(Orders(book.View()), taker)
    {
      var orders, opp := Orders(book.View()), Opposite(taker.side);
      forall i | 0 <= i < |orders| && orders[i].side == opp && Crosses(taker, orders[i].price)
        ensures orders[i].price in done
      {
        assert book.TicketOk(book.tickets[i]);
      }
      QtyInAll(orders, taker, done);
    }

    /** can_fully_fill: true exactly when the crossing liquidity covers the taker. */
    method CanFullyFill(taker: OrderRec) returns (r: bool)
      requires book.Valid() && taker.filled <= taker.initial
      ensures r <==> Liquidity(Orders(book.View()), taker) >= taker.Remaining()
    {
      hide book.Valid, book.View, QtyIn, QtyAt, Orders, Liquidity;
      var opp := Opposite(taker.side);
      var need: Quantity := taker.Remaining();
      var rest := book.Levels(opp).Keys;
      ghost var done := {};
      ghost var orders := Orders(book.View());
      QtyInNone(orders, opp);
      while rest != {}
        invariant orders == Orders(book.View()) && book.Valid()
        invariant done + rest == book.Levels(opp).Keys && done !! rest
        invariant forall p | p in done :: Crosses(taker, p)
        invariant need + QtyIn(orders, opp, done) == taker.Remaining()
      {
        var p := Begin(opp, rest);
        if taker.kind == Limit && !PricesCross(taker.side, taker.price, p) {
          break;
        }
        book.LevelFacts(opp, p);
        LevelQty(book, opp, p);
        QtyInPlus(orders, opp, done, p);
        var covered, left := WalkLevel(book.Levels(opp)[p], need);
        rest, done := rest - {p}, done + {p};
        if covered {
          QtyInAtMost(orders, taker, done);
          return true;
        }
        need := left;
      }
      WalkedAll(taker, done, rest);
      return need == 0;
    }

    // ---- Operations ---------------------------------------------------------

    /** The checks before matching, as the code makes them. */
    method Check(o: OrderRec) returns (ok: bool)
      requires Valid() && o.filled <= o.initial
      ensures ok <==> Accepted(book.View(), book.instrument, o)
    {
      hide book.Valid, pool.Valid, book.View, NaiveMatch, Liquidity;
      if o.initial == 0 {
        return false;
      }
      if o.instrument != book.instrument {
        return false;
      }
      if o.kind == Limit && o.price <= 0 {
        return false;
      }
      if o.kind == Market && (o.tif == GTC || o.tif == Day) {
        return false;
      }
      if o.tif == FOK {
        ok := CanFullyFill(o);
        MatchFillsFromLiquidity(book.View(), o);
        return;
      }
      return true;
    }

    /** Rests the unfilled remainder of a taker. */
    method Rest(order: Order)
      requires Valid() && Held(order) && order.data.filled < order.data.initial
      modifies book, book.LevelSet(), book.OrderSet()`levelNext, order`levelPrev, order`levelNext
      ensures Valid() && fresh(book.LevelSet() - old(book.LevelSet()))
      ensures book.View() == Add(old(book.View()), order.data)
      ensures book.OrderSet() == old(book.OrderSet()) + {order}
    {
      hide book.Valid, pool.Valid, book.View;
      book.AddResting(order);
    }

    /** Sets the status of a matched taker, and rests what an order that may rest has left. */
    method Settle(order: Order)
      requires Valid() && Held(order) && order.data.filled <= order.data.initial
      modifies book, book.LevelSet(), book.OrderSet()`levelNext, order
      ensures Valid() && fresh(book.LevelSet() - old(book.LevelSet()))
      ensures order.data == old(order.data).(status := StatusAfterMatch(old(order.data)))
      ensures book.View() == if Rests(order.data) then Add(old(book.View()), order.data) else old(book.View())
      ensures book.OrderSet() == old(book.OrderSet()) + (if Rests(order.data) then {order} else {})
    {
      hide book.Valid, pool.Valid, book.View;
      if order.data.IsFullyFilled() {
        order.data := order.data.(status := Filled);
      } else if order.data.kind == Market || order.data.tif == IOC {
        order.data := order.data.(status := if order.data.filled > 0 then PartiallyFilled else Cancelled);
      } else {
        order.data := order.data.(status := if order.data.filled > 0 then PartiallyFilled else New);
        Rest(order);
      }
    }

    /** An accepted order: matched, then settled. */
    method Work(order: Order) returns (trades: seq<Trade>)
      requires Valid() && Held(order) && order.data.filled <= order.data.initial
      modifies book, book.LevelSet(), book.OrderSet(), order, pool, pool.freeSlots
      ensures Valid() && fresh(book.LevelSet() - old(book.LevelSet()))
      ensures var m := NaiveMatch(old(book.View()), old(order.data));
        && trades == m.trades && order.data == m.taker.(status := StatusAfterMatch(m.taker))
        && book.View() == if Rests(order.data) then Add(m.book, order.data) else m.book
      ensures order in book.OrderSet() <==> Rests(order.data)
      ensures book.OrderSet() <= old(book.OrderSet()) + {order}
      ensures pool.FreeSet() == old(pool.FreeSet()) + (old(book.OrderSet()) - book.OrderSet())
    {
      hide book.Valid, pool.Valid, pool.FreeSet, book.View, NaiveMatch, Add, Rests, StatusAfterMatch;
      trades := Match(order);
      Settle(order);
    }

    /**
     * Submitting does what it does to the flat book. A rejected order, and so a
     * fill-or-kill order that cannot be filled, leaves the book, its levels, the
     * pool and every resting order exactly as they were.
     */
    method Submit(order: Order) returns (trades: seq<Trade>)
      requires Valid() && Held(order) && order.data.filled <= order.data.initial
      modifies book, book.LevelSet(), book.OrderSet(), order, pool, pool.freeSlots
      ensures Valid() && fresh(book.LevelSet() - old(book.LevelSet()))
      ensures Outcome(book.View(), order.data, trades)
           == NaiveSubmit(old(book.View()), book.instrument, old(order.data))
      ensures order in book.OrderSet() <==> order.data.status != Rejected && Rests(order.data)
      ensures book.OrderSet() <= old(book.OrderSet()) + {order}
      ensures pool.FreeSet() == old(pool.FreeSet()) + (old(book.OrderSet()) - book.OrderSet())
      ensures order.data.status == Rejected ==>
        && unchanged(book) && unchanged(pool) && unchanged(pool.freeSlots)
        && (forall l | l in old(book.LevelSet()) :: unchanged(l))
        && (forall o | o in old(book.OrderSet()) :: unchanged(o))
      ensures order.data.tif == FOK ==>
        order !in book.OrderSet() && (order.data.status == Rejected || order.data.IsFullyFilled())
    {
      hide book.Valid, pool.Valid, pool.FreeSet, book.View, NaiveMatch, Add;
      trades := [];
      var ok := Check(order.data);
      if !ok {
        order.data := order.data.(status := Rejected);
        return;
      }
      trades := Work(order);
    }

    method Cancel(id: OrderId) returns (ok: bool)
      requires Valid()
      modifies book, book.LevelSet(), book.OrderSet(), pool, pool.freeSlots
      ensures Valid() && book.LevelSet() <= old(book.LevelSet())
      ensures ok <==> IdIndexed(old(book.View()), id)
      ensures book.View() == NaiveCancel(old(book.View()), id)
      ensures book.OrderSet() <= old(book.OrderSet())
      ensures pool.FreeSet() == old(pool.FreeSet()) + (old(book.OrderSet()) - book.OrderSet())
      ensures forall o | o in old(book.OrderSet()) - book.OrderSet() :: o.data.id == id && o.data.status == Cancelled
    {
      hide book.Valid, pool.Valid, book.View, NaiveCancel;
      var o := book.CancelAndGet(id);
      if o == null {
        return false;
      }
      o.data := o.data.(status := Cancelled);
      pool.Release(o);
      return true;
    }

    // ---- Draining an expired book -------------------------------------------

    /** Orders that head the queues of these prices. */
    static ghost function HeadsIn(tickets: seq<Ticket>, side: Side, prices: set<Price>): set<Order> {
      set p | p in prices && At(tickets, side, p) != [] :: At(tickets, side, p)[0]
    }

    /**
     * The range-for of clear_and_drain over one level. The body clears the
     * links of the order before the iterator follows them, so it stops after
     * the head.
     */
    method DrainLevel(level: PriceLevel)
      requires pool.Valid() && level.head != null && level.head in pool.Slots() && level.head !in pool.FreeSet()
      modifies level.head, pool, pool.freeSlots
      ensures pool.Valid() && pool.FreeSet() == old(pool.FreeSet()) + {level.head}
      ensures level.head.data == old(level.head.data).(status := Cancelled)
      ensures level.head.levelPrev == null && level.head.levelNext == null
    {
      hide pool.Valid;
      var cur := level.head;
      while cur != null
        invariant pool.Valid()
        invariant cur == null || cur == level.head
        invariant cur != null ==> pool.FreeSet() == old(pool.FreeSet()) && level.head.data == old(level.head.data)
        invariant cur == null ==> pool.FreeSet() == old(pool.FreeSet()) + {level.head}
        invariant cur == null ==> level.head.data == old(level.head.data).(status := Cancelled)
        invariant cur == null ==> level.head.levelPrev == null && level.head.levelNext == null
        decreases if cur == null then 0 else 1
      {
        cur.levelPrev := null;
        cur.levelNext := null;
        cur.data := cur.data.(status := Cancelled);
        pool.Release(cur);
        cur := cur.levelNext;
      }
    }

    static lemma {:induction false} HeadsApart(
        tickets: seq<Ticket>, side: Side, prices: set<Price>, side': Side, p: Price)
      requires DistinctOrders(tickets) && At(tickets, side', p) != [] && (side != side' || p !in prices)
      ensures At(tickets, side', p)[0] !in HeadsIn(tickets, side, prices)
    {
      var o := At(tickets, side', p)[0];
      forall q | q in prices && At(tickets, side, q) != [] ensures At(tickets, side, q)[0] != o {
        AtDisjoint(tickets, side', p, side, q, o);
      }
    }

    static lemma {:induction false} HeadsInPlus(tickets: seq<Ticket>, side: Side, prices: set<Price>, p: Price)
      requires At(tickets, side, p) != []
      ensures HeadsIn(tickets, side, prices + {p}) == HeadsIn(tickets, side, prices) + {At(tickets, side, p)[0]}
      ensures p in prices ==> At(tickets, side, p)[0] in HeadsIn(tickets, side, prices)
    {
    }

    static lemma {:induction false} HeadsInNone(tickets: seq<Ticket>, side: Side)
      ensures HeadsIn(tickets, side, {}) == {}
    {
    }

    /** The level at each price of a side begins with the head of the queue filed there. */
    ghost predicate HeadsOk(side: Side)
      reads book, book.LevelSet()
    {
      forall p | p in book.Levels(side) ::
        && book.Levels(side)[p] in book.LevelSet()
        && At(book.tickets, side, p) != []
        && book.Levels(side)[p].head == At(book.tickets, side, p)[0]
    }

    method DrainSide(side: Side)
      requires pool.Valid() && DistinctOrders(book.tickets) && HeadsOk(side)
      requires HeadsIn(book.tickets, side, book.Levels(side).Keys) <= pool.Slots() - pool.FreeSet()
      modifies HeadsIn(book.tickets, side, book.Levels(side).Keys), pool, pool.freeSlots
      ensures pool.Valid()
      ensures pool.FreeSet() == old(pool.FreeSet()) + HeadsIn(book.tickets, side, book.Levels(side).Keys)
      ensures forall o | o in HeadsIn(book.tickets, side, book.Levels(side).Keys) ::
                o.data == old(o.data).(status := Cancelled)
    {
      hide pool.Valid, DistinctOrders, At, HeadsIn;
      ghost var keys, tickets := book.Levels(side).Keys, book.tickets;
      ghost var all := HeadsIn(tickets, side, keys);
      var rest := book.Levels(side).Keys;
      ghost var done, drained := {}, HeadsIn(tickets, side, {});
      assert drained == {} by {
        HeadsInNone(tickets, side);
      }
      while rest != {}
        invariant done + rest == keys && done !! rest && pool.Valid()
        invariant drained == HeadsIn(tickets, side, done) && drained <= all
        invariant pool.FreeSet() == old(pool.FreeSet()) + drained
        invariant forall o | o in drained :: o.data == old(o.data).(status := Cancelled)
        invariant forall o | o in all && o !in drained :: unchanged(o)
      {
        var p := Begin(side, rest);
        ghost var head := At(tickets, side, p)[0];
        HeadsApart(tickets, side, done, side, p);
        HeadsInPlus(tickets, side, done, p);
        HeadsInPlus(tickets, side, keys, p);
        DrainLevel(book.Levels(side)[p]);
        rest, done, drained := rest - {p}, done + {p}, drained + {head};
      }
      assert done == keys;
    }

    /** The heads of all levels, told from the arrival list alone. */
    lemma {:induction false} HeadsOfLevels()
      requires book.Valid()
      ensures HeadsIn(book.tickets, Buy, book.bids.Keys) + HeadsIn(book.tickets, Sell, book.asks.Keys)
           == HeadOrders(book.tickets)
      ensures HeadsOk(Buy) && HeadsOk(Sell)
      ensures HeadsIn(book.tickets, Buy, book.bids.Keys) !! HeadsIn(book.tickets, Sell, book.asks.Keys)
    {
      HeadsOfSide(Buy);
      HeadsOfSide(Sell);
      forall o | o in HeadOrders(book.tickets)
        ensures o in HeadsIn(book.tickets, Buy, book.bids.Keys) + HeadsIn(book.tickets, Sell, book.asks.Keys)
      {
        var i :| 0 <= i < |book.tickets| && IsHead(book.tickets, i) && book.tickets[i].order == o;
        HeadIsFirst(book.tickets, i);
        assert book.TicketOk(book.tickets[i]);
      }
      forall p | p in book.asks.Keys && At(book.tickets, Sell, p) != []
        ensures At(book.tickets, Sell, p)[0] !in HeadsIn(book.tickets, Buy, book.bids.Keys)
      {
        HeadsApart(book.tickets, Buy, book.bids.Keys, Sell, p);
      }
    }

    lemma {:induction false} HeadsOfSide(side: Side)
      requires book.Valid()
      ensures HeadsOk(side)
      ensures HeadsIn(book.tickets, side, book.Levels(side).Keys) <= HeadOrders(book.tickets) <= book.OrderSet()
    {
      forall p | p in book.Levels(side)
        ensures book.Levels(side)[p] in book.LevelSet()
        ensures At(book.tickets, side, p) != []
        ensures book.Levels(side)[p].head == At(book.tickets, side, p)[0]
        ensures At(book.tickets, side, p)[0] in HeadOrders(book.tickets)
      {
        assert book.LevelOk(side, p);
        var k := HeadOfQueue(book.tickets, side, p);
        assert IsHead(book.tickets, k);
      }
    }

    /** The keys of the tickets are the sides and prices of the flat book. */
    lemma {:induction false} KeysAreSidesAndPrices()
      requires book.Valid()
      ensures KeysUnique(book.tickets) <==> AloneAtPrice(book.View())
    {
      hide book.Valid;
      forall i | 0 <= i < |book.tickets|
        ensures book.View()[i].order.side == book.tickets[i].side && book.View()[i].order.price == book.tickets[i].price
      {
        book.TicketFacts(i);
        book.ViewAt(i);
      }
      hide book.View;
    }

    /** The heads of the levels are all of the book exactly when no two orders share side and price. */
    lemma {:induction false} HeadsFreeAllIff()
      requires Valid()
      ensures pool.FreeSet() + HeadOrders(book.tickets) == pool.FreeSet() + book.OrderSet()
         <==> AloneAtPrice(book.View())
    {
      assert book.OrderSet() == OrdersIn(book.tickets);
      hide book.Valid, book.View, pool.Valid, pool.FreeSet, HeadOrders, OrdersIn, KeysUnique, AloneAtPrice;
      book.TicketsDistinct();
      KeysAreSidesAndPrices();
      HeadsAreAllIff(book.tickets);
      HeadsRest(book.tickets);
      var free, heads, all := pool.FreeSet(), HeadOrders(book.tickets), book.OrderSet();
      assert heads == (free + heads) - free && all == (free + all) - free;
    }

    /**
     * cancel_all as written: the book is emptied, but only the order heading
     * each level is cancelled and released. The other orders keep their data
     * and their slots.
     */
    method CancelAll()
      requires Valid()
      modifies book, book.OrderSet(), pool, pool.freeSlots
      ensures Valid() && book.View() == [] && book.OrderSet() == {} && book.LevelSet() == {}
      ensures pool.FreeSet() == old(pool.FreeSet()) + HeadOrders(old(book.tickets))
      ensures pool.FreeSet() == old(pool.FreeSet()) + old(book.OrderSet()) <==> AloneAtPrice(old(book.View()))
      ensures forall o | o in HeadOrders(old(book.tickets)) :: o.data == old(o.data).(status := Cancelled)
      ensures forall o | o in old(book.OrderSet()) - HeadOrders(old(book.tickets)) :: unchanged(o)
    {
      hide book.Valid, book.View, pool.Valid, At, HeadOrders, DistinctOrders, AloneAtPrice;
      HeadsFreeAllIff();
      HeadsOfLevels();
      HeadsOfSide(Buy);
      book.TicketsDistinct();
      DrainSide(Buy);
      DrainSide(Sell);
      book.Clear();
    }
  }
}
