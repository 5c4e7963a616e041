/**
 * What a worker does with one command (src/matching/sharded_engine.cpp), on the
 * heap: its engine shares one pool of slots with the engines of all other
 * shards, and nothing it does reaches their books.
 */
module Workers {
  import opened Types
  import opened PriceTime
  import opened PriceLevels
  import opened OrderBooks
  import opened Pools
  import opened Engines
  import opened Gateway

  /** Two engines share no book, level or resting order. */
  ghost predicate Separate(a: Engine, b: Engine)
    reads a, a.BookSet(), b, b.BookSet()
  {
    a != b && a.BookSet() !! b.BookSet() && a.AllLevels() !! b.AllLevels() && a.AllOrders() !! b.AllOrders()
  }

  /** Another shard's engine over the same pool. */
  ghost predicate Peer(a: Engine, b: Engine)
    reads b, b.BookSet(), b.AllLevels(), b.AllOrders(), b.pool, b.pool.freeSlots, a, a.BookSet()
  {
    b.pool == a.pool && b.Valid() && Separate(a, b)
  }

  /** The parts of a peer, apart from everything the engine may write to. */
  lemma {:induction false} PeerParts(a: Engine, b: Engine, j: InstrumentId)
    requires Peer(a, b) && j in b.matchers
    ensures b.matchers[j].book in b.BookSet() && b.matchers[j].book !in a.BookSet()
    ensures b.matchers[j].book.LevelSet() !! a.AllLevels()
    ensures b.matchers[j].book.OrderSet() !! a.AllOrders()
    ensures b.matchers[j].book.OrderSet() <= b.AllOrders()
  {
    b.SlotFacts(j);
    hide Engine.Valid, Engine.AllLevels, Engine.AllOrders;
  }

  /** A peer all of whose books were left alone is the same as before. */
  twostate lemma {:induction false} PeerIsSame(b: Engine)
    requires old(b.Valid()) && unchanged(b) && b.pool.Valid() && b.pool.FreeSet() !! old(b.AllOrders())
    requires forall j {:trigger b.SlotKept(j)} | j in b.matchers :: b.SlotKept(j)
    ensures b.Valid() && b.View() == old(b.View()) && b.AllOrders() == old(b.AllOrders())
  {
    hide Engine.Valid, Engine.View, Engine.AllOrders, Pool.Valid, Pool.FreeSet, Engine.SlotKept;
    b.ValidAfterPool();
    b.ViewAfterPool();
  }

  twostate lemma {:induction false} PeerSetsSame(b: Engine)
    requires unchanged(b) && forall j {:trigger b.SlotKept(j)} | j in b.matchers :: b.SlotKept(j)
    ensures b.BookSet() == old(b.BookSet()) && b.AllLevels() == old(b.AllLevels())
  {
    hide OrderBook.View, OrderBook.Valid, OrderBook.OrderSet;
    forall j | j in b.matchers ensures b.matchers[j].book.LevelSet() == old(b.matchers[j].book.LevelSet()) {
      assert b.SlotKept(j);
      KeptBookIsSame(b.matchers[j].book);
    }
  }

  /** What a peer sees of work in another engine: its own books untouched, and none of its orders freed. */
  twostate predicate LeftAlone(b: Engine)
    reads *
  {
    && unchanged(b) && b.pool.Valid() && b.pool.FreeSet() !! old(b.AllOrders())
    && forall j {:trigger b.SlotKept(j)} | j in b.matchers :: b.SlotKept(j)
  }

  twostate lemma {:induction false} OldLevelsNotFresh(b: Engine)
    ensures forall l | l in old(b.AllLevels()) :: !fresh(l)
  {
  }

  class Worker {
    const engine: Engine

    constructor (engine: Engine)
      ensures this.engine == engine
    {
      this.engine := engine;
    }

    /** A peer in which the order does not rest. */
    ghost predicate PeerWithout(e: Engine, order: Order)
      reads e, e.BookSet(), e.AllLevels(), e.AllOrders(), e.pool, e.pool.freeSlots, engine, engine.BookSet()
    {
      Peer(engine, e) && order !in e.AllOrders()
    }

    /** A peer whose books are what they were. */
    twostate predicate SamePeer(e: Engine)
      reads *
    {
      && old(e.Valid()) && Peer(engine, e)
      && e.View() == old(e.View()) && e.AllOrders() == old(e.AllOrders())
    }

    ghost predicate NotFree(e: Engine)
      reads e, e.BookSet(), e.pool, e.pool.freeSlots, engine, engine.BookSet()
    {
      && e.pool == engine.pool && e.pool.Valid() && e != engine
      && e.AllOrders() !! e.pool.FreeSet() && e.AllOrders() !! engine.AllOrders()
    }

    /** Book j of a peer is out of reach of work on the engine. */
    ghost predicate Beyond(e: Engine, j: InstrumentId)
      requires j in e.matchers
      reads e, e.BookSet(), engine, engine.BookSet()
    {
      var b := e.matchers[j].book;
      && b in e.BookSet() && b !in engine.BookSet()
      && b.LevelSet() !! engine.AllLevels() && b.OrderSet() !! engine.AllOrders() && b.OrderSet() <= e.AllOrders()
    }

    lemma {:induction false} AllBeyond(e: Engine)
      requires Peer(engine, e)
      ensures NotFree(e) && forall j {:trigger Beyond(e, j)} | j in e.matchers :: Beyond(e, j)
    {
      hide Engine.Valid, Engine.AllOrders, Engine.AllLevels, Engine.BookSet, Pool.Valid, Pool.FreeSet;
      e.RestingNotFree();
      forall j | j in e.matchers ensures Beyond(e, j) {
        PeerParts(engine, e, j);
      }
    }

    /** The engine took in at most new levels and `taken`, so it stays apart from a peer that was left alone. */
    twostate lemma {:induction false} StillPeer(b: Engine, new taken: set<Order>)
      requires old(Peer(engine, b)) && LeftAlone(b) && unchanged(engine) && taken !! old(b.AllOrders())
      requires forall l | l in engine.AllLevels() :: l in old(engine.AllLevels()) || fresh(l)
      requires engine.AllOrders() <= old(engine.AllOrders()) + taken
      ensures Peer(engine, b) && b.View() == old(b.View()) && b.AllOrders() == old(b.AllOrders())
    {
      hide Engine.Valid, Engine.View, Engine.AllOrders, Engine.AllLevels, Pool.Valid, Pool.FreeSet, Engine.SlotKept;
      PeerIsSame(b);
      PeerSetsSame(b);
      OldLevelsNotFresh(b);
    }

    /** The engine matches the order; the peers do not notice. */
    method Place(order: Order, ghost peers: set<Engine>) returns (trades: seq<Trade>)
      requires engine.Valid() && engine.pool.Valid() && engine.Held(order) && order.data.filled == 0
      requires forall e {:trigger PeerWithout(e, order)} | e in peers :: PeerWithout(e, order)
      modifies engine.BookSet(), engine.AllLevels(), engine.AllOrders(), order, engine.pool, engine.pool.freeSlots
      ensures engine.Valid() && engine.pool.Valid()
      ensures Reply(engine.View(), order.data, trades) == RouteSubmit(old(engine.View()), old(order.data))
      ensures order in engine.AllOrders() <==> order.data.status != Rejected && Rests(order.data)
      ensures engine.AllOrders() <= old(engine.AllOrders()) + {order}
      ensures engine.pool.FreeSet() == old(engine.pool.FreeSet()) + (old(engine.AllOrders()) - engine.AllOrders())
      ensures forall e {:trigger SamePeer(e)} | e in peers :: SamePeer(e)
    {
      hide Engine.Valid, Engine.View, Engine.AllOrders, Engine.AllLevels, Engine.BookSet, Pool.Valid, Pool.FreeSet,
           RouteSubmit, Rests;
      forall e | e in peers ensures NotFree(e) && forall j {:trigger Beyond(e, j)} | j in e.matchers :: Beyond(e, j) {
        assert PeerWithout(e, order);
        AllBeyond(e);
      }
      trades := engine.Submit(order);
      engine.PoolFacts();
      forall e | e in peers ensures LeftAlone(e) {
        assert old(NotFree(e)) && old(PeerWithout(e, order));
        forall j | j in e.matchers ensures e.SlotKept(j) {
          assert old(Beyond(e, j));
        }
      }
      forall e | e in peers ensures SamePeer(e) {
        assert old(PeerWithout(e, order));
        StillPeer(e, {order});
      }
    }

    /** The slot of a terminal order goes back to the shared pool. */
    method Retire(order: Order, ghost peers: set<Engine>)
      requires engine.Valid() && engine.pool.Valid()
      requires order.data.IsTerminal() ==> engine.Held(order)
      requires forall e {:trigger PeerWithout(e, order)} | e in peers :: PeerWithout(e, order)
      modifies engine.pool, engine.pool.freeSlots
      ensures engine.Valid() && engine.pool.Valid()
      ensures engine.View() == old(engine.View()) && engine.AllOrders() == old(engine.AllOrders())
      ensures engine.pool.FreeSet() == old(engine.pool.FreeSet()) + (if order.data.IsTerminal() then {order} else {})
      ensures forall e {:trigger SamePeer(e)} | e in peers :: SamePeer(e)
    {
      hide Engine.Valid, Engine.View, Engine.AllOrders, Engine.AllLevels, Engine.BookSet, Pool.Valid, Pool.FreeSet;
      forall e | e in peers ensures NotFree(e) && forall j {:trigger Beyond(e, j)} | j in e.matchers :: Beyond(e, j) {
        assert PeerWithout(e, order);
        AllBeyond(e);
      }
      if order.data.IsTerminal() {
        engine.ReleaseOrder(order);
      }
      forall e | e in peers ensures LeftAlone(e) {
        assert old(NotFree(e)) && old(PeerWithout(e, order));
        forall j | j in e.matchers ensures e.SlotKept(j) {
          assert old(Beyond(e, j));
        }
      }
      forall e | e in peers ensures SamePeer(e) {
        assert old(PeerWithout(e, order));
        StillPeer(e, {});
      }
    }

    /**
     * A submit command: the books change as the engine alone would change them,
     * the engines of all other shards stay as they are, and the order's slot
     * ends resting, or back in the pool, or, exactly when the order is stranded,
     * with nobody.
     */
    method Submit(order: Order, ghost peers: set<Engine>) returns (trades: seq<Trade>)
      requires engine.Valid() && engine.pool.Valid() && engine.Held(order) && order.data.filled == 0
      requires forall e {:trigger PeerWithout(e, order)} | e in peers :: PeerWithout(e, order)
      modifies engine.BookSet(), engine.AllLevels(), engine.AllOrders(), order, engine.pool, engine.pool.freeSlots
      ensures engine.Valid() && engine.pool.Valid()
      ensures Reply(engine.View(), order.data, trades) == RouteSubmit(old(engine.View()), old(order.data))
      ensures engine.AllOrders() <= old(engine.AllOrders()) + {order}
      ensures engine.pool.FreeSet() == old(engine.pool.FreeSet()) + (old(engine.AllOrders()) - engine.AllOrders())
                                     + (if order.data.IsTerminal() then {order} else {})
      ensures engine.Held(order) <==> WillStrand(old(engine.View()), old(order.data))
      ensures forall e {:trigger SamePeer(e)} | e in peers :: SamePeer(e)
    {
      hide Engine.Valid, Engine.View, Engine.AllOrders, Engine.AllLevels, Engine.BookSet, Pool.Valid, Pool.FreeSet,
           RouteSubmit, Rests, WillStrand, Separate;
      EndsOneWay(engine.View(), order.data);
      StrandedIff(engine.View(), order.data);
      trades := Place(order, peers);
      forall e | e in peers
        ensures old(e.Valid()) && e.Valid() && e.View() == old(e.View()) && e.AllOrders() == old(e.AllOrders())
      {
        assert SamePeer(e);
      }
      label Placed:
      forall e | e in peers ensures PeerWithout(e, order) {
        assert SamePeer(e) && old(PeerWithout(e, order));
      }
      Retire(order, peers);
      forall e | e in peers ensures SamePeer(e) {
        assert SamePeer@Placed(e);
        assert old@Placed(PeerWithout(e, order));
      }
    }

    /** A cancel command, likewise. */
    method Cancel(instrument: InstrumentId, id: OrderId, ghost peers: set<Engine>) returns (ok: bool)
      requires engine.Valid() && engine.pool.Valid()
      requires forall e {:trigger Peer(engine, e)} | e in peers :: Peer(engine, e)
      modifies engine.BookSet(), engine.AllLevels(), engine.AllOrders(), engine.pool, engine.pool.freeSlots
      ensures engine.Valid() && engine.pool.Valid()
      ensures engine.View() == RouteCancel(old(engine.View()), instrument, id)
      ensures ok <==> CanCancel(old(engine.View()), instrument, id)
      ensures engine.AllOrders() <= old(engine.AllOrders())
      ensures engine.pool.FreeSet() == old(engine.pool.FreeSet()) + (old(engine.AllOrders()) - engine.AllOrders())
      ensures forall e {:trigger SamePeer(e)} | e in peers :: SamePeer(e)
    {
      hide Engine.Valid, Engine.View, Engine.AllOrders, Engine.AllLevels, Engine.BookSet, Pool.Valid, Pool.FreeSet,
           RouteCancel, CanCancel;
      forall e | e in peers ensures NotFree(e) && forall j {:trigger Beyond(e, j)} | j in e.matchers :: Beyond(e, j) {
        AllBeyond(e);
      }
      ok := engine.Cancel(instrument, id);
      engine.PoolFacts();
      forall e | e in peers ensures LeftAlone(e) {
        assert old(NotFree(e)) && old(Peer(engine, e));
        forall j | j in e.matchers ensures e.SlotKept(j) {
          assert old(Beyond(e, j));
        }
      }
      forall e | e in peers ensures SamePeer(e) {
        assert old(Peer(engine, e));
        StillPeer(e, {});
      }
    }
  }
}
