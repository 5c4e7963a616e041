/**
 * The dispatcher at work on a session and the engine
 * (src/gateway/dispatcher.cpp), proved against the reactions of the gateway
 * model.
 */
module Dispatchers {
  import opened Types
  import opened PriceTime
  import opened PriceLevels
  import opened OrderBooks
  import opened Pools
  import opened Engines
  import opened Wire
  import opened Framing
  import opened Sessions
  import opened Gateway

  /** The slots of the pool in the hands of callers. */
  ghost function HeldSet(e: Engine): set<Order>
    requires e.pool.Valid()
    reads e, e.BookSet(), e.pool, e.pool.freeSlots
  {
    e.pool.Slots() - e.pool.FreeSet() - e.AllOrders()
  }

  twostate lemma {:induction false} KeptSets(e: Engine)
    requires e.Untouched()
    ensures e.BookSet() == old(e.BookSet())
    ensures e.AllLevels() == old(e.AllLevels()) && e.AllOrders() == old(e.AllOrders())
  {
    hide Engine.AllOrders, Engine.AllLevels, OrderBook.LevelSet, OrderBook.OrderSet;
  }

  twostate lemma {:induction false} KeptValid(e: Engine)
    requires old(e.Valid()) && e.Untouched()
    ensures e.Valid()
  {
    hide Engine.Valid, Engine.AllOrders, Engine.AllLevels, Engine.BookSet, OrderBook.LevelSet, OrderBook.OrderSet;
  }

  twostate lemma {:induction false} KeptEngineIsSame(e: Engine)
    requires old(e.Valid()) && e.Untouched()
    ensures e.Valid() && e.View() == old(e.View()) && e.AllOrders() == old(e.AllOrders())
    ensures e.BookSet() == old(e.BookSet()) && e.AllLevels() == old(e.AllLevels())
  {
    hide Engine.Valid, Engine.View, Engine.AllOrders, Engine.AllLevels, Engine.BookSet;
    KeptSets(e);
    KeptValid(e);
  }

  /** A session is no part of the engine. */
  lemma {:induction false} SessionIsApart(s: Session, e: Engine)
    ensures (e as object) != s && (e.pool as object) != s && (e.pool.freeSlots as object) != s
    ensures forall b | b in e.BookSet() :: allocated(b) && (b as object) != s
    ensures forall l | l in e.AllLevels() :: allocated(l) && (l as object) != s
    ensures forall o | o in e.AllOrders() :: allocated(o) && (o as object) != s
  {
  }

  /** Nor are free slots part of a session or of what rests. */
  lemma {:induction false} FreeIsApart(s: Session, e: Engine)
    requires e.Valid() && e.pool.Valid()
    ensures forall o | o in e.pool.FreeSet() :: (o as object) != s && (o as object) != e && o !in e.AllOrders()
    ensures forall o, b | o in e.pool.FreeSet() && b in e.BookSet() :: (o as object) != b
    ensures forall b | b in e.BookSet() :: (b as object) != e.pool
  {
    hide Engine.Valid, Engine.AllOrders, Engine.AllLevels, Engine.BookSet, Pool.Valid, Pool.FreeSet;
    e.RestingNotFree();
  }

  /** The framer of a session is no part of the engine either. */
  lemma {:induction false} FramerIsApart(s: Session, e: Engine)
    ensures (s.framer as object) != s && (s.framer as object) != e.pool && (s.framer as object) != e.pool.freeSlots
    ensures forall b | b in e.BookSet() :: (b as object) != s.framer
    ensures forall l | l in e.AllLevels() :: (l as object) != s.framer
    ensures forall o | o in e.pool.Slots() :: (o as object) != s.framer
  {
  }

  /** The turns are these messages, in this order. */
  ghost predicate TurnsFor(turns: seq<Turn>, msgs: seq<Message>) {
    && |turns| == |msgs|
    && (forall i | 0 <= i < |turns| :: turns[i].Inbound? && turns[i].m == msgs[i].body)
  }

  /** As long as fewer than `free` new orders came before, there is a slot. */
  ghost predicate RoomFor(turns: seq<Turn>, free: nat) {
    forall i | 0 <= i < |turns| && turns[i].Inbound? && NewOrdersIn(turns[..i]) < free :: turns[i].room
  }

  /** What is left to drain, one message on. */
  lemma {:induction false} DrainOneMore(f: Frames, all: Drained, k: nat)
    requires k <= |all.msgs| && Drain(f) == Drained(all.msgs[k..], all.state)
    ensures var p := Poll(f);
      && (p.msg.Some? ==>
            && k < |all.msgs| && p.msg.value == all.msgs[k]
            && Drain(p.state) == Drained(all.msgs[k + 1..], all.state))
      && (p.msg.None? ==> k == |all.msgs| && p.state == all.state)
  {
    hide Poll;
    var p := Poll(f);
    if p.msg.Some? {
      assert all.msgs[k..] == [p.msg.value] + Drain(p.state).msgs;
      assert all.msgs[k + 1..] == all.msgs[k..][1..] == Drain(p.state).msgs;
    }
  }

  lemma {:induction false} NoTurns(d: Desk, free: nat)
    ensures Serve(d, []) == d && Sent(d, []) == [] && StrandedIn(d, []) == 0
    ensures NewOrdersIn([]) == 0 && RoomFor([], free) && TurnsFor([], [])
  {
  }

  lemma {:induction false} OneMoreTurn(d: Desk, turns: seq<Turn>, t: Turn, msgs: seq<Message>, free: nat)
    requires |turns| < |msgs| && TurnsFor(turns, msgs[..|turns|]) && RoomFor(turns, free)
    requires t.Inbound? && t.m == msgs[|turns|].body && (NewOrdersIn(turns) < free ==> t.room)
    ensures var ts := turns + [t];
      && TurnsFor(ts, msgs[..|ts|]) && RoomFor(ts, free)
      && Serve(d, ts) == React(Serve(d, turns), t.m, t.room).desk
      && Sent(d, ts) == Sent(d, turns) + React(Serve(d, turns), t.m, t.room).out
      && StrandedIn(d, ts) == StrandedIn(d, turns) + Strands(Serve(d, turns), t.m, t.room)
      && NewOrdersIn(ts) == NewOrdersIn(turns) + if t.m.NewOrder? then 1 else 0
  {
    hide React, Strands;
    var ts := turns + [t];
    assert ts[..|turns|] == turns;
    assert forall i | 0 <= i < |turns| :: ts[..i] == turns[..i] && ts[i] == turns[i];
    assert forall i | 0 <= i < |turns| :: msgs[..|ts|][i] == msgs[..|turns|][i];
  }

  lemma {:induction false} AtMostUsed<T>(before: set<T>, after: set<T>, used: set<T>)
    requires before <= after + used
    ensures |before| <= |after| + |used|
  {
    assert |before| <= |after + used| by {
      Fewer(before, after + used);
    }
  }

  lemma {:induction false} Fewer<T>(a: set<T>, b: set<T>)
    requires a <= b
    ensures |a| <= |b|
  {
    assert b == a + (b - a);
  }

  class Dispatcher {
    const engine: Engine

    constructor (engine: Engine)
      ensures this.engine == engine
    {
      this.engine := engine;
    }

    /** The session and the books behind it, as the gateway model sees them. */
    ghost function DeskOf(s: Session): Desk
      requires engine.Valid()
      reads s, engine, engine.BookSet(), engine.AllLevels(), engine.AllOrders(), engine.pool, engine.pool.freeSlots
    {
      Desk(s.phase, s.clientId, engine.View())
    }

    method HandleLogon(s: Session, client: U32)
      requires s.Valid() && engine.Valid()
      modifies s
      ensures s.Valid() && engine.Valid()
      ensures engine.Untouched()
      ensures var x := React(old(DeskOf(s)), Logon(client), true); DeskOf(s) == x.desk && s.sent == old(s.sent) + x.out
    {
      hide Engine.Valid, Engine.View, Engine.AllOrders, Engine.AllLevels, Engine.BookSet;
      SessionIsApart(s, engine);
      if s.phase != NotLoggedOn {
        return;
      }
      s.clientId := client;
      s.phase := Active;
      s.Emit(Logon(client));
      KeptEngineIsSame(engine);
    }

    method HandleLogout(s: Session)
      requires s.Valid() && engine.Valid()
      modifies s
      ensures s.Valid() && engine.Valid()
      ensures engine.Untouched()
      ensures var x := React(old(DeskOf(s)), Logout, true); DeskOf(s) == x.desk && s.sent == old(s.sent) + x.out
    {
      hide Engine.Valid, Engine.View, Engine.AllOrders, Engine.AllLevels, Engine.BookSet;
      SessionIsApart(s, engine);
      s.phase := Closing;
      s.Emit(Logout);
      KeptEngineIsSame(engine);
    }

    method HandleHeartbeat(s: Session)
      requires s.Valid() && engine.Valid()
      modifies s
      ensures s.Valid() && engine.Valid()
      ensures engine.Untouched()
      ensures var x := React(old(DeskOf(s)), Heartbeat, true); DeskOf(s) == x.desk && s.sent == old(s.sent) + x.out
    {
      hide Engine.Valid, Engine.View, Engine.AllOrders, Engine.AllLevels, Engine.BookSet;
      SessionIsApart(s, engine);
      s.Emit(Heartbeat);
      KeptEngineIsSame(engine);
    }

    /** Emitting leaves the engine alone. */
    method Send(s: Session, b: Body)
      requires s.Valid() && engine.Valid() && engine.pool.Valid()
      modifies s`outSeq, s`outbound, s`sent
      ensures s.Valid() && s.sent == old(s.sent) + [b]
      ensures engine.Valid() && engine.View() == old(engine.View())
      ensures engine.pool.Valid() && engine.pool.FreeSet() == old(engine.pool.FreeSet())
      ensures HeldSet(engine) == old(HeldSet(engine)) && engine.AllLevels() == old(engine.AllLevels())
    {
      hide Engine.Valid, Engine.View, Engine.AllOrders, Engine.AllLevels, Engine.BookSet, Session.Valid,
           Pool.Valid, Pool.FreeSet;
      SessionIsApart(s, engine);
      s.Emit(b);
      KeptEngineIsSame(engine);
    }

    /** The engine cancels; the session is not involved, and no slot changes hands but from resting to free. */
    method Withdraw(s: Session, instrument: InstrumentId, id: OrderId) returns (ok: bool)
      requires engine.Valid() && engine.pool.Valid()
      modifies engine.BookSet(), engine.AllLevels(), engine.AllOrders(), engine.pool, engine.pool.freeSlots
      ensures engine.Valid() && engine.pool.Valid() && unchanged(s)
      ensures engine.View() == RouteCancel(old(engine.View()), instrument, id)
      ensures ok <==> CanCancel(old(engine.View()), instrument, id)
      ensures HeldSet(engine) == old(HeldSet(engine)) && engine.pool.FreeSet() >= old(engine.pool.FreeSet())
      ensures forall l | l in engine.AllLevels() :: l in old(engine.AllLevels()) || fresh(l)
    {
      hide Engine.Valid, Engine.View, Engine.AllOrders, Engine.AllLevels, Engine.BookSet,
           RouteCancel, CanCancel, Pool.Valid, Pool.FreeSet;
      SessionIsApart(s, engine);
      ok := engine.Cancel(instrument, id);
      engine.PoolFacts();
    }

    method HandleCancel(s: Session, m: Body)
      requires s.Valid() && engine.Valid() && engine.pool.Valid() && m.CancelOrder?
      modifies s, engine.BookSet(), engine.AllLevels(), engine.AllOrders(), engine.pool, engine.pool.freeSlots
      ensures s.Valid() && engine.Valid() && engine.pool.Valid()
      ensures var x := React(old(DeskOf(s)), m, true); DeskOf(s) == x.desk && s.sent == old(s.sent) + x.out
      ensures HeldSet(engine) == old(HeldSet(engine)) && engine.pool.FreeSet() >= old(engine.pool.FreeSet())
      ensures forall l | l in engine.AllLevels() :: l in old(engine.AllLevels()) || fresh(l)
    {
      hide Engine.Valid, Engine.View, Engine.AllOrders, Engine.AllLevels, Engine.BookSet, Session.Valid, HeldSet,
           RouteCancel, CanCancel, Pool.Valid, Pool.FreeSet;
      if s.phase != Active {
        Send(s, OrderReject(m.clientOrderId, REASON_NOT_LOGGED_ON));
        return;
      }
      var ok := Withdraw(s, m.instrument, m.clientOrderId);
      MissedCancel(old(engine.View()), m.instrument, m.clientOrderId);
      if ok {
        Send(s, Body.Cancelled(m.clientOrderId));
      } else {
        Send(s, OrderReject(m.clientOrderId, REASON_UNKNOWN));
      }
    }

    /** A slot from the pool, filled in; a null result when the pool has none. */
    method Prepare(s: Session, m: Body) returns (order: Order?)
      requires engine.Valid() && engine.pool.Valid() && m.NewOrder?
      modifies engine.pool, engine.pool.FreeSet()
      ensures engine.Valid() && engine.pool.Valid() && unchanged(s)
      ensures engine.View() == old(engine.View()) && engine.AllOrders() == old(engine.AllOrders())
      ensures engine.BookSet() == old(engine.BookSet()) && engine.AllLevels() == old(engine.AllLevels())
      ensures order == null <==> old(engine.pool.FreeSet()) == {}
      ensures order == null ==> engine.pool.FreeSet() == {}
      ensures order != null ==>
        && order in old(engine.pool.FreeSet()) && engine.pool.FreeSet() == old(engine.pool.FreeSet()) - {order}
        && engine.Held(order) && order.data == OrderOf(s.clientId, m)
        && HeldSet(engine) == old(HeldSet(engine)) + {order} && order !in old(HeldSet(engine))
      ensures order == null ==> HeldSet(engine) == old(HeldSet(engine))
    {
      hide Engine.Valid, Engine.View, Engine.AllOrders, Engine.AllLevels, Engine.BookSet, Pool.Valid, Pool.FreeSet;
      SessionIsApart(s, engine);
      FreeIsApart(s, engine);
      engine.pool.FreeAreSlots();
      order := engine.AcquireOrder();
      if order != null {
        label Acquired:
        SessionIsApart(s, engine);
        order.data := OrderOf(s.clientId, m);
        KeptEngineIsSame@Acquired(engine);
      }
    }

    /** A prepared order goes through the engine: it rests, or the caller goes on holding it. */
    method Place(s: Session, order: Order) returns (trades: seq<Trade>)
      requires engine.Valid() && engine.pool.Valid() && engine.Held(order) && order.data.filled == 0
      modifies engine.BookSet(), engine.AllLevels(), engine.AllOrders(), order, engine.pool, engine.pool.freeSlots
      ensures engine.Valid() && engine.pool.Valid() && unchanged(s)
      ensures Reply(engine.View(), order.data, trades) == RouteSubmit(old(engine.View()), old(order.data))
      ensures engine.Held(order) <==> order.data.status == Rejected || !Rests(order.data)
      ensures HeldSet(engine) == old(HeldSet(engine)) - (if engine.Held(order) then {} else {order})
      ensures engine.pool.FreeSet() >= old(engine.pool.FreeSet())
      ensures forall l | l in engine.AllLevels() :: l in old(engine.AllLevels()) || fresh(l)
    {
      hide Engine.Valid, Engine.View, Engine.AllOrders, Engine.AllLevels, Engine.BookSet, Pool.Valid, Pool.FreeSet,
           RouteSubmit, Rests;
      SessionIsApart(s, engine);
      trades := engine.Submit(order);
      engine.PoolFacts();
    }

    /** classify asks the engine whether the instrument has a book. */
    function ReasonFor(m: Body): (r: U8)
      requires engine.Valid() && m.NewOrder?
      reads engine, engine.BookSet(), engine.AllLevels(), engine.AllOrders(), engine.pool, engine.pool.freeSlots
      ensures r == Classify(m.instrument in engine.View(), m)
    {
      Classify(engine.FindBook(m.instrument) != null, m)
    }

    /** The reject, or the ack and one fill for each trade. */
    method Report(s: Session, m: Body, order: Order, trades: seq<Trade>)
      requires s.Valid() && engine.Valid() && engine.pool.Valid() && m.NewOrder?
      modifies s`outSeq, s`outbound, s`sent
      ensures engine.Valid() && engine.View() == old(engine.View())
      ensures s.Valid() && s.sent == old(s.sent) + Answer(m, Reply(engine.View(), order.data, trades))
      ensures engine.pool.Valid() && engine.pool.FreeSet() == old(engine.pool.FreeSet())
      ensures HeldSet(engine) == old(HeldSet(engine)) && engine.AllLevels() == old(engine.AllLevels())
    {
      hide Engine.Valid, Engine.View, Engine.AllOrders, Engine.AllLevels, Engine.BookSet, Session.Valid, HeldSet,
           Pool.Valid, Pool.FreeSet, Classify;
      if order.data.status == Rejected {
        Send(s, OrderReject(m.clientOrderId, ReasonFor(m)));
        return;
      }
      Send(s, OrderAck(m.clientOrderId, m.clientOrderId));
      var status := order.data.status;
      for i := 0 to |trades|
        modifies s`outSeq, s`outbound, s`sent
        invariant s.Valid() && engine.Valid() && engine.View() == old(engine.View())
        invariant engine.pool.Valid() && engine.pool.FreeSet() == old(engine.pool.FreeSet())
        invariant HeldSet(engine) == old(HeldSet(engine)) && engine.AllLevels() == old(engine.AllLevels())
        invariant s.sent == old(s.sent) + [OrderAck(m.clientOrderId, m.clientOrderId)] + FillsOf(m, status, trades[..i])
      {
        assert trades[..i + 1][..i] == trades[..i];
        Send(s, Fill(m.clientOrderId, m.clientOrderId, trades[i].price, trades[i].quantity, StatusCode(status)));
      }
      assert trades[..|trades|] == trades;
    }

    /** The slot of a terminal order goes back to the pool. */
    method Retire(s: Session, order: Order)
      requires engine.Valid() && engine.pool.Valid()
      requires order.data.IsTerminal() ==> engine.Held(order)
      modifies engine.pool, engine.pool.freeSlots
      ensures engine.Valid() && engine.pool.Valid() && unchanged(s)
      ensures engine.View() == old(engine.View()) && engine.AllLevels() == old(engine.AllLevels())
      ensures engine.pool.FreeSet() == old(engine.pool.FreeSet()) + (if order.data.IsTerminal() then {order} else {})
      ensures HeldSet(engine) == old(HeldSet(engine)) - (if order.data.IsTerminal() then {order} else {})
    {
      hide Engine.Valid, Engine.View, Engine.AllOrders, Engine.AllLevels, Engine.BookSet, Pool.Valid, Pool.FreeSet;
      SessionIsApart(s, engine);
      if order.data.IsTerminal() {
        engine.ReleaseOrder(order);
      }
    }

    /** From the slot taken off the free stack to the slot put back: only a stranded order stays with the caller. */
    method Execute(s: Session, m: Body, order: Order)
      requires s.Valid() && engine.Valid() && engine.pool.Valid() && m.NewOrder?
      requires engine.Held(order) && order.data == OrderOf(s.clientId, m)
      modifies s, engine.BookSet(), engine.AllLevels(), engine.AllOrders(), order, engine.pool, engine.pool.freeSlots
      ensures s.Valid() && engine.Valid() && engine.pool.Valid()
      ensures s.phase == old(s.phase) && s.clientId == old(s.clientId)
      ensures var r := RouteSubmit(old(engine.View()), OrderOf(s.clientId, m));
        && engine.View() == r.books && s.sent == old(s.sent) + Answer(m, r)
        && HeldSet(engine) == old(HeldSet(engine))
           - (if WillStrand(old(engine.View()), OrderOf(s.clientId, m)) then {} else {order})
      ensures engine.pool.FreeSet() >= old(engine.pool.FreeSet())
      ensures forall l | l in engine.AllLevels() :: l in old(engine.AllLevels()) || fresh(l)
    {
      hide Engine.Valid, Engine.View, Engine.AllOrders, Engine.AllLevels, Engine.BookSet, Session.Valid,
           Pool.Valid, Pool.FreeSet, RouteSubmit, Rests, Answer, OrderOf, WillStrand;
      EndsOneWay(engine.View(), order.data);
      StrandedIff(engine.View(), order.data);
      var trades := Place(s, order);
      Report(s, m, order, trades);
      Retire(s, order);
    }

    /**
     * A new order takes one slot if it gets to the engine. Afterwards the slot
     * rests in a book or is free again, unless the order is stranded: then it
     * stays held for good.
     */
    method HandleNewOrder(s: Session, m: Body) returns (ghost used: set<Order>)
      requires s.Valid() && engine.Valid() && engine.pool.Valid() && m.NewOrder?
      modifies s, engine.BookSet(), engine.AllLevels(), engine.AllOrders(), engine.pool, engine.pool.freeSlots,
               engine.pool.FreeSet()
      ensures s.Valid() && engine.Valid() && engine.pool.Valid()
      ensures var x := React(old(DeskOf(s)), m, old(engine.pool.FreeSet()) != {});
        DeskOf(s) == x.desk && s.sent == old(s.sent) + x.out
      ensures used <= old(engine.pool.FreeSet()) <= engine.pool.FreeSet() + used
      ensures forall l | l in engine.AllLevels() :: l in old(engine.AllLevels()) || fresh(l)
      ensures |used| == if old(s.phase) == Active && old(engine.pool.FreeSet()) != {} then 1 else 0
      ensures HeldSet(engine) == old(HeldSet(engine))
        + (if WillStrand(old(engine.View()), OrderOf(old(s.clientId), m)) then used else {})
    {
      hide Engine.Valid, Engine.View, Engine.AllOrders, Engine.AllLevels, Engine.BookSet, Session.Valid,
           Pool.Valid, Pool.FreeSet, RouteSubmit, Rests, Answer, OrderOf, WillStrand, HeldSet, Engine.Held;
      used := {};
      if s.phase != Active {
        Send(s, OrderReject(m.clientOrderId, REASON_NOT_LOGGED_ON));
        return;
      }
      var order := Prepare(s, m);
      if order == null {
        Send(s, OrderReject(m.clientOrderId, REASON_UNKNOWN));
        return;
      }
      used := {order};
      Execute(s, m, order);
    }

    /** The message had the effect the gateway model gives it, stranded slots included. */
    twostate predicate Reacted(s: Session, new m: Body)
      requires old(engine.Valid()) && engine.Valid() && old(engine.pool.Valid()) && engine.pool.Valid()
      reads *
    {
      var d, room := old(DeskOf(s)), old(engine.pool.FreeSet()) != {};
      && Reaction(DeskOf(s), s.sent) == Reaction(React(d, m, room).desk, old(s.sent) + React(d, m, room).out)
      && |HeldSet(engine)| == |old(HeldSet(engine))| + Strands(d, m, room)
      && old(HeldSet(engine)) <= HeldSet(engine)
    }

    method HandleOrder(s: Session, m: Body) returns (ghost used: set<Order>)
      requires s.Valid() && engine.Valid() && engine.pool.Valid() && m.NewOrder?
      modifies s, engine.BookSet(), engine.AllLevels(), engine.pool, engine.pool.freeSlots, engine.pool.Slots()
      ensures s.Valid() && engine.Valid() && engine.pool.Valid() && unchanged(s.framer)
      ensures Reacted(s, m)
      ensures forall l | l in engine.AllLevels() :: l in old(engine.AllLevels()) || fresh(l)
      ensures old(engine.pool.FreeSet()) <= engine.pool.FreeSet() + used && |used| <= if m.NewOrder? then 1 else 0
    {
      hide Engine.Valid, Engine.View, Engine.AllOrders, Engine.AllLevels, Engine.BookSet, Session.Valid,
           Pool.Valid, Pool.FreeSet, RouteSubmit, Rests, React, OrderOf, WillStrand;
      FramerIsApart(s, engine);
      engine.RestingNotFree();
      engine.pool.FreeAreSlots();
      used := HandleNewOrder(s, m);
    }

    /** One message, whichever it is. */
    method Handle(s: Session, m: Body) returns (ghost used: set<Order>)
      requires s.Valid() && engine.Valid() && engine.pool.Valid()
      modifies s, engine.BookSet(), engine.AllLevels(), engine.pool, engine.pool.freeSlots, engine.pool.Slots()
      ensures s.Valid() && engine.Valid() && engine.pool.Valid() && unchanged(s.framer)
      ensures Reacted(s, m)
      ensures forall l | l in engine.AllLevels() :: l in old(engine.AllLevels()) || fresh(l)
      ensures old(engine.pool.FreeSet()) <= engine.pool.FreeSet() + used && |used| <= if m.NewOrder? then 1 else 0
    {
      hide Engine.Valid, Engine.View, Engine.AllOrders, Engine.AllLevels, Engine.BookSet, Session.Valid, HeldSet,
           Pool.Valid, Pool.FreeSet, RouteSubmit, RouteCancel, CanCancel, Rests, Answer, OrderOf, WillStrand;
      used := {};
      if m.NewOrder? {
        used := HandleOrder(s, m);
        return;
      }
      FramerIsApart(s, engine);
      if m.CancelOrder? {
        engine.RestingNotFree();
        HandleCancel(s, m);
        return;
      }
      if m.Logon? {
        HandleLogon(s, m.clientId);
      } else if m.Logout? {
        HandleLogout(s);
      } else if m.Heartbeat? {
        HandleHeartbeat(s);
      }
      KeptEngineIsSame(engine);
    }

    /** Reading from the framer touches neither the session's own fields nor the engine. */
    method Receive(s: Session) returns (msg: Option<Message>)
      requires s.Valid() && engine.Valid() && engine.pool.Valid()
      modifies s.framer
      ensures Polled(msg, s.framer.State()) == Poll(old(s.framer.State()))
      ensures s.Valid() && unchanged(s) && engine.Untouched()
    {
      hide Engine.Valid, Engine.AllOrders, Engine.AllLevels, Engine.BookSet, Session.Valid, Pool.Valid, Poll;
      SessionIsApart(s, engine);
      engine.RestingNotFree();
      FramerIsApart(s, engine);
      msg := s.NextInbound();
    }

    /** One round of the pump. */
    method PumpOne(s: Session) returns (more: bool, ghost used: set<Order>)
      requires s.Valid() && engine.Valid() && engine.pool.Valid()
      modifies s, s.framer, engine.BookSet(), engine.AllLevels(), engine.pool, engine.pool.freeSlots,
               engine.pool.Slots()
      ensures s.Valid() && engine.Valid() && engine.pool.Valid()
      ensures var p := Poll(old(s.framer.State()));
        && s.framer.State() == p.state && more == p.msg.Some?
        && (more ==> Reacted(s, p.msg.value.body) && |used| <= if p.msg.value.body.NewOrder? then 1 else 0)
        && (!more ==>
              && used == {} && DeskOf(s) == old(DeskOf(s)) && s.sent == old(s.sent)
              && HeldSet(engine) == old(HeldSet(engine)))
      ensures old(engine.pool.FreeSet()) <= engine.pool.FreeSet() + used
      ensures forall l | l in engine.AllLevels() :: l in old(engine.AllLevels()) || fresh(l)
    {
      hide Engine.Valid, Engine.View, Engine.AllOrders, Engine.AllLevels, Engine.BookSet, Session.Valid, HeldSet,
           Pool.Valid, Pool.FreeSet, React, Strands, Poll;
      var msg := Receive(s);
      KeptEngineIsSame(engine);
      used := {};
      if msg.None? {
        return false, {};
      }
      used := Handle(s, msg.value.body);
      more := true;
    }

    /** Where a session stands after these turns, given where it started. */
    ghost predicate Served(s: Session, d: Desk, sent: seq<Body>, held: set<Order>, free: nat, turns: seq<Turn>)
      requires engine.Valid() && engine.pool.Valid()
      reads s, engine, engine.BookSet(), engine.AllLevels(), engine.AllOrders(), engine.pool, engine.pool.freeSlots
    {
      && DeskOf(s) == Serve(d, turns) && s.sent == sent + Sent(d, turns)
      && held <= HeldSet(engine) && |HeldSet(engine)| == |held| + StrandedIn(d, turns)
      && free <= |engine.pool.FreeSet()| + NewOrdersIn(turns) && RoomFor(turns, free)
    }

    /** One round of the pump as one more turn. */
    method ServeOne(s: Session, ghost all: Drained, ghost d: Desk, ghost sent: seq<Body>, ghost held: set<Order>,
                    ghost free: nat, ghost turns: seq<Turn>)
      returns (more: bool, ghost ts: seq<Turn>)
      requires s.Valid() && engine.Valid() && engine.pool.Valid() && Served(s, d, sent, held, free, turns)
      requires |turns| <= |all.msgs| && TurnsFor(turns, all.msgs[..|turns|])
      requires Drain(s.framer.State()) == Drained(all.msgs[|turns|..], all.state)
      modifies s, s.framer, engine.BookSet(), engine.AllLevels(), engine.pool, engine.pool.freeSlots,
               engine.pool.Slots()
      ensures s.Valid() && engine.Valid() && engine.pool.Valid() && Served(s, d, sent, held, free, ts)
      ensures |ts| == (if more then |turns| + 1 else |turns|) <= |all.msgs| && TurnsFor(ts, all.msgs[..|ts|])
      ensures more ==> Drain(s.framer.State()) == Drained(all.msgs[|ts|..], all.state)
      ensures !more ==> |ts| == |all.msgs| && s.framer.State() == all.state
      ensures forall l | l in engine.AllLevels() :: l in old(engine.AllLevels()) || fresh(l)
    {
      hide Engine.Valid, Engine.View, Engine.AllOrders, Engine.AllLevels, Engine.BookSet, Session.Valid, HeldSet,
           Pool.Valid, Pool.FreeSet, React, Strands, Poll, Serve, Sent, StrandedIn, NewOrdersIn, RoomFor, TurnsFor,
           Drain, DeskOf, Framer.State;
      ghost var p, slots := Poll(s.framer.State()), engine.pool.FreeSet();
      ghost var used;
      DrainOneMore(s.framer.State(), all, |turns|);
      more, used := PumpOne(s);
      AtMostUsed(slots, engine.pool.FreeSet(), used);
      ts := turns;
      if more {
        ghost var t := Inbound(p.msg.value.body, slots != {});
        OneMoreTurn(d, turns, t, all.msgs, free);
        ts := turns + [t];
      }
    }

    /**
     * All fully framed messages are handled in order. The ghost turns pair each
     * message with whether the pool had a slot for it; slots run out no earlier
     * than new orders use them up, and a slot that is held stays held.
     */
    method Pump(s: Session) returns (ghost turns: seq<Turn>)
      requires s.Valid() && engine.Valid() && engine.pool.Valid()
      modifies s, s.framer, engine.BookSet(), engine.AllLevels(), engine.pool, engine.pool.freeSlots,
               engine.pool.Slots()
      ensures s.Valid() && engine.Valid() && engine.pool.Valid()
      ensures s.framer.State() == Drain(old(s.framer.State())).state
      ensures TurnsFor(turns, Drain(old(s.framer.State())).msgs)
      ensures DeskOf(s) == Serve(old(DeskOf(s)), turns)
      ensures s.sent == old(s.sent) + Sent(old(DeskOf(s)), turns)
      ensures |HeldSet(engine)| == |old(HeldSet(engine))| + StrandedIn(old(DeskOf(s)), turns)
      ensures old(HeldSet(engine)) <= HeldSet(engine)
      ensures RoomFor(turns, |old(engine.pool.FreeSet())|)
    {
      hide Engine.Valid, Engine.View, Engine.AllOrders, Engine.AllLevels, Engine.BookSet, Session.Valid, HeldSet,
           Pool.Valid, Pool.FreeSet, Serve, Sent, StrandedIn, NewOrdersIn, RoomFor, TurnsFor, Drain, DeskOf,
           Framer.State;
      ghost var all, d, sent := Drain(s.framer.State()), DeskOf(s), s.sent;
      ghost var held, free, levels := HeldSet(engine), |engine.pool.FreeSet()|, engine.AllLevels();
      NoTurns(d, free);
      var more := true;
      turns := [];
      while more
        invariant s.Valid() && engine.Valid() && engine.pool.Valid() && Served(s, d, sent, held, free, turns)
        invariant |turns| <= |all.msgs| && TurnsFor(turns, all.msgs[..|turns|])
        invariant more ==> Drain(s.framer.State()) == Drained(all.msgs[|turns|..], all.state)
        invariant !more ==> |turns| == |all.msgs| && s.framer.State() == all.state
        invariant forall l | l in engine.AllLevels() :: l in levels || fresh(l)
        decreases more, |all.msgs| - |turns|
      {
        more, turns := ServeOne(s, all, d, sent, held, free, turns);
      }
      assert all.msgs[..|turns|] == all.msgs;
    }
  }
}
