/**
 * The flat arrival-ordered list behind a book of price levels, as a pure
 * sequence of tickets. A ticket names an order and the key it was filed under;
 * `At` is the queue that the level with a given key must hold.
 */
module Tickets {
  import opened Types
  import opened PriceTime
  import opened PriceLevels

  datatype Locator = Locator(side: Side, price: Price, order: Order)

  datatype Ticket = Ticket(order: Order, side: Side, price: Price, id: OrderId)

  ghost function OrdersIn(tickets: seq<Ticket>): set<Order> {
    set t | t in tickets :: t.order
  }

  ghost predicate DistinctOrders(tickets: seq<Ticket>) {
    forall i, j | 0 <= i < j < |tickets| :: tickets[i].order != tickets[j].order
  }

  predicate HasKey(t: Ticket, side: Side, price: Price) {
    t.side == side && t.price == price
  }

  /** The orders filed under (side, price), in arrival order. */
  ghost function At(tickets: seq<Ticket>, side: Side, price: Price): (r: seq<Order>)
    ensures forall o | o in r ::
              exists i | 0 <= i < |tickets| :: tickets[i].order == o && HasKey(tickets[i], side, price)
    ensures forall o | o in r :: o in OrdersIn(tickets)
  {
    if tickets == [] then []
    else
      var n := |tickets| - 1;
      At(tickets[..n], side, price) + (if HasKey(tickets[n], side, price) then [tickets[n].order] else [])
  }

  lemma {:induction false} AtConcat(a: seq<Ticket>, b: seq<Ticket>, side: Side, price: Price)
    ensures At(a + b, side, price) == At(a, side, price) + At(b, side, price)
  {
    if b == [] {
      assert a + b == a;
    } else {
      var n := |b| - 1;
      assert (a + b)[..|a + b| - 1] == a + b[..n];
      AtConcat(a, b[..n], side, price);
    }
  }

  lemma {:induction false} AtOne(t: Ticket, side: Side, price: Price)
    ensures At([t], side, price) == if HasKey(t, side, price) then [t.order] else []
  {
    assert [t][..0] == [];
  }

  /** Position of ticket k within the queue it was filed in. */
  ghost function Rank(tickets: seq<Ticket>, k: nat): nat
    requires k < |tickets|
  {
    |At(tickets[..k], tickets[k].side, tickets[k].price)|
  }

  lemma {:induction false} AtSplit(tickets: seq<Ticket>, k: nat, side: Side, price: Price)
    requires k < |tickets|
    ensures At(tickets, side, price)
      == At(tickets[..k], side, price) + (if HasKey(tickets[k], side, price) then [tickets[k].order] else [])
       + At(tickets[k + 1..], side, price)
    ensures At(Without(tickets, k), side, price)
      == At(tickets[..k], side, price) + At(tickets[k + 1..], side, price)
  {
    hide At;
    assert tickets == tickets[..k] + ([tickets[k]] + tickets[k + 1..]);
    AtConcat(tickets[..k], [tickets[k]] + tickets[k + 1..], side, price);
    AtConcat([tickets[k]], tickets[k + 1..], side, price);
    AtConcat(tickets[..k], tickets[k + 1..], side, price);
    AtOne(tickets[k], side, price);
  }

  lemma {:induction false} AtHas(tickets: seq<Ticket>, k: nat)
    requires k < |tickets|
    ensures var q := At(tickets, tickets[k].side, tickets[k].price);
            Rank(tickets, k) < |q| && q[Rank(tickets, k)] == tickets[k].order
  {
    hide At;
    AtSplit(tickets, k, tickets[k].side, tickets[k].price);
  }

  /** Removing a ticket removes its order from its own queue and from no other. */
  lemma {:induction false} AtWithout(tickets: seq<Ticket>, k: nat, side: Side, price: Price)
    requires k < |tickets|
    ensures !HasKey(tickets[k], side, price) ==>
      At(Without(tickets, k), side, price) == At(tickets, side, price)
    ensures HasKey(tickets[k], side, price) ==>
      && Rank(tickets, k) < |At(tickets, side, price)|
      && At(Without(tickets, k), side, price) == Without(At(tickets, side, price), Rank(tickets, k))
  {
    hide At;
    AtSplit(tickets, k, side, price);
  }

  lemma {:induction false} AtDisjoint(
      tickets: seq<Ticket>, side: Side, price: Price, side': Side, price': Price, o: Order)
    requires DistinctOrders(tickets) && (side != side' || price != price')
    requires o in At(tickets, side, price)
    ensures o !in At(tickets, side', price')
  {
  }

  /** Ticket k is the best-priced on its side and the earliest at that price. */
  ghost predicate TopTicket(tickets: seq<Ticket>, side: Side, k: int) {
    && 0 <= k < |tickets|
    && tickets[k].side == side
    && forall j | 0 <= j < |tickets| && tickets[j].side == side ::
         || Better(side, tickets[k].price, tickets[j].price)
         || (tickets[k].price == tickets[j].price && k <= j)
  }

  /** The first order of a queue is the earliest ticket with that key. */
  lemma {:induction false} HeadOfQueue(tickets: seq<Ticket>, side: Side, price: Price) returns (k: nat)
    requires At(tickets, side, price) != []
    ensures k < |tickets| && HasKey(tickets[k], side, price)
    ensures tickets[k].order == At(tickets, side, price)[0] && Rank(tickets, k) == 0
    ensures forall j | 0 <= j < k :: !HasKey(tickets[j], side, price)
  {
    var n := |tickets| - 1;
    if At(tickets[..n], side, price) == [] {
      k := n;
      forall j | 0 <= j < k ensures !HasKey(tickets[j], side, price) {
        AtHas(tickets[..n], j);
      }
    } else {
      k := HeadOfQueue(tickets[..n], side, price);
      assert tickets[..n][..k] == tickets[..k];
    }
  }

  /** No earlier ticket has the key of ticket i: it heads its queue. */
  ghost predicate IsHead(tickets: seq<Ticket>, i: nat)
    requires i < |tickets|
  {
    forall j | 0 <= j < i :: !HasKey(tickets[j], tickets[i].side, tickets[i].price)
  }

  /** The orders heading their queues. */
  ghost function HeadOrders(tickets: seq<Ticket>): set<Order> {
    set i | 0 <= i < |tickets| && IsHead(tickets, i) :: tickets[i].order
  }

  lemma {:induction false} HeadIsFirst(tickets: seq<Ticket>, i: nat)
    requires i < |tickets| && IsHead(tickets, i)
    ensures At(tickets, tickets[i].side, tickets[i].price) != []
    ensures At(tickets, tickets[i].side, tickets[i].price)[0] == tickets[i].order
  {
    AtHas(tickets, i);
    var k := HeadOfQueue(tickets, tickets[i].side, tickets[i].price);
    assert k == i;
  }

  /** Each order queues alone. */
  ghost predicate KeysUnique(tickets: seq<Ticket>) {
    forall i, j | 0 <= i < j < |tickets| :: !HasKey(tickets[i], tickets[j].side, tickets[j].price)
  }

  /** Taking only the heads takes everything exactly when no two orders share side and price. */
  lemma {:induction false} HeadsAreAllIff(tickets: seq<Ticket>)
    requires DistinctOrders(tickets)
    ensures HeadOrders(tickets) == OrdersIn(tickets) <==> KeysUnique(tickets)
  {
    if KeysUnique(tickets) {
      forall t | t in tickets ensures t.order in HeadOrders(tickets) {
        var i :| 0 <= i < |tickets| && tickets[i] == t;
        assert IsHead(tickets, i);
      }
    }
    if HeadOrders(tickets) == OrdersIn(tickets) {
      forall i, j | 0 <= i < j < |tickets| ensures !HasKey(tickets[i], tickets[j].side, tickets[j].price) {
        assert tickets[j] in tickets && tickets[j].order in HeadOrders(tickets);
        var k :| 0 <= k < |tickets| && IsHead(tickets, k) && tickets[k].order == tickets[j].order;
        assert k == j;
      }
    }
  }

  lemma {:induction false} HeadsRest(tickets: seq<Ticket>)
    ensures HeadOrders(tickets) <= OrdersIn(tickets)
  {
  }

  /** Two bids at the same price: the second is not among the heads. */
  lemma {:induction false} SecondIsMissed(a: Order, b: Order)
    requires a != b
    ensures b !in HeadOrders([Ticket(a, Buy, 100, 1), Ticket(b, Buy, 100, 2)])
  {
    var tickets := [Ticket(a, Buy, 100, 1), Ticket(b, Buy, 100, 2)];
    assert HasKey(tickets[0], tickets[1].side, tickets[1].price);
  }
}
