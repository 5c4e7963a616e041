/**
 * Commands to an engine of many books, and the fact that lets them be spread
 * over shards: what a command does depends on the book of its instrument only.
 */
module Commands {
  import opened Types
  import opened PriceTime
  import opened Engines

  /** An order as it is handed to submit. */
  type NewOrder = o: OrderRec | o.filled <= o.initial witness BlankOrder

  datatype Command = Submit(order: NewOrder) | Cancel(instrument: InstrumentId, id: OrderId)

  function Target(c: Command): InstrumentId {
    match c
    case Submit(o) => o.instrument
    case Cancel(i, _) => i
  }

  /** The book of one instrument and the trades made on it. */
  datatype Lot = Lot(book: LiveBook, log: seq<Trade>)

  type Lots = map<InstrumentId, Lot>

  function ApplyToLot(i: InstrumentId, lot: Lot, c: Command): Lot {
    match c
    case Submit(o) =>
      var r := NaiveSubmit(lot.book, i, o);
      Lot(r.book, lot.log + r.trades)
    case Cancel(_, id) => Lot(NaiveCancel(lot.book, id), lot.log)
  }

  /** One engine handling one command. */
  function Apply(lots: Lots, c: Command): Lots {
    var i := Target(c);
    if i in lots then lots[i := ApplyToLot(i, lots[i], c)] else lots
  }

  function Replay(lots: Lots, cs: seq<Command>): Lots {
    if cs == [] then lots else Apply(Replay(lots, cs[..|cs| - 1]), cs[|cs| - 1])
  }

  function BooksOf(lots: Lots): Books {
    map i | i in lots :: lots[i].book
  }

  /** Applying a command changes the books as the engine does, and logs its trades. */
  lemma {:induction false} ApplyIsRouting(lots: Lots, c: Command)
    ensures c.Submit? ==>
      && BooksOf(Apply(lots, c)) == RouteSubmit(BooksOf(lots), c.order).books
      && (c.order.instrument in lots ==>
            Apply(lots, c)[c.order.instrument].log
            == lots[c.order.instrument].log + RouteSubmit(BooksOf(lots), c.order).trades)
    ensures c.Cancel? ==> BooksOf(Apply(lots, c)) == RouteCancel(BooksOf(lots), c.instrument, c.id)
  {
    hide NaiveSubmit, NaiveCancel;
  }

  // ---- Locality -----------------------------------------------------------------

  /** The commands for one instrument, in order. */
  function ForInstrument(cs: seq<Command>, i: InstrumentId): seq<Command> {
    if cs == [] then []
    else ForInstrument(cs[..|cs| - 1], i) + (if Target(cs[|cs| - 1]) == i then [cs[|cs| - 1]] else [])
  }

  function ReplayLot(i: InstrumentId, lot: Lot, cs: seq<Command>): Lot {
    if cs == [] then lot else ApplyToLot(i, ReplayLot(i, lot, cs[..|cs| - 1]), cs[|cs| - 1])
  }

  /** An instrument only feels its own commands. */
  lemma {:induction false} ReplayIsLocal(lots: Lots, cs: seq<Command>, i: InstrumentId)
    ensures Replay(lots, cs).Keys == lots.Keys
    ensures i in lots ==> Replay(lots, cs)[i] == ReplayLot(i, lots[i], ForInstrument(cs, i))
  {
    hide ApplyToLot;
    if cs != [] {
      var n := |cs| - 1;
      ReplayIsLocal(lots, cs[..n], i);
      if Target(cs[n]) == i {
        assert ForInstrument(cs, i)[..|ForInstrument(cs, i)| - 1] == ForInstrument(cs[..n], i);
      } else {
        assert ForInstrument(cs, i) == ForInstrument(cs[..n], i);
      }
    }
  }

  /** The commands routed to one of n shards, in order. */
  function ForShard(cs: seq<Command>, n: nat, s: nat): seq<Command>
    requires n > 0
  {
    if cs == [] then []
    else ForShard(cs[..|cs| - 1], n, s) + (if Target(cs[|cs| - 1]) % n == s then [cs[|cs| - 1]] else [])
  }

  lemma {:induction false} ForInstrumentAppend(cs: seq<Command>, c: Command, i: InstrumentId)
    ensures ForInstrument(cs + [c], i) == ForInstrument(cs, i) + (if Target(c) == i then [c] else [])
  {
    assert (cs + [c])[..|cs|] == cs;
  }

  lemma {:induction false} ForShardAppend(cs: seq<Command>, c: Command, n: nat, s: nat)
    requires n > 0
    ensures ForShard(cs + [c], n, s) == ForShard(cs, n, s) + (if Target(c) % n == s then [c] else [])
  {
    assert (cs + [c])[..|cs|] == cs;
  }

  /** The shard of an instrument receives all of its commands. */
  lemma {:induction false} ShardKeepsInstrument(cs: seq<Command>, n: nat, i: InstrumentId)
    requires n > 0
    ensures ForInstrument(ForShard(cs, n, i % n), i) == ForInstrument(cs, i)
  {
    if cs != [] {
      var m := |cs| - 1;
      ShardKeepsInstrument(cs[..m], n, i);
      if Target(cs[m]) % n == i % n {
        ForInstrumentAppend(ForShard(cs[..m], n, i % n), cs[m], i);
      } else {
        assert ForShard(cs, n, i % n) == ForShard(cs[..m], n, i % n);
        assert ForInstrument(cs, i) == ForInstrument(cs[..m], i);
      }
    }
  }

  /** Replaying a shard's part on that shard's books gives the books of a single engine. */
  lemma {:induction false} ShardReplay(part: Lots, whole: Lots, cs: seq<Command>, n: nat, i: InstrumentId)
    requires n > 0 && i in part && i in whole && part[i] == whole[i]
    ensures i in Replay(part, ForShard(cs, n, i % n)) && i in Replay(whole, cs)
    ensures Replay(part, ForShard(cs, n, i % n))[i] == Replay(whole, cs)[i]
  {
    ReplayIsLocal(part, ForShard(cs, n, i % n), i);
    ReplayIsLocal(whole, cs, i);
    ShardKeepsInstrument(cs, n, i);
  }
}
