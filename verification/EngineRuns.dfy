/**
 * What holds of single books over whole runs, carried up to the engine, to
 * every interleaving of the sharded front end, and to every gateway session.
 */
module EngineRuns {
  import opened Types
  import opened PriceTime
  import opened BookRuns
  import opened Engines
  import opened Commands
  import opened Gateway
  import Sharded

  // ---- The engine as runs of its books ---------------------------------------------------

  function OpOf(c: Command): Op {
    match c
    case Submit(o) => SubmitOp(o)
    case Cancel(_, id) => CancelOp(id)
  }

  function OpsOf(cs: seq<Command>): (ops: seq<Op>)
    ensures |ops| == |cs| && forall i | 0 <= i < |cs| :: ops[i] == OpOf(cs[i])
  {
    if cs == [] then [] else OpsOf(cs[..|cs| - 1]) + [OpOf(cs[|cs| - 1])]
  }

  /** Every submitted order is as yet unfilled. */
  predicate Unfilled(cs: seq<Command>) {
    forall c | c in cs && c.Submit? :: c.order.filled == 0
  }

  lemma {:induction false} UnfilledRunOk(cs: seq<Command>)
    requires Unfilled(cs)
    ensures RunOk(OpsOf(cs))
  {
    forall i | 0 <= i < |cs| && OpsOf(cs)[i].SubmitOp? ensures OpsOf(cs)[i].order.filled == 0 {
      assert cs[i] in cs;
    }
  }

  const EmptyLot: Lot := Lot([], [])

  /** The book and the trade log of an instrument are those of a run of its commands. */
  lemma {:induction false} LotIsRun(i: InstrumentId, cs: seq<Command>)
    requires Unfilled(cs)
    ensures RunOk(OpsOf(cs))
    ensures var s := Run(i, OpsOf(cs)); ReplayLot(i, EmptyLot, cs) == Lot(s.book, s.trades)
  {
    hide NaiveSubmit, NaiveCancel, BookOk;
    UnfilledRunOk(cs);
    if cs != [] {
      var n := |cs| - 1;
      LotIsRun(i, cs[..n]);
      assert OpsOf(cs)[..n] == OpsOf(cs[..n]);
      var s := Run(i, OpsOf(cs[..n]));
      assert cs[n] in cs;
      OneMoreCommand(i, s, cs[n]);
    }
  }

  lemma {:induction false} OneMoreCommand(i: InstrumentId, s: Ledger, c: Command)
    requires Live(s.book) && (c.Submit? ==> c.order.filled == 0)
    ensures var s' := if c.Submit? then ApplySubmit(i, s, c.order) else ApplyCancel(s, c.id);
      Lot(s'.book, s'.trades) == ApplyToLot(i, Lot(s.book, s.trades), c)
  {
    hide NaiveMatch, RemoveAt, Accepted;
  }

  /** Sane and uncrossed, and every quantity accounted for. */
  predicate LotOk(i: InstrumentId, lot: Lot, cs: seq<Command>)
    requires RunOk(OpsOf(cs))
  {
    var s := Run(i, OpsOf(cs));
    && BookOk(i, lot.book) && lot == Lot(s.book, s.trades) && Balanced(s)
  }

  lemma {:induction false} LotIsOk(i: InstrumentId, cs: seq<Command>)
    requires Unfilled(cs)
    ensures RunOk(OpsOf(cs)) && LotOk(i, ReplayLot(i, EmptyLot, cs), cs)
  {
    hide BookOk, Balanced, ReplayLot;
    LotIsRun(i, cs);
    QuantityIsConserved(i, OpsOf(cs));
  }

  // ---- Sharded runs ------------------------------------------------------------------------

  lemma {:induction false} ForShardMembers(cs: seq<Command>, n: nat, s: nat)
    requires n > 0
    ensures forall c | c in ForShard(cs, n, s) :: c in cs
  {
    if cs != [] {
      ForShardMembers(cs[..|cs| - 1], n, s);
    }
  }

  lemma {:induction false} ForInstrumentMembers(cs: seq<Command>, i: InstrumentId)
    ensures forall c | c in ForInstrument(cs, i) :: c in cs
  {
    if cs != [] {
      ForInstrumentMembers(cs[..|cs| - 1], i);
    }
  }

  lemma {:induction false} AppliedWereAccepted(s: Sharded.System, k: nat, whole: Lots)
    requires Sharded.Inv(s, whole) && k < |s.shards|
    ensures forall c | c in Sharded.AppliedCommands(s.shards[k]) :: c in s.accepted
  {
    assert Sharded.ShardOk(s, k, whole);
    Sharded.PoppedAtMostPushed(s.shards[k].ring);
    ForShardMembers(s.accepted, |s.shards|, k);
    hide Replay, ForShard;
  }

  /**
   * In every state of every sharded run over fresh books, drained or not: the
   * book of each instrument is sane and uncrossed, and its quantities balance,
   * for the commands its worker has applied so far.
   */
  lemma {:induction false} ShardedBooksAreOk(
      n: nat, whole: Lots, logCap: nat, zero: seq<Command>, events: seq<Sharded.Event>, i: InstrumentId)
    requires Sharded.GoodStart(n, logCap, zero) && Sharded.CanRun(Sharded.Init(n, whole, logCap, zero), events)
    requires i in whole && whole[i] == EmptyLot
    requires Unfilled(Sharded.Run(Sharded.Init(n, whole, logCap, zero), events).accepted)
    ensures var s := Sharded.Run(Sharded.Init(n, whole, logCap, zero), events);
      && |s.shards| == n
      && var cs := ForInstrument(Sharded.AppliedCommands(s.shards[i % n]), i);
      && i in s.shards[i % n].lots && RunOk(OpsOf(cs)) && LotOk(i, s.shards[i % n].lots[i], cs)
  {
    Sharded.InitInv(n, whole, logCap, zero);
    Sharded.RunInv(Sharded.Init(n, whole, logCap, zero), events, whole);
    Sharded.RunKeepsShards(Sharded.Init(n, whole, logCap, zero), events);
    var s := Sharded.Run(Sharded.Init(n, whole, logCap, zero), events);
    hide Sharded.Init, Sharded.Run, Sharded.CanRun;
    InvBooksAreOk(s, i, whole);
  }

  lemma {:induction false} InvBooksAreOk(s: Sharded.System, i: InstrumentId, whole: Lots)
    requires Sharded.Inv(s, whole) && i in whole && whole[i] == EmptyLot && Unfilled(s.accepted)
    ensures var k := i % |s.shards|;
      && var cs := ForInstrument(Sharded.AppliedCommands(s.shards[k]), i);
      && i in s.shards[k].lots && RunOk(OpsOf(cs)) && LotOk(i, s.shards[k].lots[i], cs)
  {
    var k := i % |s.shards|;
    assert Sharded.ShardOk(s, k, whole);
    var sh := s.shards[k];
    var part := Sharded.PartOf(whole, |s.shards|, k);
    var applied := Sharded.AppliedCommands(sh);
    AppliedWereAccepted(s, k, whole);
    assert sh.lots == Replay(part, applied);
    hide Sharded.Inv, Sharded.ShardOk, Replay, LotOk, OpsOf, ForInstrument, Sharded.AppliedCommands;
    ReplayIsLocal(part, applied, i);
    ForInstrumentMembers(applied, i);
    LotIsOk(i, ForInstrument(applied, i));
  }

  // ---- Gateway sessions --------------------------------------------------------------------

  predicate BooksOk(books: Books) {
    forall i | i in books :: BookOk(i, books[i])
  }

  lemma {:induction false} RoutingKeepsBooksOk(books: Books, o: OrderRec)
    requires BooksOk(books) && o.filled == 0
    ensures BooksOk(RouteSubmit(books, o).books)
  {
    hide BookOk, NaiveSubmit;
    if o.instrument in books {
      SubmitKeepsOk(o.instrument, books[o.instrument], o);
    }
  }

  lemma {:induction false} CancelKeepsBooksOk(books: Books, instrument: InstrumentId, id: OrderId)
    requires BooksOk(books)
    ensures BooksOk(RouteCancel(books, instrument, id))
  {
    hide BookOk, NaiveCancel;
    if instrument in books {
      CancelKeepsOk(instrument, books[instrument], id);
    }
  }

  /** Whatever a client sends, and whatever other sessions do in between, no book is ever crossed. */
  lemma {:induction false} ServedBooksAreOk(d: Desk, ts: seq<Turn>)
    requires BooksOk(d.books) && forall i | 0 <= i < |ts| && ts[i].Others? :: BooksOk(ts[i].books)
    ensures BooksOk(Serve(d, ts).books)
  {
    if ts != [] {
      var n := |ts| - 1;
      ServedBooksAreOk(d, ts[..n]);
      var here, t := Serve(d, ts[..n]), ts[n];
      hide BooksOk, RouteSubmit, RouteCancel, Answer;
      if t.Inbound? && t.m.NewOrder? {
        RoutingKeepsBooksOk(here.books, OrderOf(here.client, t.m));
      } else if t.Inbound? && t.m.CancelOrder? {
        CancelKeepsBooksOk(here.books, t.m.instrument, t.m.clientOrderId);
      }
    }
  }
}
