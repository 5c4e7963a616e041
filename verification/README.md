# Verification of the order book engine

A Dafny model of an exchange-style order book: the matching core over an
intrusive-list book and a slab pool, the engine that routes by instrument, the
multi-threaded sharded front end over lock-free ring buffers, the binary wire
protocol with its framer, session and dispatcher, and the option chain with its
OCC symbols. `dafny verify dfyconfig.toml` checks all of it.

How the parts fit:

- **Specification by a flat list.** `PriceTime` describes a book as a flat list
  of resting orders in arrival order, and a naive matcher that always takes the
  best-priced, earliest-arrived opposite order. `Allocation` gives a closed form
  of what that matcher hands to each order; `TakerLaws` says what a submitted
  order gets in terms of its own fields and plain prices; `BookRuns` proves what whole runs of
  submits and cancels keep, `Fates` follows a single order through a run, and
  `EngineRuns` carries both up to the engine, the shards and the gateway.
- **The code as it is.** `PriceLevels`, `OrderBooks`, `Pools`, `Matchers`,
  `Engines` model the linked levels, the two ordered maps, the id index, the
  free-slot stack and the routing as classes over the heap. Each method is
  proved against the flat list (`View()`), and says which pool slots changed
  hands: every slot is free, resting in exactly one book, or held by a caller.
- **Threads.** `RingBuffers` runs push and pop one memory access at a time, with
  stale views of the other thread's index; `Sharded` interleaves one producer
  and any number of workers over such rings; `Workers` is a worker's handling of
  one command on the heap, with all engines sharing one pool. `Progress` shows
  that commands do get accepted and applied, that wait_idle returns, and that
  stopped workers exit.
- **The wire.** `Wire` and `Framing` describe bytes as functions, `Codec` and
  `Sessions` are the buffers, loops and objects, `Gateway` says how a session
  reacts to a message, and `Dispatchers` proves the dispatcher against that, on
  top of the heap-level engine. `GatewayLaws` states what a client can rely on,
  message byte by message byte.
- **Options.** `Chains` and `Occ`.

Ids, prices, quantities, filled quantities, slot numbers and the top of the free
stack are subset types of their width, so each assignment to one of them is
proved not to wrap; where the source wraps on purpose (`remaining`, quantity
sums, sequence numbers, masked indices and their difference) the wrap-around is
written out. The shard counters are unbounded.

Where the code and its documentation or comments disagree, the model follows
the code:

- `clear_and_drain` says it visits every resting order. It clears the link the
  iterator is about to follow, so it visits the head of each level only
  (`Matcher.CancelAll`, `Tickets.HeadsAreAllIff`, `Tickets.SecondIsMissed`).
- The id index silently ignores an id that it already holds, so an order can
  rest unindexed (`BookRuns.SubmitBijectiveIff` says exactly when,
  `BookRuns.SameIdTwice` gives two submits). No later cancel reaches it
  (`Fates.OrphanIsNeverCancelled`).
- An order that may not rest and that the book can fill only in part ends neither
  terminal nor resting, and its slot is never given back (`Gateway.StrandedIff`
  says exactly when, `Gateway.IocIsStranded` gives an order; `Dispatcher.Pump`
  counts such slots and shows that they stay held).
- The protocol document asks readers to consume exactly `body_length` bytes and
  the padding byte to be 0; the decoder ignores surplus bytes and the padding
  (`Wire.PrintedBackIff` says exactly when a body read is the body the protocol
  prints, `Wire.PaddingIsIgnored` and `Wire.SurplusIsIgnored` give inputs).
- Side, type and time-in-force bytes of a new order are cast without a check. The
  model follows what the code does with every byte: a side other than 0 acts as
  Sell; an unknown type is neither Limit nor Market, so its price is not checked
  and it crosses every price; an unknown time in force rests.
- A logout closes a session that never logged on as well, and answers it.

## Model

| member | source | states |
|---|---|---|
| `PriceTime.TopIndex` | src/orderbook/orderbook.cpp:96-103 | the scan of a flat book finds an order of the best price on that side and the earliest arrival at that price, or -1 exactly when the side is empty |
| `PriceTime.TopIsUnique` | src/orderbook/orderbook.cpp:96-103 | best price and earliest arrival determine the order |
| `PriceTime.NaiveMatch` | src/matching/matcher.cpp:44-85 | matching keeps every resting order live, never overfills the taker, changes nothing of the taker but its filled quantity, and stops only when no further trade is possible |
| `PriceTime.NaiveSubmit` | src/matching/matcher.cpp:87-136 | submitting leaves only resting orders with something left to trade |
| `PriceTime.NaiveCancel` | src/matching/matcher.cpp:138-146 | cancelling leaves only resting orders with something left to trade |
| `Allocation.MatchAllocatesByPriority` | src/matching/matcher.cpp:44-85 | the book after matching is the old book in the same order, each order filled by exactly what is left of the taker after everything ahead of it in price-time priority |
| `Allocation.MatchFillsFromLiquidity` | src/matching/matcher.cpp:15-42 | the taker gets the smaller of what it wants and all crossing liquidity, so it is filled if and only if the liquidity covers it |
| `Allocation.TradedIsFilled` | src/matching/matcher.cpp:59-72 | the trade quantities add up to what the taker was filled by |
| `Allocation.SweepIsOrderly` | src/matching/matcher.cpp:47-84 | trade prices get no better for the taker, each lies within its limit, each quantity is positive, and each trade names the taker and its instrument |
| `Allocation.TradesAtMakersPrice` | src/matching/matcher.cpp:59-72 | every trade names an order that rested on the other side and is struck at that order's price |
| `Allocation.OnlyLastMakerSurvives` | src/matching/matcher.cpp:59-83 | trade by trade: each trade but the last takes all that its maker has left, and the last does so too unless it fills the taker |
| `Allocation.MakersRested` | src/matching/matcher.cpp:47-57 | every maker is an order of the book before the sweep, untouched until its turn |
| `Allocation.TradesRemoveMakers` | src/matching/matcher.cpp:74-83 | the number of orders gone is the number of trades, less one if the last maker survives |
| `Allocation.AheadIsExhausted` | src/matching/matcher.cpp:47-84 | no order is served before every order ahead of it in price-time priority is exhausted |
| `TakerLaws.OnlyLimitOrdersHavePrices` | src/matching/matcher.cpp:53-57 | the price field of an order that is not a limit order plays no part in matching |
| `TakerLaws.UnlimitedSweepsSide` | src/matching/matcher.cpp:47-57 | an order without a limit that is left unfilled has emptied the other side |
| `TakerLaws.LimitIsRespected` | src/matching/matcher.cpp:6-13 | every trade of a limit order is at or below (buy), at or above (sell) its price |
| `TakerLaws.LimitIsExhausted` | src/matching/matcher.cpp:53-57 | a limit order left unfilled has left nothing within its limit |
| `TakerLaws.BestPricesFirst` | src/matching/matcher.cpp:47-72 | trade prices rise for a buyer and fall for a seller |
| `TakerLaws.OnOfferIsLiquidity` | src/matching/matcher.cpp:15-42 | the liquidity of the look-ahead is the remaining quantity of all opposite orders, within the limit if there is one |
| `TakerLaws.OutcomeIsKnown` | src/matching/matcher.cpp:87-136 | reject, fill, status and resting of a submitted order follow from its fields and what the book has on offer before the call |
| `BookRuns.Run` | src/matching/matcher.cpp:87-146 | after every run from the empty book: every bid below every ask, every resting order of this instrument, not a market, IOC or fill-or-kill order, with filled below initial and the matching status, at most one indexed order per id |
| `BookRuns.SubmitKeepsOk` | src/matching/matcher.cpp:87-136 | any submit keeps that book invariant |
| `BookRuns.CancelKeepsOk` | src/matching/matcher.cpp:138-146 | any cancel keeps that book invariant |
| `BookRuns.FillOrKillIsAtomic` | src/matching/matcher.cpp:110-130 | a fill-or-kill order that passes the checks is filled completely by trades of exactly its quantity and does not rest, or is rejected with the book unchanged; the crossing liquidity decides which (`Matchers.Matcher.Submit` says so of pool, levels and slots) |
| `BookRuns.QuantityIsConserved` | src/matching/matcher.cpp:59-146 | over every run, accepted quantity equals resting quantity plus twice the traded quantity plus what was cancelled and what could not rest |
| `BookRuns.UnfilledTakesAll` | src/matching/matcher.cpp:47-57 | after a taker left unfilled the book is the old one without the opposite orders that cross it, all other orders as they were |
| `BookRuns.SubmitBijectiveIff` | src/orderbook/orderbook.cpp:6-21 | a submit keeps the id index in bijection with the resting orders, unless the order will come to rest while its id belongs to a resting order that it cannot consume |
| `BookRuns.FreshRunIsBijective` | src/orderbook/orderbook.cpp:6-52 | with ids that are not resting at the time, index and resting orders are in bijection after every run |
| `BookRuns.CancelFindsId` | src/orderbook/orderbook.cpp:28-52 | with a bijective index an id is found exactly when it rests, and cancelling removes that order and no other |
| `BookRuns.CancelUndoesSubmit` | src/matching/matcher.cpp:113-146 | cancelling an order that has just come to rest under a fresh id leaves exactly the book after its trades, and the original book if it did not trade |
| `BookRuns.DuplicateIsOrphaned` | src/orderbook/orderbook.cpp:12-19 | an order resting under a taken id stays after a cancel of that id, which hits the other order, and the next cancel of the id finds nothing |
| `BookRuns.SameIdTwice` | src/orderbook/orderbook.cpp:12-19 | one bid submitted twice: the index is a bijection after the first and not after the second |
| `Fates.OrphanIsNeverCancelled` | src/orderbook/orderbook.cpp:6-52 | an order resting outside the index stays outside it through every later sequence of submits and cancels, and leaves the book only by being traded away |
| `Fates.DuplicateIsNeverCancelled` | src/orderbook/orderbook.cpp:12-19 | in every run: so does an order that comes to rest under an indexed id |
| `Fates.TradedOutHasTrade` | src/matching/matcher.cpp:59-79 | an order traded away is named by a trade of the sweep, at its price |
| `PriceLevels.PriceLevel.PushBack` | include/ordbk/orderbook/orderbook.hpp:24-33 | appends to the queue; links stay mutually inverse, head and tail correct |
| `PriceLevels.PriceLevel.PopFront` | include/ordbk/orderbook/orderbook.hpp:35-44 | drops the first of the queue and unlinks it |
| `PriceLevels.PriceLevel.Erase` | include/ordbk/orderbook/orderbook.hpp:46-58 | drops an order anywhere in the queue and unlinks it |
| `Tickets.HeadsAreAllIff` | src/orderbook/orderbook.cpp:127-148 | the heads of the levels are all resting orders if and only if no two share side and price |
| `Tickets.SecondIsMissed` | src/orderbook/orderbook.cpp:129-136 | of two bids at one price the second is not among the heads |
| `OrderBooks.OrderBook.AddResting` | src/orderbook/orderbook.cpp:6-21 | the order comes last in arrival order, at the end of its level, and is indexed unless its id is taken; levels, maps and index agree again |
| `OrderBooks.OrderBook.CancelAndGet` | src/orderbook/orderbook.cpp:28-52 | null exactly when the id is not indexed; otherwise that order leaves the flat list, its level and the index, and an emptied level leaves its map |
| `OrderBooks.OrderBook.PeekTop` | src/orderbook/orderbook.cpp:96-103 | the head of the first level is the best-priced, earliest-arrived order of the side, null exactly when there is none |
| `OrderBooks.OrderBook.PopTop` | src/orderbook/orderbook.cpp:105-125 | the top order leaves the flat list, its level and the index |
| `OrderBooks.OrderBook.Clear` | src/orderbook/orderbook.cpp:145-147 | the book is empty afterwards |
| `Depth.QuantityAt` | src/orderbook/orderbook.cpp:74-94 | the sum along one level is the remaining quantity of all orders of that side and price in the flat book, modulo 2^64 |
| `Pools.Pool.constructor` | include/ordbk/utils/pool.hpp:24-30 | all slots are free and distinct |
| `Pools.Pool.Acquire` | include/ordbk/utils/pool.hpp:36-44 | null exactly when no slot is free; otherwise a blank slot that was free and no longer is |
| `Pools.Pool.Release` | include/ordbk/utils/pool.hpp:47-52 | a slot that is not free becomes free; the stack never overflows and holds no slot twice |
| `Matchers.Matcher.TradeWithTop` | src/matching/matcher.cpp:59-83 | one round of the loop is one step of the naive matcher; an exhausted maker's slot goes from resting to free |
| `Matchers.Matcher.Match` | src/matching/matcher.cpp:44-85 | book, taker and trades are those of the naive matcher; the loop ends because the taker's remainder falls |
| `Matchers.Matcher.CanFullyFill` | src/matching/matcher.cpp:15-42 | true if and only if the crossing liquidity of the flat book covers the taker |
| `Matchers.Matcher.Check` | src/matching/matcher.cpp:98-111 | passes exactly the orders the naive matcher accepts, the look-ahead predicting the matching loop |
| `Matchers.Matcher.Settle` | src/matching/matcher.cpp:115-130 | final status, and the remainder rests exactly when the order may rest |
| `Matchers.Matcher.Submit` | src/matching/matcher.cpp:87-136 | book, order and trades are those of the naive submit; the taker's slot rests or stays held, exhausted makers' slots become free, no other slot changes hands; a reject leaves book, levels, pool and every resting order untouched, and a fill-or-kill order is filled or rejected and never rests |
| `Matchers.Matcher.Cancel` | src/matching/matcher.cpp:138-146 | the flat book is that of the naive cancel; true exactly when the id is indexed; the slot becomes free |
| `Matchers.Matcher.CancelAll` | src/matching/matcher.cpp:148-156 | the book is empty, but only the orders heading a level are cancelled and released, all others keep data and slot; all slots come back if and only if no two resting orders share side and price |
| `Engines.Engine.Load` | src/matching/engine.cpp:8-24 | an empty book for each registered instrument that passes the filter, and for no other |
| `Engines.Engine.Submit` | src/matching/engine.cpp:26-35 | rejects unknown instruments; otherwise the book of that instrument alone changes as the naive submit says, all books keeping disjoint orders and levels; a reject touches nothing of the engine |
| `Engines.Engine.Cancel` | src/matching/engine.cpp:37-43 | true exactly when that instrument's index has the id; only that book changes, as the naive cancel says |
| `Engines.Engine.ExpireInstrument` | src/matching/engine.cpp:45-54 | the instrument leaves the engine, all other books are untouched, and the pool gains the heads of its levels, which is all of its orders if and only if no two share side and price |
| `Engines.Engine.RestingNotFree` | include/ordbk/utils/pool.hpp:46-52 | in every valid engine no resting order is on the free stack, and all are slots of the pool |
| `Engines.Engine.AcquireOrder` | include/ordbk/matching/engine.hpp:27-27 | a slot goes from free to held; no book changes |
| `Engines.Engine.ReleaseOrder` | include/ordbk/matching/engine.hpp:28-28 | a held slot becomes free; no book changes |
| `Bits.MaskIsMod` | include/ordbk/utils/spsc_ring_buffer.hpp:69-69 | masking with a power of two less one is the remainder, for every power of two |
| `Bits.PowerOfTwoTest` | include/ordbk/utils/spsc_ring_buffer.hpp:22-22 | a positive number is a power of two if and only if anding it with its predecessor gives 0 |
| `Bits.MaskedIncrement` | include/ordbk/utils/spsc_ring_buffer.hpp:32-32 | the masked increment of an index counts modulo the capacity |
| `RingBuffers.FullTest` | include/ordbk/utils/spsc_ring_buffer.hpp:31-36 | the full test is exact for the head value seen, however stale |
| `RingBuffers.EmptyTest` | include/ordbk/utils/spsc_ring_buffer.hpp:44-48 | the empty test is exact for the tail value seen, however stale |
| `RingBuffers.StepInv` | include/ordbk/utils/spsc_ring_buffer.hpp:29-52 | each single memory access of push and pop keeps the ring invariant |
| `RingBuffers.ConcurrentFifo` | include/ordbk/utils/spsc_ring_buffer.hpp:29-52 | in every interleaving with stale views: popped values are a prefix of pushed values, at most capacity - 1 are inside, and a slot about to be written holds nothing still to be read |
| `RingBuffers.PushFailsIff` | include/ordbk/utils/spsc_ring_buffer.hpp:33-36 | push gives up if and only if the ring is full for the head it sees |
| `RingBuffers.PushSucceeds` | include/ordbk/utils/spsc_ring_buffer.hpp:29-40 | with room and the current head seen, a whole push runs and puts the value last in the queue |
| `RingBuffers.PopFailsIff` | include/ordbk/utils/spsc_ring_buffer.hpp:45-48 | pop gives up if and only if the ring is empty for the tail it sees |
| `RingBuffers.PopSucceeds` | include/ordbk/utils/spsc_ring_buffer.hpp:42-52 | on a ring that is not empty, a whole pop runs and takes the value pushed longest ago |
| `RingBuffers.SizeWhenQuiet` | include/ordbk/utils/spsc_ring_buffer.hpp:54-64 | with both threads at rest, empty and approx_size tell the number of queued values, wrap-around of the difference included |
| `Commands.ApplyIsRouting` | src/matching/engine.cpp:26-43 | a command changes the books as the engine does and logs its trades |
| `Commands.ReplayIsLocal` | src/matching/engine.cpp:26-43 | book and trade log of an instrument depend on its own commands only |
| `Commands.ShardKeepsInstrument` | include/ordbk/matching/sharded_engine.hpp:59-62 | the shard of an instrument gets all of its commands in order |
| `Sharded.StepInv` | src/matching/sharded_engine.cpp:48-133 | each event of sender or worker keeps the system invariant |
| `Sharded.ShardingPreservesMeaning` | src/matching/sharded_engine.cpp:19-113 | for any shard count and interleaving, once its queue is drained an instrument's book and trade log equal those of one engine fed the accepted commands in producer order |
| `Sharded.WaitIdleMeansApplied` | src/matching/sharded_engine.cpp:115-133 | wait_idle returns only when every accepted command has been applied, though counters are read one by one and may be stale |
| `Sharded.ExitMeansApplied` | src/matching/sharded_engine.cpp:37-91 | a worker that has exited has applied all leftovers and its counters agree |
| `Sharded.PushesAreAccountedFor` | src/matching/sharded_engine.cpp:67-102 | pushes are processed, in the worker's hands or queued; submitted lags by at most one, and processed may exceed it by at most one |
| `Progress.CommandIsAccepted` | src/matching/sharded_engine.cpp:93-113 | from every reachable state with a ready sender and room in the queue, a call runs to its end: the command is accepted, queued last in its shard and counted |
| `Progress.CommandIsRefusedIff` | src/matching/sharded_engine.cpp:98-99 | a call is refused if and only if its queue is full for the head it sees, and then leaves no trace |
| `Progress.TestingWorkerPops` | src/matching/sharded_engine.cpp:51-53 | a worker that does not see its stop flag goes on to pop |
| `Progress.CommandIsApplied` | src/matching/sharded_engine.cpp:53-68 | the command queued longest ago is applied to the books of its shard and counted, and nothing else changes |
| `Progress.CheckIdleMoves` | src/matching/sharded_engine.cpp:120-128 | the scan goes on to the next shard if and only if the counters read are equal, and starts over if not |
| `Progress.WaitIdleReturns` | src/matching/sharded_engine.cpp:115-133 | with all counters equal, wait_idle returns after one scan |
| `Progress.EmptyPopEnds` | src/matching/sharded_engine.cpp:51-75 | a pop that finds nothing sends a draining worker to its exit and another back to the stop flag |
| `Progress.ShutdownEndsWorker` | src/matching/sharded_engine.cpp:37-91 | after its stop flag is set, a worker can drain its whole queue and exit |
| `EngineRuns.LotIsRun` | src/matching/engine.cpp:26-43 | the book and trade log of an instrument in an engine are those of a single-book run of its commands |
| `EngineRuns.ShardedBooksAreOk` | src/matching/sharded_engine.cpp:48-113 | in every state of every sharded run, each instrument's book is sane and uncrossed and its quantities balance, for the commands applied so far |
| `EngineRuns.ServedBooksAreOk` | src/gateway/dispatcher.cpp:33-163 | whatever a client sends, no book is ever crossed or otherwise out of order |
| `Workers.Worker.Submit` | src/matching/sharded_engine.cpp:55-62 | only the books of the worker's engine change, as the engine alone would change them; all engines over the shared pool stay valid and apart; the slot ends resting, or free, or held exactly when the order is stranded |
| `Workers.Worker.Cancel` | src/matching/sharded_engine.cpp:63-66 | likewise, the cancelled slot becoming free |
| `Wire.BodyRoundTrip` | src/protocol/codec.cpp:139-351 | parsing the bytes of any of the nine bodies gives the body back, two's-complement prices included |
| `Wire.HeaderRoundTrip` | src/protocol/codec.cpp:112-132 | parsing a printed header, whatever follows it, gives the header back |
| `Wire.BodyLayout` | docs/protocol.md:19-95 | the type byte, the size and the offset of every field of the nine bodies, as numbers |
| `Codec.UnLEAppend` | src/protocol/codec.cpp:75-99 | byte i of a number read weighs 256 to the i, and or-ing it in adds it |
| `Wire.PrintedBackIff` | src/protocol/codec.cpp:259-351 | for every type and every body read: printing it gives the same bytes if and only if there were no surplus bytes and the padding of a new order was 0 |
| `Wire.PaddingIsIgnored` | src/protocol/codec.cpp:290-291 | a new order with padding 1 is read, and prints with padding 0 |
| `Wire.SurplusIsIgnored` | src/protocol/codec.cpp:274-275 | a heartbeat with a surplus byte is read |
| `Codec.BufferWriter.WriteUint` | src/protocol/codec.cpp:11-48 | fails without effect when there is no room, otherwise appends the little-endian bytes |
| `Codec.BufferReader.ReadUint` | src/protocol/codec.cpp:57-99 | fails without effect when bytes are missing, otherwise the or-ed and shifted bytes are the little-endian number |
| `Codec.ShiftIsDivision` | src/protocol/codec.cpp:32-35 | shifting right by 8i bits is dividing by 256 to the i |
| `Codec.EncodeBody` | src/protocol/codec.cpp:139-185 | writes exactly the bytes of the body, and succeeds exactly when they fit |
| `Codec.EncodeInto` | src/protocol/codec.cpp:217-247 | 0 exactly when the frame does not fit; otherwise header with the true body length, then the body |
| `Codec.Encode` | src/protocol/codec.cpp:249-255 | the bytes of the whole frame |
| `Codec.DecodeHeader` | src/protocol/codec.cpp:118-132 | agrees with the header parser on every input |
| `Codec.DecodeBody` | src/protocol/codec.cpp:259-351 | agrees with the body parser on every type byte and every input |
| `Framing.HeaderByBytes` | docs/protocol.md:7-17 | version, type, body length and sequence as numbers made of the eight header bytes |
| `Framing.PollByBytes` | src/protocol/framer.cpp:13-51 | each of the three errors, a message or nothing yet, decided by the buffered bytes alone; a message takes exactly its bytes, anything else takes none |
| `Framing.OtherVersionIsRefused` | src/protocol/framer.cpp:25-29 | a heartbeat of version 2 is BadVersion and no message |
| `Framing.StreamIsNumbered` | include/ordbk/protocol/session.hpp:53-53 | message i of an emitted stream has version 1, its type and size, and number i + 1 modulo 2^32 |
| `Framing.DrainThenFeed` | src/protocol/framer.cpp:6-51 | draining before or after feeding more gives the same messages and the same error |
| `Framing.ChunkingDoesNotMatter` | src/protocol/framer.cpp:6-51 | for every stream, every split and every interleaving of next calls: after a full drain, messages and error equal those of feeding the stream once |
| `Framing.StreamRoundTrip` | src/protocol/session.cpp:6-10 | reading an emitted stream gives the bodies back, numbered 1, 2, 3, .. modulo 2^32, with nothing left over |
| `Framing.EmittedStreamIsReadBack` | src/protocol/session.cpp:6-17 | the same however the stream is cut on the way |
| `Sessions.Framer.Feed` | src/protocol/framer.cpp:6-11 | appends, or drops the bytes after an error |
| `Sessions.Framer.Next` | src/protocol/framer.cpp:13-51 | one step of the framer model: message, nothing yet, or one of three errors |
| `Sessions.Session.OnBytes` | include/ordbk/protocol/session.hpp:39-39 | inbound bytes reach the framer and nothing else |
| `Sessions.Session.NextInbound` | include/ordbk/protocol/session.hpp:42-42 | one step of the framer model |
| `Sessions.Session.Emit` | src/protocol/session.cpp:6-10 | bytes taken so far plus bytes queued always spell out all bodies emitted |
| `Sessions.Session.TakeOutbound` | src/protocol/session.cpp:12-17 | hands over what is queued and loses nothing |
| `Gateway.ReasonIsExact` | src/gateway/dispatcher.cpp:12-29 | for every message, unknown enum bytes included: the engine rejects exactly when one of its checks stops the order; books are then unchanged and the reason found afterwards names that check, never Unknown |
| `Gateway.NewOrderIsAnswered` | src/gateway/dispatcher.cpp:86-145 | a new order gets exactly one reject and changes nothing, or one ack followed by fills with its final status that sum to its filled quantity |
| `Gateway.CancelIsAnsweredOnce` | src/gateway/dispatcher.cpp:147-163 | a cancel is confirmed exactly when the id is indexed for that instrument, and a second one is rejected; a reject leaves session and books alone |
| `Gateway.StrandedIff` | src/matching/matcher.cpp:119-123 | an order ends stranded if and only if it passes the checks, is a market or IOC order but not fill-or-kill, and the crossing liquidity is positive but less than its quantity |
| `Gateway.IocIsStranded` | src/matching/matcher.cpp:119-123 | an IOC bid of 10 against an ask of 5 ends stranded |
| `Gateway.EndsOneWay` | src/gateway/dispatcher.cpp:141-144 | an order ends in exactly one of three ways: resting, terminal, or partly filled and not allowed to rest |
| `Gateway.PhaseByHistory` | src/gateway/dispatcher.cpp:66-84 | the session phase is decided by whether a logout and a logon have been seen |
| `Gateway.OnlyActiveTouchesEngine` | src/gateway/dispatcher.cpp:86-163 | over every session, a message changes the books only after a logon and before any logout |
| `Gateway.InactiveIsInert` | src/gateway/dispatcher.cpp:88-92 | outside Active no message changes the books, and orders and cancels get NotLoggedOn |
| `Gateway.ClosingIsFinal` | src/gateway/dispatcher.cpp:66-79 | Closing is never left, whatever other sessions do |
| `Gateway.ClientIsFixedOnceActive` | src/gateway/dispatcher.cpp:66-73 | a session never becomes NotLoggedOn again and keeps its client |
| `Gateway.ServeInParts` | src/gateway/dispatcher.cpp:33-64 | handling messages in several pumps gives the session, the answers and the stranded slots of handling them in one |
| `GatewayLaws.SessionAnswers` | src/gateway/dispatcher.cpp:66-84 | the answers to logon, logout and heartbeat, and the state after each |
| `GatewayLaws.ServerMessagesAreIgnored` | src/gateway/dispatcher.cpp:37-62 | messages that only a server sends change nothing and get no answer |
| `GatewayLaws.OrderTurnedAway` | src/gateway/dispatcher.cpp:88-99 | reason byte 5 when not logged on, 0 when the pool is empty, and nothing else |
| `GatewayLaws.OrderRejected` | src/gateway/dispatcher.cpp:125-128 | an order is rejected if and only if one of the reasons 1, 2, 3, 4 or 7 applies to the message and the book, with that byte |
| `GatewayLaws.OrderTaken` | src/gateway/dispatcher.cpp:129-142 | otherwise one ack, then fills within the limit that sum to the offer or the quantity, with status byte 2 or 1 |
| `GatewayLaws.FillsFollowTrades` | src/gateway/dispatcher.cpp:132-141 | one fill for each trade, in order, with its price and quantity |
| `GatewayLaws.RemainderRests` | src/gateway/dispatcher.cpp:101-120 | a remainder rests last, with the id, price, quantity, client and side of the message, unless it is a market order or the time in force byte is 1; no other book changes |
| `Dispatchers.Dispatcher.HandleLogon` | src/gateway/dispatcher.cpp:66-73 | reacts as the gateway model, engine untouched |
| `Dispatchers.Dispatcher.HandleLogout` | src/gateway/dispatcher.cpp:75-79 | reacts as the gateway model, engine untouched |
| `Dispatchers.Dispatcher.HandleHeartbeat` | src/gateway/dispatcher.cpp:81-84 | reacts as the gateway model, engine untouched |
| `Dispatchers.Dispatcher.HandleNewOrder` | src/gateway/dispatcher.cpp:86-145 | answers and books are those of the gateway model; the order takes one slot, which ends resting or free again and stays held exactly when the condition of `Gateway.StrandedIff` held before the call |
| `Dispatchers.Dispatcher.HandleCancel` | src/gateway/dispatcher.cpp:147-163 | answer and books are those of the gateway model; no held slot changes |
| `Dispatchers.Dispatcher.Pump` | src/gateway/dispatcher.cpp:33-64 | all framed messages are handled in order with the effect of the gateway model; held slots stay held and grow by exactly the stranded orders; no new order is refused a slot before as many new orders as there were free slots |
| `Chains.EarlierIsChronological` | include/ordbk/instruments/contract.hpp:27-36 | dates are ordered by year, then month, then day |
| `Chains.UpToIsInclusive` | src/instruments/chain.cpp:127-128 | contracts expiring on the date itself are among those expiring on or before it |
| `Chains.FiledOnce` | src/instruments/chain.cpp:8-58 | no two ids stand for one contract, and the slot of a contract holds exactly its id |
| `Chains.Chain.Add` | src/instruments/chain.cpp:8-31 | succeeds exactly when neither id nor contract is present, and adds just that; the three maps describe the same contracts, with no empty slot or expiry |
| `Chains.Chain.Remove` | src/instruments/chain.cpp:33-58 | succeeds exactly when the id is present, and removes just that, keeping the agreement of the maps |
| `Chains.Chain.Find` | src/instruments/chain.cpp:60-71 | the id of that contract, none exactly when it is not listed |
| `Chains.Chain.AtExpiry` | src/instruments/chain.cpp:73-87 | exactly the contracts of that expiry, by strike, call before put |
| `Chains.Chain.CallsAt` | src/instruments/chain.cpp:89-99 | exactly the calls of that expiry, by strike |
| `Chains.Chain.PutsAt` | src/instruments/chain.cpp:101-111 | exactly the puts of that expiry, by strike |
| `Chains.Chain.Expiries` | src/instruments/chain.cpp:113-120 | exactly the expiries of the listed contracts, ascending and distinct |
| `Chains.Chain.ExpiringOnOrBefore` | src/instruments/chain.cpp:122-138 | the early break loses nothing: exactly the contracts not expiring after the date, by expiry, strike, call before put |
| `Chains.ListIsUnique` | src/instruments/chain.cpp:73-138 | such a list is determined: same contents and order, same list |
| `Occ.RoundTripIff` | src/instruments/contract.cpp:21-98 | parsing the printed symbol restores the contract if and only if the root has at most 6 characters and no trailing space, the year is 2000-2099, month and day have two digits, and 0 <= strike * 10 <= 99999999 |
| `Occ.SymbolRoundTripIff` | src/instruments/contract.cpp:21-98 | printing a parsed symbol restores it if and only if it has 21 characters and ends in 0 |
| `Occ.ParsedIsRepresentable` | src/instruments/contract.cpp:52-98 | whatever parses can be printed without loss |
| `Occ.SymbolLayout` | include/ordbk/instruments/contract.hpp:41-44 | where root, year, month, day, C or P and the strike in thousandths stand in a symbol |
| `Occ.NegativeStrikeIsRefused` | src/instruments/contract.cpp:38-41 | a negative strike prints a minus sign at position 13, and the symbol does not parse |
| `Occ.SymbolsIdentify` | src/instruments/contract.cpp:21-50 | representable contracts with the same symbol are equal |
| `Occ.PaddedFits` | src/instruments/contract.cpp:28-41 | a number that fits is printed at exactly its width, zeros in front |
| `Occ.PrintSymbol` | src/instruments/contract.cpp:21-50 | the loop and the cut-off fields give the 21-character symbol |
| `Occ.FromOcc` | src/instruments/contract.cpp:52-98 | the parser model on every input: too short, non-digit, neither C nor P, or a contract |

## Left out

- `OrderBook::find`, `order_count`, `best_bid`, `best_ask`: lookups that add nothing beyond `PeekTop` and the index facts.
- TCP shim, `Server`, `Client` and `main`: sockets and threads around the modelled parts.
- Timestamps, `now_ns` and latency statistics: they do not affect matching.
- `InstrumentRegistry` and `Sweeper`: map bookkeeping; the engine takes the list of registered ids as input.
- The mutex of `Pool`: pool operations are single steps; so is a worker's handling of one command between its queue accesses.
- Weak memory beyond stale loads: an acquire load may return any value not older than what the thread has seen, and reading the stop flag shows the pushes before it; instruction-level reordering is not modelled.
- `Sharded.ShardingPreservesMeaning`: shard commands carry orders as values and the 64-bit command counters are unbounded numbers; the slots are followed command by command in `Workers.Worker.Submit`, not through the interleavings.
- Enum bytes that name no enumerator: kept apart only as far as the code tells them apart, as one unknown type and one unknown time in force.
- The data fields of an order: grouped in one record `data` that is replaced as a whole, beside the two link fields.
- `Matchers.Matcher.Submit`: asks that the filled quantity does not exceed the initial one and that the slot is held by the caller, as every caller in the source arranges; a linked or free order is not covered.
- `BookRuns.Run`: submitted orders start with filled quantity 0, as the gateway creates them.
- `Dispatchers.Dispatcher.Pump`: one session at a time works on the engine; other sessions appear between pumps, as in `Gateway.ClosingIsFinal`.
- `Codec.EncodeInto`: the second length check of the source can never fail and is not repeated.
- `Occ.PrintSymbol`: asks that the strike in thousandths fits 64 bits, beyond which the source has no defined result; option style, multiplier and settlement are not part of a symbol.
