# A verified model of a low-latency exchange and its trading clients

The system is a price-time-priority exchange that publishes a sequenced public feed, and trading clients that
rebuild the book from that feed and run a risk-checked order state machine. This project models its core in
Dafny and proves what the parts promise each other, up to statements about every run of the whole protocol.
`dafny verify dfyconfig.toml` checks all of it.

## How it is put together

| files | content |
|---|---|
| `Types`, `PriceTime` | messages; one side of a book as a sequence in matching order |
| `Matching`, `Feed`, `Conservation`, `Leaves`, `Attribution` | what the exchange computes, as functions: matching, resting, cancelling, the messages they send; price-time priority, the public stream, quantity conservation in total and response by response, and who is told what |
| `MemPool`, `Rings`, `Ladder`, `LadderOps`, `Accounting`, `LinkedBook` | the pool and the two-level linked structure of both books, by pool index, with its invariant and the exact number of blocks it uses |
| `MEOrderBook`, `MarketOrderBook` | the exchange's book and the client's replica, each proved against the functions above |
| `Snapshot`, `Consumer`, `Recovery`, `Emission`, `Replica`, `LostStart`, `SecondRecovery` | snapshot synthesizer, market data consumer, the replication protocol as a state machine, the consumer's output message by message, what the client's books make of it, and runs with a lost START or a second recovery |
| `OrderManager`, `SlotTrace`, `ClientProtocol`, `ClientSafety`, `LimitBreach`, `ZeroClip` | order slots, risk check, one client against the exchange over asynchronous channels, and the runs that break a position limit or strand a slot |
| `Position`, `Marking` | position and profit accounting over exact reals, and the quotes it is marked at |
| `LFQueue`, `RingProtocol` | the ring queue, the publisher, and all interleavings of their atomic steps |
| `Transport`, `OrderEntry`, `Session`, `Connection`, `Sequencer` | send and receive buffers, framing, sequence checks, clients and their sockets, the FIFO sequencer |

Classes hold the state the program updates in place; each method's contract equates the new state with a pure
function of the old one, and the lemmas are about those functions. The two books duplicate the same pointer code
in the program; here `LinkedBook` is written once and both use it. No proof relies on automatic induction: every lemma
turns it off and makes its recursive calls itself.

### Main results

1. **Recovery.** `Recovery.StartsSuffice` and `Recovery.RecoverySafe`: with incrementals lost, repeated and reordered
   freely, whenever the consumer is not recovering, folding everything it has emitted gives exactly the exchange's
   books after incrementals 1 to next - 1. The code never compares the numbers in the two snapshot markers, so the
   result needs that they agree, which is exactly when a complete queue is one whole cycle
   (`Recovery.WholeIffAgreeing`). `LostStarts.LostStartDiverges` is a run in which a lost START makes a caught-up
   client show a wrong book, and `Recovery.StartsSuffice` proves that keeping STARTs is enough.
   `Recovery.RecoveryCompletes` shows that recovery ends. `Emissions.PassedOn` and `EmittedLiterally` say the same
   message by message: incrementals in order are handed on as they are, trades included, and each recovery adds the
   body of one cycle and a slice of the published stream. `Replicas.ReplicaFollows` takes the emitted stream on to the
   client's books: a ticker's replica can take all of it if and only if every recovery finds that book empty, and the
   stream ends at the exchange's book. `SecondRecoveries.RepeatBreaks` shows how easily that fails: from every state
   outside recovery in which a ticker has orders, one repeated incremental and one whole cycle break its replica.
2. **Book refinement.** `MEOrderBooks.MEOrderBook.Add` and `Cancel` keep every ring, slot, index and pool consistent
   and compute exactly `Matching.AddOrder` and `CancelOwner`; `Matching.FillsAreGreedy` shows that those fills are the
   greedy price-time prefix. `Conservation.QuantityConserved` and `Leaves.LeavesChained` account for every order of
   every run, in total and response by response, and `Attribution.ResponsesAttributed` ties each response to the
   request behind it.
3. **Public feed.** `Feed.FeedAgrees`, `Feed.FeedUncrossed`: every update is well formed when it is sent, folding the
   stream gives the books, and no prefix of it is crossed. `LFQueues.Relay`: publisher and synthesizer together satisfy
   every assertion of the synthesizer, and its tables follow the books. `Snapshot.SnapshotRebuilds`: id-ordered
   snapshots preserve time priority.
4. **Client protocol.** `ClientSafety.ResponsesBelong`, `PositionLimit`, `QuietAgreement`: over every interleaving,
   responses belong to the order in their slot although ids are never compared, the position limit holds although the
   risk check ignores live orders, and a quiet slot agrees with the exchange. `ClientSafety.SentExactly` says what a
   strategy call sends, in terms of the three limits. Which position limits hold is settled by
   `LimitBreach.PositionLimitExactly`: outside that range some run goes past the limit. `ZeroClips.StrandsExactly` does
   the same for slots that wait for good (`ClientSafety.StrandedForGood`): it takes a clip of zero, and that is enough
   on every ticker that can trade at all.
5. **Ledger, queue, transport.** `Positions.FillTotal` gives the exact error of the profit calculation for every fill,
   `Positions.ExactIff` says for which fills there is none, and `Positions.Ledger` covers any mix of fills and quotes;
   `RingProtocol.FeedsCarryTheSame` and `SpareSlotNeeded` show that one spare slot is needed and enough;
   `Connection.ExactlyOnce`, `Sequencers.ExactlyOnce`, `Sessions.ServedExactly` and `GatewayHears` cover order entry.

### Assumptions about the environment

Sides are BUY or SELL and ids are within the table sizes. No client reuses a live client order id, and distinct live
or incoming prices never share a slot modulo the number of price levels. Conservation assumes fewer than 2^32
requests, because `checkForMatch` takes the market order id as a 32-bit quantity; the model keeps that truncation. The
client index of the exchange's book starts out null and the cost basis of a position starts at zero, although the
program does not initialise either. Pools have room where a block is taken: the book that results fits them
(`Accounting.Fits`, exact by `LinkedBooks.LinkedBook.RoomExactly`). Signed 32-bit overflow, which C++ leaves
undefined, and the cast of a large unsigned quantity to a signed one are taken to be two's complement. Snapshot
messages of an older cycle do not arrive after those of a newer one.

### Where the code differs from what one might expect

- CLEAR on the client's book resets neither the price slots nor the quotes, so the book survives it only when it is
  empty (`MarketOrderBooks.MarketOrderBook.Clear`, and on a concrete book `ClearedWithOneBid`). A late joiner's first
  recovery is that case (`Replicas.LateJoinerUsable`); a second recovery of a non-empty book is not
  (`SecondRecoveries.SecondRecoveryBreaks`, `RepeatBreaks`).
- A repeated old incremental throws the consumer into recovery. What it emits stays right (`Recovery.RecoverySafe`),
  but that recovery ends with a CLEAR of books that have orders.
- A position limit of 2^31 or more reads as negative, so that from a flat position only an order of 2^31 passes
  (`ZeroClips.NeverTrades`).
- The 32-bit risk check is sound exactly when position limit plus order limit stay below 2^31, or the position limit
  alone is 2^31 or more, which no 32-bit position exceeds (`OrderManagers.RiskSoundExactly`).
- Writing to a full queue is not refused: it replaces unread elements (`LFQueues.LFQueue.Write`).
- `addFill` recognises a flipped position by a 32-bit product. Even where that product does not overflow, a fill of
  2^31 is cast to a negative quantity (`Positions.NegativeCast`).
- `std::sort` is not stable, so requests of one client with equal receive times may be reordered; the client protocol
  is proved for requests handled in any order.

## Model

| member | source | states |
|---|---|---|
| `PriceTime.SortedUnique` | exchange/matcher/me_order_book.h:197-216 | a side in price-time order is determined by its set of orders |
| `PriceTime.InsertSorted` | exchange/matcher/me_order_book.h:198-213 | a newcomer placed behind its own price level keeps price-time order |
| `Matching.FillsAreGreedy` | exchange/matcher/me_order_book.cpp:38-103 | the fills are exactly the greedy shares of the opposite side by price, then arrival; both responses of each carry the passive price, their own party and its exact leaves; each TRADE carries the aggressor's side, that price and that share; the rest of the side is untouched |
| `Matching.RemainderCrossesNothing` | exchange/matcher/me_order_book.cpp:74-103 | a positive remainder means no crossing order is left |
| `Matching.MatchAllRest` | exchange/matcher/me_order_book.cpp:74-103 | matching consumes a prefix of the side, the next order perhaps partly, and stops only when nothing more can match |
| `Matching.MatchedBook` | exchange/matcher/me_order_book.cpp:74-128 | the book after matching and before resting is sorted, uncrossed and duplicate free |
| `Matching.RestingKeepsInv` | exchange/matcher/me_order_book.cpp:116-127 | resting an uncrossed remainder with the next priority of its price keeps the book sorted, uncrossed, duplicate free, and priorities increasing within a price |
| `Matching.ProcessKeepsInv` | exchange/matcher/me_order_book.cpp:107-157 | every legal request keeps all of that |
| `Feed.ProcessFeed` | exchange/matcher/me_order_book.cpp:54-157 | each update of a request is well formed when it is sent, and folding them turns the old public book into the new one |
| `Feed.FeedAgrees` | exchange/matcher/me_order_book.cpp:38-157 | over every legal run the public stream is good and folds to the books |
| `Feed.FeedUncrossed` | exchange/matcher/me_order_book.cpp:74-128 | best bid is below best ask at every prefix of the public stream |
| `Feed.ApplyKeepsOk` | trading/strategy/market_order_book.cpp:32-57 | a well-formed update keeps a public book sorted, uncrossed and duplicate free |
| `Feed.PrefixesSound` | trading/strategy/market_order_book.cpp:26-96 | so does every prefix of a good stream |
| `Conservation.QuantityConserved` | exchange/matcher/me_order_book.cpp:38-157 | per market order id, accepted = executed + resting + cancelled quantity; per ticker, bought = sold |
| `Conservation.MatchAllConserves` | exchange/matcher/me_order_book.cpp:74-103 | through a matching loop both parties of every fill are debited the same quantity |
| `Leaves.LeavesChained` | exchange/matcher/me_order_book.cpp:38-157 | for every market order of every run: ACCEPTED comes first and once, each FILLED has a positive execution and leaves = previous leaves - exec, a CANCELED repeats the previous leaves, and the leaves reported last (zero after CANCELED) are what rests |
| `Leaves.MatchAllChain` | exchange/matcher/me_order_book.cpp:74-103 | through one matching loop the responses about any order continue each other and end at what it has left |
| `Attribution.ResponsesAttributed` | exchange/matcher/me_order_book.cpp:38-157 | over every run, market ids number the new orders of a ticker, and each response names client, order id and side of the order behind its id, at the price asked for (ACCEPTED, CANCELED) or no worse (FILLED); a rejection answers a cancel that was sent |
| `Attribution.NewSays` | exchange/matcher/me_order_book.cpp:107-128 | a new order in full: ACCEPTED, the greedy fills and trades, and the remainder with a priority one above any at its price, published by an ADD |
| `Attribution.CancelSays` | exchange/matcher/me_order_book.cpp:131-157 | a cancel takes exactly the owner's order out, with CANCELED saying what was left of it, or is rejected when there is none |
| `Attribution.NextIsHighest` | exchange/matcher/me_order_book.h:157-163 | the next priority is one more than any at the price |
| `MemPools.MemPool.Allocate` | common/mem_pool.h:20-30 | hands out a block that was free, changes no other block, and fails exactly when it took the last free one |
| `MemPools.MemPool.UpdateNextFreeIndex` | common/mem_pool.h:54-65 | the cyclic scan terminates at a free block, or reports that there is none |
| `MemPools.MemPool.Deallocate` | common/mem_pool.h:34-39 | frees that block alone; the next free index still names a free block |
| `MemPools.CapacityExact` | common/mem_pool.h:54-65 | a block can be returned exactly when two or more are free: N blocks serve N - 1 objects |
| `Rings.RingInsert` | exchange/matcher/me_order_book.h:111-124 | relinking two neighbours inserts a member at that place of the ring |
| `Rings.RingRemove` | exchange/matcher/me_order_book.h:181-191 | relinking two neighbours removes a member from the ring |
| `LinkedBooks.LinkedBook.GetNextPriority` | exchange/matcher/me_order_book.h:157-163 | one more than the last priority at the price, or one |
| `LinkedBooks.LinkedBook.AddOrder` | exchange/matcher/me_order_book.h:198-216 | keeps the structure valid; the book gains the order at the end of its price level; a level block is needed only when the price has no level |
| `LinkedBooks.LinkedBook.AddOrdersAtPrice` | exchange/matcher/me_order_book.h:88-132 | a new level goes to its place in the strictly sorted ring, and the best pointer follows |
| `LinkedBooks.LinkedBook.FindPlace` | exchange/matcher/me_order_book.h:96-109 | the scan over the ring ends at the position the price belongs to |
| `LinkedBooks.LinkedBook.RemoveOrder` | exchange/matcher/me_order_book.h:175-195 | keeps the structure valid; the book loses exactly that order |
| `LinkedBooks.LinkedBook.RemoveOrdersAtPrice` | exchange/matcher/me_order_book.h:135-155 | removes an emptied level from ring, slot and pool, and moves the best pointer |
| `LinkedBooks.LinkedBook.UnlinkOrder` | trading/strategy/market_order_book.h:187-198 | takes an order out of a queue of two or more, moving the queue's head when needed |
| `LinkedBooks.LinkedBook.SetOrderQty` | exchange/matcher/me_order_book.cpp:44-44 | changes one quantity in the book and nothing else |
| `LinkedBooks.LinkedBook.OrderInView` | exchange/matcher/me_order_book.h:198-216 | every block in use is an order of the book |
| `LinkedBooks.LinkedBook.RoomExactly` | common/mem_pool.h:54-65 | a pool can hand out a block exactly when orders, or price levels, of the book number at most its size less two |
| `Accounting.OrdersCounted` | common/mem_pool.h:20-39 | free order blocks and orders of the book add up to the pool: no block leaks |
| `Accounting.LevelsCounted` | common/mem_pool.h:20-39 | free level blocks and distinct prices of both sides add up to the pool |
| `MEOrderBooks.MEOrderBook.Match` | exchange/matcher/me_order_book.cpp:38-70 | one match: book, leaves, both responses and both updates are those of `MatchHead` |
| `MEOrderBooks.MEOrderBook.CheckForMatch` | exchange/matcher/me_order_book.cpp:74-103 | the loop computes `MatchAll` |
| `MEOrderBooks.MEOrderBook.Add` | exchange/matcher/me_order_book.cpp:107-128 | the linked book, its index and its messages refine `AddOrder` whenever the resulting book fits the pools |
| `MEOrderBooks.MEOrderBook.Cancel` | exchange/matcher/me_order_book.cpp:131-157 | the linked book, its index and its messages refine `CancelOwner`, including rejection |
| `MEOrderBooks.MEOrderBook.RemoveOrder` | exchange/matcher/me_order_book.h:175-195 | the order leaves book and client index together |
| `MEOrderBooks.AfterMatching` | exchange/matcher/me_order_book.h:83-89 | after matching, no order of the other side stands at the incoming price, which makes one slot table for both sides sound |
| `MarketOrderBooks.MarketOrderBook.OnMarketUpdate` | trading/strategy/market_order_book.cpp:26-96 | the replica is what the update leads to, and the conditionally refreshed quotes equal those recomputed from it, modulo 2^32; an ADD needs the resulting book to fit the pools |
| `MarketOrderBooks.MarketOrderBook.Replay` | trading/strategy/market_order_book.cpp:26-96 | over a whole stream, CLEARs of an empty book included, the replica and its quotes end where the stream leads |
| `MarketOrderBooks.MarketOrderBook.Clear` | trading/strategy/market_order_book.cpp:58-79 | every order and level block is free, the index is null and there are no best levels, but slots and quotes stay; an empty book stays usable, a non-empty one satisfies the invariant under no shape, and the slot of every price that had orders names a freed level of that price |
| `MarketOrderBooks.ClearedWithOneBid` | trading/strategy/market_order_book.cpp:58-79 | one ADD and a CLEAR: the slot of the price names a freed level and the quote still shows the bid |
| `MarketOrderBooks.MarketOrderBook.UpdateBBO` | trading/strategy/market_order_book.h:27-53 | each refreshed side shows best price and total quantity there, the other is kept |
| `MarketOrderBooks.MarketOrderBook.QuotesShow` | trading/strategy/market_order_book.h:27-53 | a valid replica's quotes show a price in the book that none beats and the sum of the quantities there, or the invalid price and quantity for an empty side, and the invalid price only then |
| `Markings.QuotesMark` | trading/strategy/position_keeper.h:82-98 | the quotes of a book re-mark an open position, at the middle of its best prices, exactly when both sides have orders |
| `Markings.QuotesKeepLedger` | trading/strategy/position_keeper.h:82-98 | so total profit is cash + position * mid with orders on both sides, and as it was otherwise |
| `Markings.OnOrderBookUpdate` | trading/strategy/trade_engine.cpp:161-172 | a changed book marks the position so |
| `MarketOrderBooks.QuoteKept` | trading/strategy/market_order_book.cpp:27-30 | an update that fails the test made before it leaves that side's quote right as it is |
| `MarketOrderBooks.MarketOrderBook.OnAdd` | trading/strategy/market_order_book.cpp:33-40 | an ADD puts the order into book and index |
| `MarketOrderBooks.MarketOrderBook.OnModify` | trading/strategy/market_order_book.cpp:41-45 | a MODIFY changes one quantity |
| `MarketOrderBooks.MarketOrderBook.OnCancel` | trading/strategy/market_order_book.cpp:46-52 | a CANCEL removes the order from book and index |
| `Snapshot.SnapshotSynthesizer.AddToSnapshot` | exchange/market_data/snapshot_synthesizer.cpp:29-69 | table and pool follow the update; the sequence number advances |
| `Snapshot.SnapshotSynthesizer.PublishSnapshot` | exchange/market_data/snapshot_synthesizer.cpp:72-111 | publishes START, per ticker a CLEAR and its orders by ascending id, END, numbered from zero |
| `Snapshot.SnapshotSynthesizer.PublishTicker` | exchange/market_data/snapshot_synthesizer.cpp:81-102 | one ticker's part of the cycle |
| `Snapshot.WellFormedAcceptable` | exchange/market_data/snapshot_synthesizer.cpp:33-57 | a well-formed update passes the existence, id and side assertions |
| `Snapshot.NeverAsserts` | exchange/market_data/snapshot_synthesizer.cpp:29-69 | no existence, id or side assertion fires at any point of a good stream; for the sequence number see `Follow` |
| `Snapshot.SnapshotSynthesizer.Follow` | exchange/market_data/snapshot_synthesizer.cpp:114-124 | over a good stream numbered on from the last one seen, every assertion holds at every message, the sequence number included, no table or pool overflows, and the tables hold the fold of the whole stream |
| `Snapshot.TablesFollow` | exchange/market_data/snapshot_synthesizer.cpp:29-69 | the tables hold exactly the public books at every prefix |
| `Snapshot.SnapshotRebuilds` | exchange/market_data/snapshot_synthesizer.cpp:80-102 | replaying the id-ordered listing on any books gives exactly the exchange's queues |
| `Snapshot.ListingGood` | trading/strategy/market_order_book.cpp:33-40 | after a CLEAR, each listed ADD carries an id above all live ones and crosses nothing |
| `Consumer.AscendingKeys` | trading/market_data/market_data_consumer.cpp:65-65 | iteration over an ordered map: all keys, ascending |
| `Consumer.MarketDataConsumer.StartSnapshotSync` | trading/market_data/market_data_consumer.cpp:37-45 | both queues are emptied |
| `Consumer.MarketDataConsumer.SnapshotEvents` | trading/market_data/market_data_consumer.cpp:61-87 | detects every gap from number zero on, and collects the messages without markers |
| `Consumer.MarketDataConsumer.IncrementalEvents` | trading/market_data/market_data_consumer.cpp:96-122 | collects the gapless run behind the snapshot, and reports a gap exactly when something is queued beyond it |
| `Consumer.MarketDataConsumer.CheckSnapshotSync` | trading/market_data/market_data_consumer.cpp:48-145 | whole new state after the check |
| `Consumer.MarketDataConsumer.QueueMessage` | trading/market_data/market_data_consumer.cpp:148-164 | queueing, with a repeated snapshot number starting the queue anew |
| `Consumer.MarketDataConsumer.RecvCallback` | trading/market_data/market_data_consumer.cpp:167-230 | a receive buffer is its messages in order, or nothing when it is unexpected snapshot data; what one message does is pinned by `PassedOn`, `WaitsExactly` and `NextIsMissing` |
| `Recovery.RecoverySafe` | trading/market_data/market_data_consumer.cpp:37-230 | in every run whose accepted snapshots have agreeing markers, the emitted stream folds to the exchange's books after 1 .. next - 1 outside recovery, and always to some past state |
| `Recovery.StartsSuffice` | trading/market_data/market_data_consumer.cpp:89-98 | if no START is lost part way through a cycle, accepted snapshots are single cycles and recovery is safe |
| `Recovery.StepKeepsInv` | trading/market_data/market_data_consumer.cpp:167-230 | each step of the whole protocol keeps the invariant |
| `Recovery.AgreeingIsWhole` | trading/market_data/market_data_consumer.cpp:61-98 | a complete queue with agreeing markers is one whole cycle |
| `Recovery.WholeIffAgreeing` | trading/market_data/market_data_consumer.cpp:61-98 | a complete queue is one whole cycle if and only if its markers agree |
| `Recovery.CycleReplay` | exchange/market_data/snapshot_synthesizer.cpp:72-111 | a cycle's body takes any books to those at the cycle |
| `Recovery.RecoveryCompletes` | trading/market_data/market_data_consumer.cpp:48-145 | a cycle delivered in full with no gap behind it ends recovery, just past the queued incrementals |
| `Recovery.CaughtUp` | trading/market_data/market_data_consumer.cpp:202-217 | a caught-up consumer shows exactly the matching engine's books |
| `Emissions.PassedOn` | trading/market_data/market_data_consumer.cpp:202-217 | from every state outside recovery, incrementals that arrive in order are emitted one by one as published, and the consumer stays outside recovery |
| `Emissions.InOrderFromStart` | trading/market_data/market_data_consumer.cpp:191-217 | incrementals 1 to n in order from the start: no recovery, next = n + 1, and the output is the published stream up to n |
| `Emissions.EmittedLiterally` | trading/market_data/market_data_consumer.cpp:48-230 | in every run with agreeing markers the output is a prefix of the published stream, then for each completed recovery the body of its cycle and a slice of the published stream from there, up to next - 1 outside recovery |
| `Emissions.WaitsExactly` | trading/market_data/market_data_consumer.cpp:37-164 | no whole snapshot ever waits, nothing waits outside recovery, and exactly the incrementals received since recovery began are queued |
| `Emissions.NextIsMissing` | trading/market_data/market_data_consumer.cpp:89-145 | a complete snapshot moves `next` to the first incremental missing behind it, and recovery goes on exactly when a later one is queued |
| `LostStarts.LostStartDiverges` | trading/market_data/market_data_consumer.cpp:89-98 | a run in which a lost START splices two cycles and a caught-up consumer shows a wrong book |
| `LostStarts.DisagreeingButRight` | trading/market_data/market_data_consumer.cpp:89-98 | a run whose markers disagree and whose book is right: agreement is not necessary |
| `Replicas.FirstRecoveryUsable` | trading/market_data/market_data_consumer.cpp:61-145 | on empty books, a whole cycle over all tickers and the incrementals behind it: each CLEAR meets an empty book and each update is well formed |
| `Replicas.LateJoinerUsable` | trading/market_data/market_data_consumer.cpp:167-230 | a client whose only recovery comes before anything was emitted is such a run, so its replicas can take everything |
| `Replicas.ReplicaFollows` | trading/strategy/market_order_book.cpp:26-96 | in every run with agreeing markers: a ticker's replica can take its whole stream if and only if every recovery finds its book empty, and outside recovery that stream ends at the exchange's book after 1 .. next - 1 |
| `Replicas.EmittedUsable` | trading/strategy/market_order_book.cpp:58-79 | a replica that could take all so far can take a completed recovery if and only if its book is empty |
| `SecondRecoveries.RepeatBreaks` | trading/market_data/market_data_consumer.cpp:186-217 | from every run outside recovery with orders on a ticker, a repeated incremental and a whole cycle lead outside recovery again, to a stream that ticker's replica cannot take |
| `SecondRecoveries.SecondRecoveryBreaks` | trading/market_data/market_data_consumer.cpp:186-217 | such a run on one order, from the start |
| `OrderManagers.RiskSoundExactly` | trading/strategy/risk_manager.h:48-58 | over all 32-bit limits, positions and quantities: what the check allows stays within the limit iff position limit + order limit < 2^31, or the position limit is 2^31 or more |
| `OrderManagers.RiskExactly` | trading/strategy/risk_manager.h:48-58 | within limits that fit 32 bits each of the four answers is given exactly when deserved: order size, then position if filled, then total profit against the loss limit |
| `OrderManagers.OrderManager.OnOrderUpdate` | trading/strategy/order_manager.h:27-58 | the slot chosen by ticker and side moves as `Updated` says; all others stay |
| `OrderManagers.OrderManager.Move` | trading/strategy/order_manager.h:68-103 | cancels, sends or does nothing by state, price and risk result |
| `OrderManagers.OrderManager.MoveOrders` | trading/strategy/order_manager.h:109-123 | bid first, then ask |
| `OrderManagers.OrderManager.SendNew` | trading/strategy/order_manager.cpp:6-19 | request, slot and next order id |
| `OrderManagers.OrderManager.SendCancel` | trading/strategy/order_manager.cpp:22-35 | request and slot state |
| `SlotTraces.MatchAllPassive` | exchange/matcher/me_order_book.cpp:38-103 | every fill a resting order receives continues its leaves, and what then rests is what the last one said |
| `SlotTraces.MatchAllActive` | exchange/matcher/me_order_book.cpp:38-103 | the same for the incoming order |
| `SlotTraces.NewOwn` | exchange/matcher/me_order_book.cpp:107-128 | a slot's own order: ACCEPTED, then fills that fit, then exactly the remainder resting |
| `SlotTraces.CancelOwn` | exchange/matcher/me_order_book.cpp:131-157 | a slot's own cancel: CANCELED with what was left, then nothing resting |
| `SlotTraces.CancelBeside` | exchange/matcher/me_order_book.cpp:131-157 | any other cancel leaves the slot alone |
| `ClientProtocol.StepKeepsInv` | trading/strategy/order_manager.h:27-103 | every strategy call, handled request and received response keeps slots, channels and books in step |
| `ClientProtocol.OwnNewLegal` | exchange/matcher/me_order_book.h:215-215 | a client's new order never reuses an id it has resting |
| `ClientSafety.ProtocolHolds` | trading/strategy/order_manager.h:27-103 | so it does over every interleaving |
| `ClientSafety.ResponsesBelong` | trading/strategy/order_manager.h:27-58 | each ACCEPTED, FILLED or CANCELED that arrives is about the order now in its slot, in a state that waits for it, with leaves = previous leaves - exec |
| `ClientSafety.OneOrderPerSlot` | trading/strategy/order_manager.h:68-103 | at most one order per slot is in flight or resting, and it is the slot's |
| `ClientSafety.SentExactly` | trading/strategy/order_manager.h:68-103 | in every reachable state a strategy call sends a NEW exactly when the slot is idle, the price valid and all three limits met, a CANCEL exactly when it is live at another price, and nothing otherwise; ids go up by one |
| `ClientSafety.LossStops` | trading/strategy/risk_manager.h:54-57 | below the loss limit nothing new is sent, whatever the limits |
| `ClientSafety.UsedForGood` | trading/strategy/order_manager.h:27-58 | a slot is INVALID only before its first order |
| `ClientSafety.PositionLimit` | trading/strategy/risk_manager.h:48-58 | for every ticker whose limits add up to less than 2^31: position + open buy and position - open sell stay within the limit in every reachable state |
| `LimitBreach.PositionLimitExactly` | trading/strategy/risk_manager.h:48-58 | a ticker's position stays within its limit in every reachable state if and only if the check's limits are sound; otherwise a run takes it past the limit |
| `ClientSafety.FillKeepsPosition` | trading/strategy/position_keeper.h:44-44 | a fill moves quantity from slot to position without overflow |
| `ClientSafety.QuietAgreement` | trading/strategy/order_manager.h:27-103 | with empty channels no slot is PENDING_NEW, only quantity zero is PENDING_CANCEL, and each slot names exactly what rests |
| `ClientSafety.QuietWithPositiveClips` | trading/strategy/order_manager.h:109-123 | with positive clips on its ticker a quiet slot is LIVE with its order resting, or idle with none |
| `ZeroClips.ZeroClipStrands` | exchange/matcher/me_order_book.cpp:116-127 | on every ticker that can trade, a run in which a clip of zero leaves a slot in PENDING_CANCEL with empty channels |
| `ClientSafety.StrandedForGood` | trading/strategy/order_manager.h:99-101 | no event ever frees such a slot |
| `ZeroClips.StrandsExactly` | trading/strategy/order_manager.h:68-103 | with clips of at least a given size, a slot of the ticker can be stranded if and only if that size is zero and the limits let the ticker trade at all |
| `ZeroClips.NeverTrades` | trading/strategy/risk_manager.h:48-58 | with a position limit of 2^31 or more and an order limit below that, the ticker never has a position or an order in any run |
| `Positions.PositionInfo.AddFill` | trading/strategy/position_keeper.h:39-79 | the whole state after a fill, with 32-bit position arithmetic |
| `Positions.PositionInfo.UpdateBBO` | trading/strategy/position_keeper.h:82-104 | the whole state after a quote |
| `Positions.FillTotal` | trading/strategy/position_keeper.h:39-74 | total profit = cash + position * price + `Defect`, for every fill that keeps the position in range |
| `Positions.ExactIff` | trading/strategy/position_keeper.h:50-58 | for every fill that keeps the position in 32 bits: exact iff a condition on the inputs holds. Below 2^31 the flip test has the right sign, or it does not matter at price or cost zero; from 2^31 on only a coincidence of price and average cost makes it exact |
| `Positions.SafeFill` | trading/strategy/position_keeper.h:39-74 | within the guard every fill is exact and leaves the books consistent |
| `Positions.Ledger` | trading/strategy/position_keeper.h:39-104 | after any sequence of guarded fills and of quotes, across increase, reduce, flat and flip, the position is bought minus sold and total profit = cash + position * price, at the last fill price or the mid of a later two-sided quote |
| `Positions.PartsAndVolume` | trading/strategy/position_keeper.h:39-104 | after any entries at all, total profit is realised plus unrealised and the volume is all that was traded, modulo 2^32 |
| `Positions.QuoteLedger` | trading/strategy/position_keeper.h:82-98 | a two-sided quote marks the position at mid, any other quote leaves the mark, and the books stay consistent |
| `Positions.FalseFlip` | trading/strategy/position_keeper.h:54-57 | selling half of 65536 is taken for a flip, and total profit is off by 32768 |
| `Positions.NegativeCast` | trading/strategy/position_keeper.h:52-53 | a fill of 2^31 misses the ledger although the product does not overflow |
| `LFQueues.LFQueue.Write` | common/lf_queue.h:17-24 | appends to the queue; when it is full, replaces unread elements as the wrap-around dictates |
| `LFQueues.LFQueue.GetNextToRead` | common/lf_queue.h:26-28 | points at the oldest element, or nothing when empty |
| `LFQueues.LFQueue.UpdateReadIndex` | common/lf_queue.h:30-34 | removes the oldest element |
| `LFQueues.MarketDataPublisher.Drain` | exchange/market_data/market_data_publisher.cpp:18-40 | every queued update goes out on both feeds under the same consecutive number |
| `LFQueues.Relay` | exchange/market_data/market_data_publisher.cpp:18-40 | publisher and synthesizer in sequence: what the engine queued goes out numbered, the synthesizer reads the same numbers, and its tables follow the books |
| `RingProtocol.ReadsWhatWasWritten` | common/lf_queue.h:17-38 | under any interleaving, guarded by the capacity, the consumer's reads are the writes, whole and in order, and the count is never lowered at zero |
| `RingProtocol.FeedsCarryTheSame` | exchange/market_data/market_data_publisher.cpp:26-39 | with one spare slot, the copy made after `updateReadIndex` is the message that was sent |
| `RingProtocol.SpareSlotNeeded` | exchange/market_data/market_data_publisher.cpp:30-37 | without it, at every capacity, a run forwards another message under the same number |
| `Transport.DecodeEncode` | exchange/order_server/client_request.h:61-63 | a sequence number survives its bytes |
| `Transport.EncodeAt` | exchange/order_server/client_request.h:61-63 | the least significant byte comes first |
| `Transport.ChunksCutTheSame` | exchange/order_server/order_server.h:68-103 | frames cut from chunks are those cut from the whole |
| `Transport.TCPSocket.Send` | common/tcp_socket.cpp:151-165 | data goes behind what is pending, with compaction; fails exactly when both exceed the buffer |
| `Transport.TCPSocket.Flush` | common/tcp_socket.cpp:97-145 | taken bytes and pending bytes are what was pending; how many are taken and whether the socket closes follow the kernel's answers |
| `Transport.FlushExactly` | common/tcp_socket.cpp:97-145 | as much goes out as the kernel is ready to take before the first call that stops the sender, and the socket closes exactly on an error or empty send that is reached |
| `Transport.TCPSocket.TakeFrames` | exchange/order_server/order_server.h:68-103 | complete frames in order, the rest moved to the front |
| `OrderEntry.OrderServer.HandleFrame` | exchange/order_server/order_server.h:76-98 | binding to a socket, sequence check, hand-over to the sequencer; over all frames see `ServedExactly` |
| `OrderEntry.OrderServer.RecvCallback` | exchange/order_server/order_server.h:61-104 | all frames of a buffer; fails exactly when the sequencer overflows |
| `OrderEntry.OrderServer.SendResponses` | exchange/order_server/order_server.h:36-56 | responses leave on their client's socket under its next number; fails exactly when a client has no socket |
| `OrderEntry.OrderGateway.SendRequests` | trading/order_gw/order_gateway.cpp:53-73 | requests leave as consecutively numbered frames; fails exactly when the buffer overflows |
| `OrderEntry.OrderGateway.RecvCallback` | trading/order_gw/order_gateway.cpp:78-131 | responses for this client with the expected number, in order |
| `OrderEntry.ServeIsCheck` | exchange/order_server/order_server.h:76-94 | on one client's connection the server checks nothing but numbers and touches no other client |
| `OrderEntry.TakenIsCheck` | trading/order_gw/order_gateway.cpp:96-107 | so does the gateway |
| `OrderEntry.FrameArrives` | exchange/order_server/order_server.h:76-98 | a frame on its client's own socket is accepted by the server exactly when the sequencer's intake accepts it, and both keep the same next numbers |
| `OrderEntry.StrangerDropped` | exchange/order_server/order_server.h:80-85 | a frame on any other socket is dropped and changes nothing |
| `Sessions.ServedExactly` | exchange/order_server/order_server.h:76-98 | over every sequence of packets on any connections, a client's socket is that of its first packet, and of its packets exactly those on that socket are checked, by number alone, and passed on in order |
| `Sessions.BoundForGood` | exchange/order_server/order_server.h:76-78 | a client's socket is set once and never changes |
| `Sessions.BufferServed` | exchange/order_server/order_server.h:61-104 | serving buffers one by one is serving their packets in order |
| `Sessions.AcceptedIsBound` | exchange/order_server/order_server.h:45-46 | a client whose request was passed on has a socket, so that answering it does not trip the assertion |
| `Sessions.GatewayHears` | trading/order_gw/order_gateway.cpp:96-107 | a gateway takes all of its client's responses, in order and once, whatever other clients share the socket |
| `Connection.ExactlyOnce` | common/tcp_socket.cpp:97-165 | for any partial writes and chunks, accepted messages are a prefix of those sent, and all of them once nothing is in flight |
| `Connection.NoneRejected` | exchange/order_server/order_server.h:87-94 | no frame ever fails the sequence check |
| `Connection.StreamIsFlow` | trading/order_gw/order_gateway.cpp:53-73 | the bytes the gateway writes for all requests are those of the accepted ones followed by what is on its way |
| `Sequencers.SortByTime` | exchange/order_server/fifo_sequencer.h:38-38 | some permutation with ascending receive times |
| `Sequencers.FIFOSequencer.AddClientRequest` | exchange/order_server/fifo_sequencer.h:22-27 | appends; fails exactly when full |
| `Sequencers.FIFOSequencer.SequenceAndPublish` | exchange/order_server/fifo_sequencer.h:30-55 | publishes a time-ordered permutation of what waited, once |
| `Sequencers.ExactlyOnce` | exchange/order_server/order_server.h:87-111 | over all rounds, accepted = published + waiting, and each client's accepted numbers are 1 .. n |

## Left out

- Recovery.RecoverySafe: agreeing markers are sufficient and, by `LostStarts.DisagreeingButRight`, not necessary, since two spliced cycles may happen to list the same orders.
- MarketOrderBooks.MarketOrderBook.OnMarketUpdate: CLEAR is stated separately by `Clear`, and as part of a stream by `Replay`.
- Positions.FillTotal: exact reals instead of floating point, and no overflow of 64-bit price times quantity.
- Transport.TCPSocket.Flush: the kernel's answers are a parameter; running out of them stands for EAGAIN.
- Update in place and aliasing are modelled through pool indices, not machine addresses.
- Sockets, epoll, multicast membership, threads, CPU pinning: the network is a set of channels, threads are interleaved steps.
- Logging, printing, clocks, latency recording, benchmarks, scripts.
- The benchmark-only `unordered_map` book and `opt_mem_pool.h`, near copies of modelled code.
- `FeatureEngine` and the trading strategies, which only choose prices: strategy calls are arbitrary. RANDOM mode bypasses the order manager and is not covered by the client results.
- Struct layout beyond the sequence number and the client id: request and response bodies are opaque bytes.
- Liveness beyond `RecoveryCompletes`, and fairness of the network.
