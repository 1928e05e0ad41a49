# A verified model of a limit-order matching engine

The system keeps a limit order book, matches incoming orders against it by price and time,
recovers the book from stored rows after a crash, records order events in an append-only log with a
maintained snapshot table, writes trades in batches, retries failed writes and limits request rates.
This project models that behaviour and proves what holds over every run of it.

How the files fit together:

- `Orders`, `PriceLevels`, `OrderBooks`, `Engine` are the mutable objects: orders shared by book and
  caller, price levels with a FIFO queue and a cached volume, two trees of levels with an index by id,
  and the worker that takes commands. Loops, cursors and the short time in which a cached volume is
  out of date are kept as they are in the program.
- `PriceTime`, `Matching` define what they compute: the book of one side is the list of its orders by
  price and then arrival (`Flatten`), and matching is one greedy pass over that list (`Greedy`).
  `BookShape` is the invariant of trees, levels and index, stated on values.
- `Runs`, `RunInvariants`, `Priority`, `TradeReports` are the engine as a state machine over NEW and CANCEL
  commands, what every reachable state satisfies and what the trade records say.
- `Instruments` says what the engine does about instruments, `Recording` what the event log and its
  snapshot hold after a recorded run.
- `Rebuilding`, `RecoveryExamples`, `Recovery` are crash recovery; `OrderEvents`, `OrderEventStore` the
  event log with its snapshot; `EventReplay` the versioned replay; `TokenBuckets`, `RateLimiter` the rate
  limiter; `RetryQueues`, `EventRetryQueues` the retry queue; `TradeWrites`, `PostgresStores` the batch
  write.

Conventions: decimals and floats are `real`; the tree is a map from price to level with its best
element and its walks; a list element is named by the order object it holds; clocks, UUIDs, database
failures and cancellations are parameters.

Where a promise of the program does not hold for all inputs, the project keeps the code as it is, gives
an input on which it fails and proves the exact condition under which it holds:

- recovery gives the book back, for every order in which the database may return ties, exactly when the
  book holds only orders of the recovery manager's instrument, no partially filled market order of it is
  stored, and creation times follow queue order inside each level (`RestoresExactly`, with
  `ForeignExample`, `StrayExample` and `SwappedExample`); a market leftover passes validation
  (`StrayPassesValidation`), because the totals are summed over the same rows;
- orders of different instruments trade with each other (`CrossInstrumentTrade`); a run whose orders are
  all of one instrument trades only that one (`RunOfOne`);
- recovery validation of an empty book passes exactly when the rebuilt book is not crossed and the levels
  beyond the best 100 of a side hold no more than the tolerance (`RecoverOrderbook`, with
  `DeepBookFailsValidation`, a correct book of 101 levels);
- a rebuild gives the snapshot back at every moment of a run exactly when every accepted call creates its
  order first and once (`RunIsExact`, with `FillBeforeCreation` and `SecondCreation`); verification
  notices only some of the calls that do not (`VerificationNotices`);
- retrying can reorder calls and so break the snapshot (`OvertakenExample`, `DuplicateExample`); it never
  does when callers issue a call about an order only when its row is there, and a creation only when there
  is neither a row nor anything waiting for its id (`PatientKeepsProtocol`), and the waiting calls are
  harmless in every order exactly when creations wait only for ids without a row, and alone, and the rest
  is about orders with one (`FitsExactly`);
- a key passes at most its capacity plus what a window refills, in every history, exactly when an hour
  refills a bucket (`RateBoundExactly`, with `EarlyDropExceeds`), and dropping idle buckets changes no
  answer under the same condition (`CleanupInvisibleExactly`, with `EarlyDropNoticed`);
- `maxRetries` bounds the failed retries of an event, not counting the failed first write, exactly when it
  is at least 1 (`WithinMaxRetriesExactly`), and the program's own attempt counter, which counts that write,
  exactly when it is at least 2 (`WithinMaxAttemptsExactly`, both with `OneTryThenAside`);
- the retry loop of the trade store never repeats a batch, because its errors are wrapped and their code is
  not looked for inside (`PersistMultipleTrades`, with `DeadlockExample`); a single trade without orders is
  repeated after transient errors of the commit (`PersistTradeOnly`);
- de-duplicating a batch gives what list order gives, except exactly when an update that a later one
  replaces would have been refused and everything else is allowed (`BatchedExactly`, with
  `SupersededExample`);
- replay to a time covers exactly the events up to then if and only if version order agrees with time
  order about them (`UntilExactly`, with `UntilExample`).

## Model

| member | source | states |
|---|---|---|
| Orders.Order.Fill | models/order.go:126-135 | The filled quantity grows by the fill; the order is filled when nothing is left, partially filled when something between is, and keeps its status otherwise; nothing else of it changes. |
| Orders.Order.SetFilled | engine/orderbook.go:314-323 | The filled quantity becomes the given one, with the status rule of a fill; nothing else of the order changes. |
| PriceLevels.PriceLevel.AddOrder | engine/orderbook.go:28-32 | The queue gains the order at its end and the cached volume grows by what is left of it. |
| PriceLevels.PriceLevel.RemoveOrder | engine/orderbook.go:34-41 | The queue loses exactly that element, in place, and the cached volume shrinks by what is left of it. |
| PriceLevels.PriceLevel.UpdateVolume | engine/orderbook.go:43-49 | The cached volume becomes the sum over the queue. |
| PriceLevels.PriceLevel.Next | engine/matching_engine.go:676-677 | The successor of a linked element; an unlinked element has none. |
| PriceLevels.OrderBookSide.GetOrCreatePriceLevel | engine/orderbook.go:71-81 | The level of that price; a new one is empty and no other level changes. |
| PriceLevels.OrderBookSide.GetBestPrice | engine/orderbook.go:98-112 | The highest level for bids, the lowest for asks, none only on an empty side. |
| PriceLevels.OrderBookSide.Walk | engine/orderbook.go:115-122 | Every level once, in price order of the side. |
| PriceTime.Best | engine/orderbook.go:98-112 | The best price is in the tree and at least as good as every other price of it. |
| PriceTime.FlattenAdd | engine/orderbook.go:155-178 | Appending to the queue of a price is insertion by price and then arrival into the side's list. |
| PriceTime.FlattenRemove | engine/orderbook.go:222-252 | Unlinking an order, and dropping its level when it was the last, removes exactly its id from the list. |
| PriceTime.FlattenSetBest | engine/matching_engine.go:585-614 | The queue of the best level is a prefix of the list, and changing it changes that prefix only. |
| PriceTime.FlattenSums | engine/orderbook.go:421-443 | Total and length of the list are the totals of the levels walked from best to worst. |
| PriceTime.SumAnyOrder | engine/orderbook.go:421-443 | Volumes add up to the same total in either direction of the walk. |
| PriceTime.FlattenDistinct | engine/orderbook.go:130-152 | Ids that are unique in the levels are unique in the list. |
| PriceTime.LevelsOfList | engine/orderbook.go:60-112 | The levels and their queues can be read back from the list: equal lists are equal levels. |
| BookShape.AppendOk | engine/orderbook.go:155-178 | Linking an order keeps levels, volumes and index consistent and changes the queue of its price only. |
| BookShape.AppendOkExactly | engine/orderbook.go:155-178 | Adding an order to a consistent book leaves it consistent exactly when its id is new and it is an open limit order with something left; a repeated id orphans an order. |
| BookShape.UnlinkOk | engine/orderbook.go:222-252 | Unlinking an order keeps levels, volumes and index consistent, with no empty level left. |
| BookShape.RefillOk | engine/matching_engine.go:715-716 | Filling a linked order object leaves everything consistent except its own level's cached volume. |
| BookShape.RevolumeOk | engine/orderbook.go:307-328 | Recomputing that volume repairs it. |
| BookShape.SettleOk | engine/matching_engine.go:792-793 | A linked order that is resting again after a fill leaves the book fully consistent. |
| BookShape.PopOk | engine/orderbook.go:376-403 | Removing a whole level with its index entries keeps the rest consistent. |
| OrderBooks.ListedIsIndexed | engine/orderbook.go:130-152 | Every order in a queue is the element of the index entry of its id. |
| OrderBooks.IndexedIsListed | engine/orderbook.go:294-304 | Every index entry names an order in the queue of its own side and price. |
| OrderBooks.IndexCounts | engine/orderbook.go:489-521 | Bid depth plus ask depth is the number of index entries. |
| OrderBooks.OrderBook.AddOrder | engine/orderbook.go:155-178 | A new resting order is inserted into its side's list by price and arrival; the other side is unchanged. |
| OrderBooks.OrderBook.RemoveOrder | engine/orderbook.go:222-252 | The named order, if any, leaves list, index and level; an unknown id changes nothing. |
| OrderBooks.OrderBook.CancelOrder | engine/orderbook.go:257-291 | As removal, and the order is marked cancelled; an unknown id changes nothing. |
| OrderBooks.OrderBook.GetBest | engine/orderbook.go:331-342 | The level of the best price of the side, none only when the side's list is empty. |
| OrderBooks.OrderBook.FillResting | engine/matching_engine.go:715-716 | Filling a resting order through the shared object shows in the list at once, and only the cached volume lags. |
| OrderBooks.OrderBook.UpdateOrder | engine/orderbook.go:307-328 | The named order gets the filled quantity and its level the right volume; an unknown id changes nothing. |
| OrderBooks.OrderBook.PopBestLevel | engine/orderbook.go:376-403 | The best level is returned and its orders, no others, leave the list and the index. |
| OrderBooks.OrderBook.Clear | engine/orderbook.go:479-486 | Both lists and the index are empty. |
| OrderBooks.OrderBook.GetDepth | engine/orderbook.go:421-443 | The returned volumes are the sums of what is left of the orders in each list. |
| OrderBooks.OrderBook.SideDepth | engine/orderbook.go:496-521 | The number of orders in the side's list. |
| OrderBooks.OrderBook.TopLevels | engine/orderbook.go:446-476 | The levels of the best prices of the side, in price order, at most the given number. |
| OrderBooks.OrderBook.Size | engine/orderbook.go:489-493 | The number of orders in both lists together. |
| Matching.GreedySplits | engine/matching_engine.go:665-817 | Greedy matching consumes a prefix of the list completely, leaves a suffix with at most its head reduced, and names one consumed or reduced order per trade. |
| Matching.GreedyAggressor | models/order.go:126-135 | The aggressor gains exactly the traded volume and gets the status that says how far it got. |
| Matching.GreedyIdentity | engine/matching_engine.go:665-817 | Nothing else of the aggressor changes. |
| Matching.GreedyExhausts | engine/matching_engine.go:585-659 | Matching stops only when the aggressor is filled, the list is empty or its head does not cross. |
| Matching.GreedyMaximal | engine/matching_engine.go:581-662 | The traded volume is the smaller of what the order wants and the total liquidity that crosses. |
| Engine.MatchingEngine.FillBoth | engine/matching_engine.go:696-716 | One trade at the resting order's price for the smaller remaining quantity, and both order objects filled by it. |
| Engine.MatchingEngine.Reconcile | engine/matching_engine.go:792-792 | The book catches up with the fill: the level's volume is right again. |
| Engine.MatchingEngine.DropIfFilled | engine/matching_engine.go:794-808 | A filled front order leaves the book, with its level if it was the last; otherwise the book is unchanged. |
| Engine.MatchingEngine.MatchFront | engine/matching_engine.go:676-812 | One round of the inner loop is one step of the greedy pass. |
| Engine.MatchingEngine.MatchAgainstPriceLevel | engine/matching_engine.go:665-817 | The inner loop ends, with its saved cursor valid through unlinking, and does the greedy pass over the best level. |
| Engine.MatchingEngine.MatchMarketOrder | engine/matching_engine.go:581-617 | The outer loop ends; trades, opposing list and order are those of the greedy pass over the whole side. |
| Engine.MatchingEngine.MatchLimitOrder | engine/matching_engine.go:620-662 | The outer loop ends; trades, opposing list and order are those of the greedy pass cut at the limit. |
| Engine.MatchingEngine.RestRemainder | engine/matching_engine.go:512-513 | A limit order with something left enters its side's list at its place; any other order leaves the book as it is. |
| Engine.MatchingEngine.MatchOrder | engine/matching_engine.go:497-578 | The engine takes the step of a NEW command; an invalid order is rejected and changes nothing else. |
| Engine.MatchingEngine.CancelCommand | engine/matching_engine.go:375-398 | The engine takes the step of a CANCEL command, found or not. |
| Engine.MatchingEngine.ProcessCommand | engine/matching_engine.go:335-413 | The engine takes the step of any command; the response fits the command, carries exactly the trades that the log gains, and says not found exactly for an unknown id. |
| Engine.MatchingEngine.ProcessAll | engine/matching_engine.go:300-332 | Handling the channel's commands one by one is the run of the state machine, also when ids of finished orders come back; each gets a fitting response, and their trades together are what the log gains. |
| Runs.InsertOrdered | engine/orderbook.go:28-32 | A newly arrived order inserted behind its price keeps the list in price-time order. |
| Runs.OnePlaceApart | engine/orderbook.go:130-152 | No accepted order is in two places, or twice in one. |
| Runs.GreedyFills | engine/matching_engine.go:715-716 | On the side it matches against, matching fills exactly the traded volume. |
| Runs.SplitQuantity | engine/matching_engine.go:665-817 | Matching neither creates nor loses order quantity. |
| RunInvariants.MatchFacts | engine/matching_engine.go:497-578 | An arriving order consumes a prefix of the opposing list, reduces at most the next order, gains exactly the traded volume, and what is left of it crosses nothing. |
| RunInvariants.SettledFacts | engine/matching_engine.go:581-617 | An aggressor rests exactly when it is a limit order with something left; otherwise its status is final. |
| RunInvariants.AcceptInv | engine/matching_engine.go:497-578 | A NEW command keeps the whole invariant: price-time order, no crossing, one place per order, fills equal to logged trades, totals. |
| RunInvariants.CancelInv | engine/orderbook.go:257-291 | A CANCEL command keeps it. |
| RunInvariants.RunInv | engine/matching_engine.go:300-320 | Every run keeps it. |
| RunInvariants.Reachable | engine/matching_engine.go:146-157 | Every run from the empty book reaches only states that satisfy it. |
| RunInvariants.Conservation | engine/matching_engine.go:335-413 | Over every run and for each side, accepted quantity is traded plus resting plus cancelled remainder plus unfilled market remainder. |
| Priority.NoBypass | engine/matching_engine.go:620-713 | If a command trades with a resting order, everything ahead of it by price or arrival was completely filled by the same command, before. |
| Priority.ExecutionPrices | engine/matching_engine.go:691-713 | The i-th trade is with the i-th resting order, at its price, names buyer, seller and the aggressor's instrument, and has a positive quantity; no limit buy pays more than its price, no limit sell gets less, and prices only get worse for the aggressor. |
| Priority.MaximalFill | engine/matching_engine.go:585-659 | A command fills its order by exactly the smaller of what it asks for and the total left of the resting orders at its limit or better, all of them for a market order. |
| Priority.MarketOutcome | engine/matching_engine.go:581-617 | A market order never rests, is left unfilled only by an empty opposing side, and is rejected exactly when nothing traded. |
| Priority.LimitOutcome | engine/matching_engine.go:512-513 | A limit order rests exactly when something of it is left, and is filled otherwise. |
| Priority.RejectsExactly | models/order.go:71-103 | A NEW command changes nothing exactly when client or instrument is empty, side or type is unknown, the quantity is not positive, a limit price is not positive, or more is filled than ordered. |
| Priority.BookHoldsRestingOrders | engine/orderbook.go:155-178 | In every reachable state each side holds only its own open or partially filled limit orders with something left, in price-time order. |
| Priority.NeverCrossed | engine/matching_engine.go:620-662 | In every reachable state the best bid is below the best ask. |
| Priority.FillsMatchTrades | models/order.go:106-135 | In every reachable state each order's filled quantity is the sum of the logged trades that name it, within its quantity, and bought equals sold equals traded volume. |
| TradeReports.GreedyReports | engine/matching_engine.go:718-728 | In one match each trade record carries, for either party, the quantity filled so far, what is left, and whether that is a partial fill. |
| TradeReports.TradesReportFills | engine/matching_engine.go:718-728 | In every run the quantities a trade record states for an order are the sum of that order's trades up to and including it and the rest of its quantity, and its partial flag is set exactly when both are positive. |
| Instruments.RunOfOne | engine/matching_engine.go:497-578 | A run whose valid orders are all of one instrument keeps and trades only that instrument. |
| Instruments.OneInstrumentRestores | engine/recovery_manager.go:197-212 | After such a run the recovery manager of that instrument restores the book exactly when no leftover is stored and creation follows queue order. |
| Recording.MatchShown | db/order_events_schema.sql:151-201 | Recording both fills of every trade of a match leaves rows that show the aggressor, the consumed and the remaining orders, and no other row changed. |
| Recording.AcceptRecorded | db/order_events_schema.sql:98-281 | Recording a NEW command, its fills and its rejection keeps a row for exactly the accepted orders, each with its latest values. |
| Recording.RunRecorded | db/order_events_schema.sql:83-281 | So does recording any run, command by command. |
| Recording.SnapshotIsTable | engine/recovery_manager.go:197-212 | After a recorded run from nothing, the snapshot table that recovery reads has a row for exactly the accepted orders, with their latest values, and could be rebuilt from the events. |
| Rebuilding.RebuiltElements | engine/recovery_manager.go:146-161 | Rebuilding a side keeps exactly the rows of that side. |
| Rebuilding.RebuiltSorted | engine/recovery_manager.go:197-212 | Rows read by creation time end up sorted by price and then creation. |
| Rebuilding.StraysSelected | engine/recovery_manager.go:197-212 | Of the orders no longer in the book the query selects exactly the partially filled market orders of the manager's instrument. |
| Rebuilding.SameIfReloaded | engine/recovery_manager.go:296-307 | Reloading loses the client id and the type and nothing else: two lists reload to the same exactly when id, instrument, side, price, quantity, filled quantity, status and creation time agree order by order. |
| Rebuilding.RoundTrip | engine/recovery_manager.go:146-161 | Re-adding the selected rows of any reachable book gives the same lists, if the book is of the manager's instrument, no market leftover of it is stored and creation follows queue order. |
| Rebuilding.ForeignBreaks | engine/recovery_manager.go:208-210 | An order of another instrument in the book makes every rebuilt book differ. |
| Rebuilding.StraysBreak | engine/recovery_manager.go:300-300 | A stored partially filled market order of the manager's instrument makes every rebuilt book differ, even up to what reloading loses. |
| Rebuilding.OutOfOrderSide | engine/recovery_manager.go:197-212 | Creation times against queue order give a query result whose reloaded side differs. |
| Rebuilding.RestoresExactly | engine/recovery_manager.go:95-191 | For every query result the reloaded lists agree with the reachable book order by order, in every field except client id and type, if and only if the book is of the manager's instrument, no market leftover of it is stored and creation follows queue order in each level. |
| RecoveryExamples.StrayExample | engine/matching_engine.go:598-599 | A two-command run after which recovery adds a market leftover to the book. |
| RecoveryExamples.SwappedExample | engine/recovery_manager.go:197-212 | A two-command run after which recovery swaps two asks of one price. |
| RecoveryExamples.ForeignExample | engine/recovery_manager.go:208-210 | A resting order that the recovery manager of its instrument restores and that of another does not. |
| RecoveryExamples.ForeignLeftover | engine/recovery_manager.go:208-210 | The leftover of the stray run does no harm to another instrument. |
| RecoveryExamples.CrossInstrumentTrade | engine/matching_engine.go:708-713 | A market buy of one instrument takes an ask of another, and the trade names the buyer's. |
| RecoveryExamples.StrayPassesValidation | engine/recovery_manager.go:466-479 | After the first run recovery builds a wrong book and validation passes. |
| RecoveryExamples.DeepBookFailsValidation | engine/recovery_manager.go:320-352 | Rows of 101 asks at different prices are rebuilt correctly and validation fails. |
| Recovery.RebuildBook | engine/recovery_manager.go:146-161 | The loop leaves a consistent book whose lists are those before with the reloaded rows inserted, each side by price and then row order; every row is in its side's list with its own id, instrument, price, quantity, filled quantity, status and creation time, as a limit order. |
| Recovery.AddedToNothing | engine/recovery_manager.go:146-161 | Into an empty book that gives exactly the reloaded lists of the rebuilt sides. |
| Recovery.CaptureSide | engine/recovery_manager.go:320-352 | Level count and volume over the best 100 levels of the side, and its best price. |
| Recovery.ValidateVolume | engine/recovery_manager.go:357-398 | A mismatch is reported exactly when stored and recovered volume differ by more than 0.00000001. |
| Recovery.ValidateRecovery | engine/recovery_manager.go:401-536 | Validation passes exactly when none of the checks finds anything, and each finding is reported exactly when its condition holds. |
| Recovery.CapturedVolume | engine/recovery_manager.go:320-352 | The captured volume falls short of the side's volume by exactly the levels beyond the best 100. |
| Recovery.RecoveredVolume | engine/recovery_manager.go:548-579 | Adding the rows to a side adds exactly the volume that the database sums over them. |
| Recovery.RecoverOrderbook | engine/recovery_manager.go:95-191 | Rebuild, capture and validate, into any book: validation passes exactly when the book is not crossed, is empty if there were no rows, and the volume there before differs from what lies beyond 100 levels by no more than the tolerance; captured plus overlooked volume is the volume before plus the stored volume. |
| Recovery.NothingOverlooked | engine/recovery_manager.go:320-352 | With at most 100 levels on a side nothing is overlooked. |
| Recovery.ReachableNotCrossed | engine/recovery_manager.go:447-463 | A reachable book that recovery gives back is not crossed. |
| Recovery.RecoverReachable | engine/recovery_manager.go:95-191 | Recovery of any reachable book that can be restored, with at most 100 levels a side, passes every check and gives its lists back, order by order in every field except client id and type. |
| Recovery.ReachableRows | engine/recovery_manager.go:194-317 | The rows of any reachable book, market leftovers included, meet what rebuilding needs. |
| Recovery.ReloadedLevels | engine/orderbook.go:60-112 | Lists are equal up to reloading exactly when levels and queues are. |
| Recovery.SameLevels | engine/orderbook.go:60-112 | Lists agree field by field exactly when the levels are the same and their queues agree field by field. |
| Recovery.SameBookExactly | engine/orderbook.go:130-152 | Two consistent books agree in levels, queued orders field by field, cached volumes and index exactly when their lists agree field by field. |
| Recovery.RecoveredBookExactly | engine/recovery_manager.go:146-161 | The recovered book has the live book's levels, queued orders, volumes and index, field by field, exactly when the rows give its lists back. |
| OrderEvents.StepConsistent | db/order_events_schema.sql:98-281 | A recorded call that follows the protocol, or is refused, keeps every order's row equal to its replayed events, with gapless sequence numbers. |
| OrderEvents.RunConsistent | db/order_events_schema.sql:83-281 | So does every interleaved run of calls over all orders. |
| OrderEvents.RebuildIsIdentity | db/order_events_schema.sql:368-467 | In a consistent store verification reports nothing and a rebuild gives every row back, last sequence included. |
| OrderEvents.RunGapless | db/order_events_schema.sql:83-95 | In every run, in protocol or not, the events of an order are numbered 1, 2, 3 and so on. |
| OrderEvents.SequenceIsAppendOrder | db/order_events_schema.sql:314-319 | Without gaps, reading events by sequence number is reading them as they were appended. |
| OrderEvents.ProtocolIsExact | db/order_events_schema.sql:98-148 | After one more accepted call a rebuild still gives the snapshot back if and only if the call creates an order first and once. |
| OrderEvents.RunIsExact | db/order_events_schema.sql:83-413 | Over every run a rebuild gives the snapshot back at every moment if and only if every accepted call follows the protocol. |
| OrderEvents.FirstRunIsExact | db/order_events_schema.sql:83-413 | The same from empty tables, where numbering is gapless too. |
| OrderEvents.FillBeforeCreation | db/order_events_schema.sql:151-201 | A fill recorded before its order is accepted and leaves a log that cannot be rebuilt. |
| OrderEvents.SecondCreation | db/order_events_schema.sql:132-144 | A second creation is accepted, changes what a rebuild gives, and is not reported by verification. |
| OrderEvents.VerificationNotices | db/order_events_schema.sql:445-467 | Of the accepted calls out of protocol verification notices exactly the second creation of an order that is no longer open. |
| OrderEvents.ReplayReproducesMemory | db/order_events_schema.sql:288-365 | For any sequence of fills and cancellations, recorded at any times between calls of other orders, replay yields the in-memory order's filled quantity, status and details. |
| OrderEvents.CreationMirrored | db/order_events_schema.sql:98-148 | Recording a new order starts that correspondence. |
| OrderEvents.AcceptsExactly | db/order_events_schema.sql:35-57 | On a consistent store a creation is accepted exactly with a known side and type, a positive quantity and a price that is not negative, a fill exactly when it fits the quantity of its row, and every other call. |
| OrderEvents.RowsSayCalls | db/order_events_schema.sql:98-281 | In every run in protocol the row of an order shows the details of its creation, the cumulative quantity of its last accepted fill, and the status, time and number of calls that its accepted calls imply. |
| OrderEventStore.EventTables.GetNextSequenceNumber | db/order_events_schema.sql:83-95 | One more than the largest sequence number of the order, 1 for an unknown order. |
| OrderEventStore.EventTables.RecordOrderCreated | db/order_events_schema.sql:98-148 | The tables take the step of the call: exactly the event of this creation is appended, the row inserted unless it exists, nothing if a constraint fails, also for a row that exists. |
| OrderEventStore.EventTables.RecordOrderFill | db/order_events_schema.sql:151-201 | The tables take the step of the call: exactly the event of this fill is appended, or nothing if it is refused. |
| OrderEventStore.EventTables.RecordOrderCancelled | db/order_events_schema.sql:204-241 | The tables take the step of the call, and exactly the event of this cancellation is appended. |
| OrderEventStore.EventTables.RecordOrderRejected | db/order_events_schema.sql:244-281 | The tables take the step of the call, and exactly the event of this rejection is appended. |
| OrderEventStore.EventTables.ReplayOrderState | db/order_events_schema.sql:288-365 | The loop yields the replay of exactly the order's events by sequence number, which is the order of appending. |
| OrderEventStore.EventTables.RebuildOrdersSnapshot | db/order_events_schema.sql:368-413 | The snapshot becomes the replayed rows of all logged orders, or stays as it was if one of them cannot be inserted. |
| OrderEventStore.EventTables.VerifySnapshotConsistency | db/order_events_schema.sql:445-467 | Exactly the orders whose row disagrees with replay in status or filled quantity. |
| EventReplay.LoadSorted | eventsourcing/store.go:89-124 | An order's events come back in strictly increasing version order, in whatever order they were written. |
| EventReplay.LoadSince | eventsourcing/store.go:127-161 | The events since a version are the later part of all events. |
| EventReplay.ReplaySplits | eventsourcing/replay.go:49-66 | Replaying to any version and then applying the events since equals the full replay. |
| EventReplay.UpToMembers | eventsourcing/replay.go:49-66 | Replay to a version covers exactly the events whose version is not larger. |
| EventReplay.UntilExactly | eventsourcing/replay.go:69-86 | Stopping at the first later event covers exactly the events up to the time if and only if version order agrees with time order about them. |
| EventReplay.UntilExample | eventsourcing/replay.go:78-83 | An order's own log on which the replay to a time shows nothing although the order is cancelled by then. |
| EventReplay.QuantityExactly | eventsourcing/replay.go:112-155 | Filled plus remaining is the original quantity after every event if and only if every partial fill states the placed quantity less the fills since, and every complete fill the placed quantity. |
| EventReplay.AverageStep | eventsourcing/replay.go:142-146 | One partial fill extends average times filled by price times quantity if and only if something is filled afterwards or there is nothing to average. |
| EventReplay.AverageIsWeighted | eventsourcing/replay.go:135-154 | Over any log without negative fills average price times filled quantity is the sum of price times quantity, or what a complete fill states. |
| EventReplay.TermsShown | eventsourcing/replay.go:114-128 | After any log that places the order, id, client, instrument, side, type, price, time in force, original quantity and creation time are those of its last placement. |
| EventReplay.StatusShown | eventsourcing/replay.go:112-155 | Version, update time and status are those of the last event that is not foreign, and each status arises from its own kind of event only. |
| EventReplay.OnlyFillsCount | eventsourcing/replay.go:112-155 | Only fills change the average price, and only fills and placements the quantities. |
| EventReplay.NothingShown | eventsourcing/replay.go:112-155 | Foreign events alone leave the state blank. |
| EventReplay.OrderState.ApplyEvent | eventsourcing/replay.go:112-155 | The object's fields take the step of the event; foreign events change nothing. |
| EventReplay.ReplayOrder | eventsourcing/replay.go:26-46 | The state of the full replay; none exactly when the order has no events. |
| EventReplay.ReplayOrderToVersion | eventsourcing/replay.go:49-66 | The state from which the events since the version lead to the full replay. |
| EventReplay.ReplayOrderToTimestamp | eventsourcing/replay.go:69-86 | The state of the events up to the time, when version order agrees with time order about them. |
| TokenBuckets.RunSound | ratelimit/ratelimiter.go:276-301 | Over every history each bucket holds between 0 and its capacity. |
| TokenBuckets.RateBound | ratelimit/ratelimiter.go:276-314 | In every history and every window, whatever other keys do, a key passes at most its capacity, what the window refills, and what cleanups inside the window give to it by dropping its bucket before it is full. |
| TokenBuckets.GivenBounds | ratelimit/ratelimiter.go:384-395 | A cleanup gives at most a full bucket, and nothing if an hour refills one. |
| TokenBuckets.EarlyDropExceeds | ratelimit/ratelimiter.go:384-395 | If an hour does not refill a bucket, a history passes twice the capacity in a window that refills less than it. |
| TokenBuckets.RateBoundExactly | ratelimit/ratelimiter.go:276-314 | Every key passes at most its capacity plus what the window refills, in every window of every history, if and only if an hour refills a bucket. |
| TokenBuckets.CleanupUnnoticed | ratelimit/ratelimiter.go:384-395 | If an hour refills a bucket, every history gets the same answers as without its cleanups. |
| TokenBuckets.EarlyDropNoticed | ratelimit/ratelimiter.go:384-395 | If it does not, a drained bucket that is dropped passes a burst that the kept bucket refuses. |
| TokenBuckets.CleanupInvisibleExactly | ratelimit/ratelimiter.go:384-395 | Cleanups change no answer of any history if and only if an hour refills a bucket. |
| TokenBuckets.RetryAfterSuffices | ratelimit/ratelimiter.go:304-311 | A refused client that waits the announced seconds is allowed, whatever other keys do and whenever buckets are dropped meanwhile, despite both truncations. |
| TokenBuckets.NanosExact | ratelimit/ratelimiter.go:304-311 | The wait in the result is the time until one token is there, rounded down to whole nanoseconds. |
| TokenBuckets.RetryAfterTight | ratelimit/middleware.go:162-168 | The announced seconds exceed the time until one token is there by at most one second, and a client that comes back more than a second early is refused, whatever other keys do, unless a cleanup drops its bucket. |
| TokenBuckets.RedisScriptIsStep | ratelimit/ratelimiter.go:173-214 | A call of the Redis script, on a key that may have expired, is a cleanup and a request of the same history with the rate per millisecond: the same stored bucket and the same answer. |
| TokenBuckets.RedisCallsAreHistory | ratelimit/ratelimiter.go:168-273 | Any sequence of script calls over any keys gets the answers of a history. |
| TokenBuckets.RedisRateBound | ratelimit/ratelimiter.go:168-273 | So keys limited in Redis pass at most their capacity plus the configured tokens per interval over the window, if 3600000 milliseconds refill a bucket. |
| RateLimiter.TokenBucketLimiter.constructor | ratelimit/ratelimiter.go:64-85 | Zero settings get their defaults of 100 tokens, 10 per second, so that a bucket holds at least one token and earns at the configured rate; buckets idle for an hour are dropped. |
| RateLimiter.TokenBucketLimiter.GetOrCreate | ratelimit/ratelimiter.go:351-368 | The key's bucket; a new one is full, and no other bucket changes. |
| RateLimiter.TokenBucketLimiter.AllowInMemory | ratelimit/ratelimiter.go:276-314 | The store takes the request's step; the result gives the answer, what was found, what is left and the wait for one token in whole nanoseconds. |
| RateLimiter.TokenBucketLimiter.CleanUp | ratelimit/ratelimiter.go:384-395 | Exactly the buckets idle for more than 3600 seconds are dropped. |
| RateLimiter.RetryAfterHeader | ratelimit/middleware.go:162-168 | After the announced seconds the client is allowed, and more than a second earlier it is not, as Retry-After of section 10.2.3 of RFC 9110 with status 429 of section 4 of RFC 6585 lets it expect. |
| RetryQueues.NothingLost | persistence/retry_queue.go:186-294 | Under every interleaving and failure pattern, the events written directly or submitted are, as a multiset, persisted plus queued plus in flight plus failed, and the tables are what the persisted calls make of them. |
| RetryQueues.RunTriesBounded | persistence/retry_queue.go:238-256 | In every run no event fails more than max(1, maxRetries) retries in a row before it is put aside, and the queue keeps its size. |
| RetryQueues.OneTryThenAside | persistence/retry_queue.go:238-245 | With maxRetries of at most 2 an event whose first write and only retry fail is put aside with two attempts counted. |
| RetryQueues.WithinMaxRetriesExactly | persistence/retry_queue.go:238-256 | Not counting the failed first write, the failed retries of every event in the failed list are at most maxRetries in all runs if and only if maxRetries is at least 1. |
| RetryQueues.WithinMaxAttemptsExactly | persistence/retry_queue.go:88-105 | Counting it, as the program does, the attempts of every event in the failed list are at most maxRetries in all runs if and only if maxRetries is at least 2. |
| RetryQueues.RetriesGranted | persistence/retry_queue.go:238-256 | An event alone in the queue whose every write fails is back in the queue after each failed retry, with its attempts counted, until maxRetries attempts are made, and only then put aside. |
| RetryQueues.RetriesGrantedAgain | persistence/retry_queue.go:264-287 | An event alone among those put aside gets maxRetries more retries after the periodic retry before it is put aside again. |
| RetryQueues.FirstInFirstOut | persistence/retry_queue.go:197-199 | Events that are queued while the database is down and accepted afterwards are persisted in the order of their submission. |
| RetryQueues.PatientKeepsProtocol | persistence/retry_queue.go:344-388 | If callers issue a call about an order only when its row is there, and a creation only when there is neither a row nor anything waiting for its id, then under every interleaving and failure pattern all calls get through in protocol and the snapshot could be rebuilt at every moment. |
| RetryQueues.FitsExactly | persistence/retry_queue.go:186-287 | Whatever gets through of the waiting calls, in whatever order, is in protocol if and only if creations wait only for ids without a row, and alone, and everything else is about orders with one. |
| RetryQueues.DirectExactly | persistence/retry_queue.go:344-388 | A direct write that gets through keeps the snapshot rebuildable exactly when it is about an order with a row, or creates one without. |
| RetryQueues.RetryExactly | persistence/retry_queue.go:197-199 | So does the retry of the first queued call. |
| RetryQueues.OvertakenCreation | persistence/retry_queue.go:354-368 | Whatever is waiting to be retried, a direct write about an order without a row leaves a log that cannot be rebuilt. |
| RetryQueues.OvertakenExample | persistence/retry_queue.go:344-368 | A queued creation overtaken by a direct fill: all events are persisted in the end and the snapshot is wrong. |
| RetryQueues.DuplicateExample | persistence/retry_queue.go:344-351 | An order created directly while its creation is waiting is created twice, and the snapshot is wrong. |
| EventRetryQueues.EventRetryQueue.QueueEvent | persistence/retry_queue.go:88-183 | Submitting is the run of a submission and, if the queue is full, its recording as failed. |
| EventRetryQueues.EventRetryQueue.RecordOrQueue | persistence/retry_queue.go:344-388 | A write that succeeds is a direct write; one that fails is submitted. |
| EventRetryQueues.EventRetryQueue.ProcessNext | persistence/retry_queue.go:197-199 | Handling the first queued event is the run of dequeueing, trying and, after a failure, returning or giving up. |
| EventRetryQueues.EventRetryQueue.RetryEvent | persistence/retry_queue.go:208-261 | One try: the event is persisted exactly when the write works, requeued at the end with one more attempt exactly when it fails with attempts and room left, and recorded as failed otherwise. |
| EventRetryQueues.EventRetryQueue.RetryFailedEvents | persistence/retry_queue.go:264-287 | The oldest failed events move to the queue with their attempts reset as long as there is room; the others stay failed, in order. |
| TradeWrites.ListOrderLeavesLatest | persistence/postgres.go:296-331 | Applying all updates in list order succeeds exactly when each is allowed and leaves the last update of every order. |
| TradeWrites.BatchedExactly | persistence/postgres.go:296-331 | The de-duplicated transaction equals list order, except exactly when a replaced update would have been refused and everything else is allowed. |
| TradeWrites.SupersededExample | persistence/postgres.go:314-318 | A batch that commits although list order would fail. |
| TradeWrites.BatchSucceedsExactly | persistence/postgres.go:296-331 | A batch commits exactly when every trade has a positive price and quantity and the last update of every order names a stored order and fits its quantity. |
| TradeWrites.BatchedOrders | persistence/postgres.go:296-331 | A committed batch leaves each updated order with the filled quantity and status of its last update, and every other order as it was. |
| TradeWrites.MissingOrderFails | persistence/postgres.go:197-226 | A batch that names a missing order fails in either form. |
| TradeWrites.InsertAllOutcome | persistence/postgres.go:157-194 | Inserting keeps every stored trade, adds only trades of the batch, and succeeds exactly when every trade is allowed. |
| TradeWrites.InsertedFirst | persistence/postgres.go:157-194 | Of several trades of one new id the first is the one stored. |
| TradeWrites.RerunChangesNothing | persistence/postgres.go:157-194 | Running a committed batch again succeeds and changes nothing. |
| PostgresStores.Deduplicate | persistence/postgres.go:314-318 | The map holds, for every updated order, its last update. |
| PostgresStores.UpdateOrders | persistence/postgres.go:320-324 | For every iteration order of the map: all updates applied, or a failure exactly when one is not allowed. |
| PostgresStores.InsertTrades | persistence/postgres.go:307-312 | The trades inserted in list order; a failure exactly when one violates a constraint. |
| PostgresStores.Classified | persistence/postgres.go:263-286 | An error that wraps one of the driver is never retryable, whatever its code. |
| PostgresStores.RetryableCodes | persistence/postgres.go:263-286 | A bare driver error is retryable exactly for the codes 40001, 40P01, 08000, 08003, 08006 and 57P03. |
| PostgresStores.DeadlockExample | persistence/postgres.go:263-286 | A deadlock is retryable bare and not retryable wrapped. |
| PostgresStores.PostgresStore.RunTx | persistence/postgres.go:296-331 | All of the batch or nothing, except that a commit that breaks may have happened; the error is retryable exactly when a transient error of the commit is passed on bare. |
| PostgresStores.PostgresStore.ExecuteWithRetry | persistence/postgres.go:229-260 | Whatever the connection does, even when a commit is reported as a failure and run again, the tables hold the old contents or the batch once; success means the batch, and comes exactly when some attempt within the limit works, every one before it is repeated and no wait is cancelled. |
| PostgresStores.PostgresStore.PersistMultipleTrades | persistence/postgres.go:289-331 | At most one attempt is made; success comes exactly when it works on an allowed batch, and then the tables hold the batch. |
| PostgresStores.PostgresStore.PersistTradeOnly | persistence/postgres.go:76-106 | The trade is written at most once and orders never; transient errors of the commit are retried. |

## Left out

- HTTP handlers, router, WebSocket hub, logging, metrics, profiling and load tests: plumbing without state of their own.
- validation/ and cache/: per-field checks, each settled by one branch, and thin wrappers over Redis.
- Debug records, event publication and trade handlers of the matcher: they do not affect the book.
- `SubmitOrder` around `Stop` or cancellation: only accepted commands are modelled; a command posted after the drain is never answered.
- `AddLimitOrder`: repeats `AddOrder` with argument checks and may cross the book; the engine does not call it.
- engine/batch_processor.go and engine/snapshot_manager.go: no exactly-once or round-trip claim can be made for them; recovery is modelled without a snapshot.
- OrderBooks.OrderBook.AddOrder: takes a resting order of an id that is not in the book; `AppendOkExactly` says what any other order does to it.
- Engine.MatchingEngine.MatchOrder: a new order must not have the id of an order that is resting, because that would orphan a list element, and must be an object that was not processed before; ids of finished orders may come back. `updated_at` and the running clock are not modelled.
- Engine.MatchingEngine.ProcessCommand: the same of its order.
- Engine.MatchingEngine.ProcessAll: the same of each order when its turn comes.
- RunInvariants.Reachable: new orders are open, unfilled and of an id never used before, as the API handler creates them.
- Rebuilding.RestoresExactly: equality is up to the client id, which is not reloaded, and the type, which is always reloaded as limit.
- Recovery.RebuildBook: the rows have ids that are not in the book yet, open status and something left, as the rows of every reachable table do in an empty book (`ReachableRows`).
- Recovery.RecoverOrderbook: takes the rows that the query returned and does not round to the column type NUMERIC(20, 8); the dry-run option, which rebuilds into a temporary book, and the printed diffs are not modelled.
- OrderEventStore.EventTables.ReplayOrderState: trade ids and other metadata of events are left out; the replay record starts with its declared initial values and fields unset until an ORDER_CREATED event are absent values.
- TokenBuckets.RateBound: floats are reals, requests are served one at a time and the clock never goes back; in the program each lookup returns a wrapper with a lock of its own, so concurrent requests of one key are not serialised.
- TokenBuckets.RedisScriptIsStep: the server's clock is the caller's; the conversion of replies, the fallback on Redis errors, the halved limits of the conservative fallback and whitelisted keys, which bypass the buckets, are not modelled.
- Recording.SnapshotIsTable: nothing in the program itself records the engine's steps; the theorem says what the snapshot holds if they are recorded. Prices must not be negative, which the engine does not ask of market orders and the table does.
- RetryQueues.RetriesGranted: follows one event through an otherwise idle queue; `RetryEvent` says what one try does in any queue.
- RetryQueues.RetriesGrantedAgain: the same of one event put aside; `RetryFailedEvents` says what the periodic retry does to any list.
- RetryQueues.NothingLost: a reported failure means that nothing was written; queued events are values rather than shared pointers, since each is in one place at a time.
- PostgresStores.PostgresStore.ExecuteWithRetry: what the connection does in each attempt is a parameter, other writers of the same rows are not modelled, and `updated_at` is not part of a row. The comments of persistence/postgres.go speak of retrying transient errors; the code does so only for errors that are passed on bare.
- RateLimiter.TokenBucketLimiter.constructor: negative settings, which the program passes on, are not modelled.
- EventReplay.AverageIsWeighted: floats are reals, so rounding of the average is not modelled.
- Writing one trade with its two orders, queries of stored trades and orders, `get_order_history`: easier cases of what is modelled.
