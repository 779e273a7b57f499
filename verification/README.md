# An order book server, its profit tracker and its wire protocol: a verified model

This project models a trading system whose engine is written in C++ and whose browser bridge is written in
Python, and proves what the two promise.

* **The matching engine.** A price-time priority double auction over four price-keyed queues (bids, asks, resting
  buy stops, resting sell stops) with an id index. Trades trigger stops, triggered stops trade, and so on.
* **The profit tracker.** Position accounting over cumulative status reports and trade notices.
* **The wire layer.** Line-oriented messages printed and parsed by both implementations, length-prefixed frames, and
  the session's write queue under interleaved senders.

## How the model is built

The engine is modelled three times, and the three are proved equal.

1. `OrderObject.Order` and `OrderBooks.OrderBook` are classes that work as the C++ classes do: shared order objects
   changed in place, four ordered maps of price levels (`Ladders.Level`, kept as sequences in ascending price order)
   and an index. Every method is proved against a function on values: `AddOrder` against `Engine.Submit`,
   `CancelOrder` against `Engine.Withdraw`, `MatchOrder` against `Matching.Cross`, `ProcessStopOrders` against
   `Engine.Cascade`.
2. `Matching` and `Engine` are those functions, on a `Book` of four flat queues. They have no levels and no index:
   a queue is simply everything that rests there, best price first and oldest first within a price.
3. `Machine` is a flat transition system with one small step at a time. What holds after every trade and every
   placement is proved once, for `Machine.Next`, and carried over by refinement (`Machine.ProcessDrains`).

`closed` (orders that left, in their last state), `tape` (all trades) and an order's `stamp` (how long the tape was
when the book took it in) are history: no decision looks at them.

Matching itself has a fourth description, in closed form (`Priority`): who trades, with whom, how much, at what price.
A round of triggering has one too (`Engine.Reached`): two cuts through the sorted stop queues, against which the
scan over ascending trade prices is proved.

The tracker's class (`Tracker.PnLTracker`) is proved against functions on values (`Tracking`), about which the
accounting identities are proved. The session class is proved against a step system (`WriteQueue`), whose invariant
holds under every interleaving. Parsers are methods with loops, proved against folds over lines.

Reading order: `Orders`, `Queues`, `Matching`, `Engine`, then `Safety`, `Priority`, `Outcomes`, `Triggers`, `Unheard`,
`Runs`, `Replay` for the properties, then `OrderBooks` for the object. `Positions`, `Tracking`, `Tracker`; `Texts`,
`Fields`, `Wire`, `Snapshots`, `Protocol`, `PythonParser`, `Spelling`, `LineByLine`; and `Frames`,
`WriteQueue`, `Sessions` stand apart from the engine.

## Assumptions

* Each public call on the book is one step: the mutex covers the body. Callbacks run after the lock is released and
  are modelled by the lists `AddOrder` and `CancelOrder` return.
* An order with something left to fill that is handed to `AddOrder` is pending or partially filled, is not an object
  the book has seen leave, and is changed by nobody else while the book holds it.
* Prices are real numbers: a total order is all the engine uses. The book rounds no price on entry. The tracker's
  arithmetic is exact.
* Quantities are 32-bit: fills cannot wrap, and level totals wrap modulo 2^32 as in the code.
* `std::map` and `std::set` are sorted sequences; a Python dictionary is a map with the order of its keys.

## What turned out to be conditional

Where a property does not hold on all inputs, the exact condition is proved, and an input that fails it is given.

* Canceling an order right after adding it restores the book if and only if the order is a stop or a limit order that
  cannot trade (`Canceling.CancelUndoesSubmit`; a market order is gone, `Canceling.MarketGone`).
* For every selection of symbols, profit is cash plus positions at their last prices if and only if each position is
  closed, has a last price, or cost nothing (`Tracking.MarkedEverywhere`). A symbol has no last price exactly when nothing
  ever priced it or the last event that did was a fill reported at price zero (`Tracking.UnpricedExactly`), as the server
  reports market orders (`Tracking.MarketReportUnmarked`). With unpriced positions at cost, profit always adds up.
* An order survives printing and parsing if and only if its names have no newline, its prices are whole hundredths
  and its stop price is not negative (`Protocol.SubmitRoundTrip`; `Protocol.SmallPriceLost`).
* A snapshot is read back exactly, by either parser, if and only if its symbol has no newline and its prices are whole
  hundredths (`Protocol.SnapshotRoundTrip`, `PythonParser.SnapshotRoundTrip`).
* A frame stream is read back if and only if every payload has 1 byte to 1 MiB (`Frames.StreamRoundTrip`).
* Not every change of an order is announced. Of the orders resting before a call, exactly those stops change without
  anybody being told that a trade of the call reaches and no trade of the call names (`Unheard.UnheardExactly`): a
  stop-limit order then rests, a stop order is canceled (`Announcements.CanceledUnheard`). So a call announces all it
  changes if and only if each stop its trades reach is named in one of them (`Unheard.AllHeard`).

## Model

| member | source | states |
|---|---|---|
| OrderObject.Order.Fill | common/src/order.cpp:27-46 | a fill is refused, without effect, on a finished order or beyond what remains; otherwise it takes exactly that quantity and the status follows |
| OrderObject.Order.Cancel | common/src/order.cpp:48-57 | only a finished order refuses to be canceled |
| OrderObject.Order.Trigger | common/src/order.cpp:59-68 | a stop becomes a market order, a stop-limit order a limit order, anything else is left alone |
| OrderObject.Order.constructor | common/src/order.cpp:5-25 | a new order is pending with everything remaining |
| OrderBooks.OrderBook.constructor | common/src/orderbook.cpp:9-13 | a new book is empty and satisfies the invariant of all public calls |
| OrderBooks.OrderBook.ExecuteTrade | common/src/orderbook.cpp:353-374 | both parties are filled by the quantity, one trade is printed at the given price, and the two are queued for notification, buyer first |
| Matching.TradeStepKeeps | common/src/orderbook.cpp:353-374 | in every state with a live resting order and an order in hand, neither of the two ignored fill results is false, the quantity is positive, and the queues keep their shape |
| OrderBooks.OrderBook.FillBestAsk | common/src/orderbook.cpp:282-309 | the inner loop over a level makes the same progress as the flat walk, terminates, and leaves no empty level |
| OrderBooks.OrderBook.FillBestBid | common/src/orderbook.cpp:321-348 | the same for the highest bid level |
| OrderBooks.OrderBook.MatchAsks | common/src/orderbook.cpp:272-310 | the outer loop over ask levels, lowest first, is the walk over the flat queue of asks |
| OrderBooks.OrderBook.MatchBids | common/src/orderbook.cpp:311-350 | the outer loop over bid levels, highest first, is the walk over the flat queue of bids |
| Matching.Cross | common/src/orderbook.cpp:267-351 | the walk stops only when the order is filled or nothing acceptable is left, and keeps the queues sorted and live |
| OrderBooks.OrderBook.MatchOrder | common/src/orderbook.cpp:267-351 | the nested loops over levels and queues compute exactly the greedy walk over the flattened opposite side, with the same trades in the same order |
| Priority.CrossVolume | common/src/orderbook.cpp:274-310 | the executed volume is the smaller of what the order wants and all acceptable liquidity, wherever it stands in the queue |
| Priority.CrossInPriority | common/src/orderbook.cpp:286-295 | the i-th trade is with the i-th resting order in price-time priority, at its price, acceptable to both, for all it has or all that is still wanted |
| Priority.CrossServes | common/src/orderbook.cpp:297-304 | every resting order served is completely filled and gone, except that the last may stay in front, partially filled |
| Priority.BestFirst | common/src/orderbook.cpp:274-275 | the queue an order meets stands best price first: lowest ask for a buyer, highest bid for a seller |
| Priority.CrossTrades | common/src/orderbook.cpp:286-295 | the i-th trade prints the i-th resting order's own price, inside a limit order's limit, names the buyer and the seller by their sides, and is for all it has or all that is still wanted |
| Priority.CrossRemainder | common/src/orderbook.cpp:274-280 | a market order keeps a remainder only if the opposite side is empty, a limit order only if that side is empty or its best price lies beyond the limit |
| Priority.CrossExecutes | common/src/orderbook.cpp:274-310 | the executed volume is the smaller of what the order wants and the sum of what rests at acceptable prices, any price for a market order |
| OrderBooks.OrderBook.AddOrderToBook | common/src/orderbook.cpp:376-388 | the remainder rests behind all orders at its own or a better price and before all others |
| OrderBooks.OrderBook.AddStopOrder | common/src/orderbook.cpp:442-449 | a stop waits in trigger order, behind older stops at its stop price |
| OrderBooks.OrderBook.SettleOrder | common/src/orderbook.cpp:71-89 | match, then rest a limit remainder, cancel a market remainder, or drop a filled order, with index and maps in step |
| PriceSets.CollectPrices | common/src/orderbook.cpp:92-96 | the ascending set of exactly the prices that traded |
| OrderBooks.OrderBook.TriggerBuysUpTo | common/src/orderbook.cpp:457-465 | the erase loop takes exactly the buy stops at or below the price, in ascending stop price and first-in-first-out within one |
| OrderBooks.OrderBook.TriggerSellsDownTo | common/src/orderbook.cpp:467-476 | the erase loop takes exactly the sell stops at or above the price, in descending stop price and first-in-first-out within one |
| Batches.NextPrice | common/src/orderbook.cpp:456-477 | a later price of the scan extends the closed form of the round: more buys, no further sells |
| OrderBooks.OrderBook.TriggerRound | common/src/orderbook.cpp:456-477 | the whole scan triggers the closed form: the buy stops at or below the highest price, the sell stops at or above the lowest, each once |
| OrderBooks.OrderBook.SettleTriggered | common/src/orderbook.cpp:481-498 | triggered orders, in no map until it is their turn, are settled one after the other, and then the index matches the maps again |
| OrderBooks.OrderBook.ProcessStopOrders | common/src/orderbook.cpp:451-510 | the recursive cascade, which terminates because each further round has used up a stop |
| Machine.NextDescends | common/src/orderbook.cpp:479-509 | every step of the engine lowers (resting stops, orders in hand, trades left), so cascades and matching loops end |
| Machine.ProcessDrains | common/src/orderbook.cpp:46-100 | a whole submission, cascade included, is a run of the small-step machine to a standstill |
| OrderBooks.OrderBook.AddOrder | common/src/orderbook.cpp:46-122 | the object moves exactly as the value-level submission does, refuses without a trace, keeps its invariant, and announces the parties of all trades and the submitter once, last |
| Outcomes.SubmitAnswers | common/src/orderbook.cpp:46-65 | an order is taken if and only if something is left to fill and no resting order has its id; a refused one changes nothing |
| Outcomes.StopWaits | common/src/orderbook.cpp:68-69 | a stop joins its queue behind every stop reached no later and before all others, whatever has traded before, and nothing else changes |
| Outcomes.SettleEnds | common/src/orderbook.cpp:75-89 | after matching, a limit remainder rests behind its own and better prices, a market remainder is canceled with what it has left, and an order without a remainder is gone, filled |
| Outcomes.SettledInTurn | common/src/orderbook.cpp:483-498 | triggered orders are settled one after the other, each against what those before it left |
| Outcomes.EveryTrade | common/src/orderbook.cpp:286-295 | whenever the engine prints a trade, in a cascade or not, it is between the order in hand and the best order opposite, at that one's price, inside both limits, for the smaller of the two quantities, which both then have less |
| Outcomes.FiresInOrder | common/src/orderbook.cpp:456-477 | a round fires the buy stops at or below the lowest price, then the sell stops at or above it, then the buy stops at or below the highest, each group as its queue stands; exactly these leave, turned into market and limit orders |
| Outcomes.RoundsApart | common/src/orderbook.cpp:479-509 | rounds do not mix: no stop fires while triggered orders wait their turn, and then the stops are checked once against every trade since the last check |
| OrderBooks.OrderBook.Announce | common/src/orderbook.cpp:108-119 | everybody who traded except the submitter, in order, then the submitter |
| OrderBooks.ExceptSubmitterInOrder | common/src/orderbook.cpp:108-114 | the orders announced before the submitter stay in the order of the trades, each as often as it traded |
| OrderBooks.OrderBook.IndexIsBook | common/src/orderbook.cpp:59-65 | the id index knows exactly the ids of the orders in the four maps |
| Safety.NextInv | common/src/orderbook.cpp:267-388 | after every single trade, placement and trigger: one order per id, sides uncrossed, resting stops unreached by the trades checked so far, queues sorted and live, everything that left filled or canceled |
| Safety.SubmitGood | common/src/orderbook.cpp:46-100 | a submission of any order type with any depth of cascade keeps that invariant |
| Canceling.WithdrawGood | common/src/orderbook.cpp:124-186 | so does a cancellation |
| Runs.Run | common/src/orderbook.cpp:46-194 | in every reachable book each bid is below each ask, and no resting stop has been reached by a trade printed since it was added |
| Triggers.TriggersExactly | common/src/orderbook.cpp:91-98 | a call triggers a stop if and only if some trade of the same call, cascade included, reaches its stop price; the others keep their places |
| Announcements.UntoldOnlySilently | common/src/orderbook.cpp:483-498 | orders gone before the call stay as they were; whoever is found after the call and is neither submitted nor named in one of its trades rested just so before, or is a stop triggered without trading |
| Unheard.BecomesOne | common/src/orderbook.cpp:46-100 | every order resting before a call is accounted for after it exactly once: it rests, or it left in this call |
| Unheard.WaitsUnlessHit | common/src/orderbook.cpp:451-477 | a waiting stop still waits after the call if and only if no trade of the call reached it |
| Unheard.UnheardExactly | common/src/orderbook.cpp:483-498 | an order changes without being submitted or named in a trade of the call if and only if it is a stop that a trade of the call reaches and none names; then a stop-limit order rests and a stop order is canceled |
| Unheard.AllHeard | common/src/orderbook.cpp:102-119 | a call announces all it changes if and only if every stop its trades reach is named in one of them |
| OrderBooks.NotifiedIsTold | common/src/orderbook.cpp:108-119 | the order callbacks reach exactly the submitter and the parties of the call's trades |
| Announcements.CanceledUnheard | common/src/orderbook.cpp:489-491 | a triggered stop order can be canceled without anybody being told |
| Tallies.SubmitLedger | common/src/orderbook.cpp:353-374 | a submission adds the order, and what orders execute is what the tape prints, by id, by side and by head count |
| Runs.RunBalanced | common/src/orderbook.cpp:353-374 | over any run, what the orders of an id or a side have executed is what the tape prints for it |
| Runs.RunBoughtIsSold | common/src/orderbook.cpp:353-374 | over any run, bought equals sold equals traded |
| Runs.RunConservesEach | common/src/orderbook.cpp:353-374 | over any run without reused ids, each order's quantity minus remaining is the sum of the trades that name it |
| Runs.RunTradeBound | common/src/orderbook.cpp:286-304 | a run prints fewer trades than it accepts orders |
| Runs.SubmitTradeBound | common/src/orderbook.cpp:46-100 | one submission, cascade included, prints at most as many trades as orders were resting |
| OrderBooks.OrderBook.Unlist | common/src/orderbook.cpp:144-185 | an order is found in the map its type and side name, also when it was triggered there, is dropped from it, and takes its level with it if that empties |
| OrderBooks.OrderBook.CancelOrder | common/src/orderbook.cpp:124-194 | succeeds exactly for ids in the index, and moves the object as the value-level cancellation does |
| Canceling.WithdrawLive | common/src/orderbook.cpp:124-186 | any resting order can be canceled by its id; exactly that order leaves, and every other keeps its place |
| Canceling.CancelUndoesSubmit | common/src/orderbook.cpp:124-186 | canceling what was just added restores every queue if and only if the order just rested |
| Canceling.MarketGone | common/src/orderbook.cpp:79-82 | a market order on an empty book cannot be canceled afterwards |
| OrderBooks.OrderBook.GetOrder | common/src/orderbook.cpp:196-205 | finds an order exactly when one with this id rests, and that order is live |
| Depths.SumRemaining | common/src/orderbook.cpp:411-413 | the level quantity is the sum of what remains, reduced modulo 2^32 and exact below it |
| Depths.CalculatePriceLevels | common/src/orderbook.cpp:390-440 | the best levels of the flat queue, as many as asked for and available, none for a depth below one |
| Depths.DepthExact | common/src/orderbook.cpp:401-437 | the levels worsen strictly, and each counts and sums exactly the orders at its price |
| Depths.AllPricesShown | common/src/orderbook.cpp:401-437 | every price at which an order rests has a level |
| Depths.VisibleIsBest | common/src/orderbook.cpp:390-440 | as many levels as asked for and as there are prices; the i-th is the price that exactly i others beat, with the number and the 32-bit sum of the orders there, exact below 2^32 |
| Depths.BestVolume | common/src/orderbook.cpp:240-247 | the first level shows the price of the first order and all that remains at it |
| OrderBooks.OrderBook.GetBidLevels | common/src/orderbook.cpp:207-210 | the best bid prices, as many as asked for, with the sums and counts of the bids at them |
| OrderBooks.OrderBook.GetAskLevels | common/src/orderbook.cpp:212-215 | the best ask prices, as many as asked for, with the sums and counts of the asks at them |
| OrderBooks.OrderBook.GetBestBidPrice | common/src/orderbook.cpp:217-225 | the price of the first bid, or zero |
| OrderBooks.OrderBook.GetBestAskPrice | common/src/orderbook.cpp:227-235 | the price of the first ask, or zero |
| OrderBooks.OrderBook.GetBestBidVolume | common/src/orderbook.cpp:237-250 | the sum of what remains at the best bid price, modulo 2^32 and exact below it, or zero |
| OrderBooks.OrderBook.GetBestAskVolume | common/src/orderbook.cpp:252-265 | the sum of what remains at the best ask price, modulo 2^32 and exact below it, or zero |
| Replay.ReplayRebuilds | server/src/server.cpp:66-76 | the live orders of a reachable book, fed into an empty one with levels interleaved in any way, print no trade, trigger no stop and rebuild every queue order for order |
| Replay.ReplayKeeps | common/src/order_store.cpp:260-273 | order by order, every rebuilt queue has the ids, sides, kinds, prices and stop prices of before; what was left is quantity and remainder; it is partially filled if and only if something had been filled |
| Restores.LoadOrder | common/src/order_store.cpp:260-273 | a stored order comes back with its id, side, kind and both prices, with what was left as its quantity, and as partially filled if and only if something had been filled |
| Restores.LoadAllActiveOrders | common/src/order_store.cpp:245-279 | every stored order becomes an object of its own |
| Restores.RestoreOrders | server/src/server.cpp:70-75 | the loop that adds the loaded orders submits them one after the other |
| Restores.InitPersistence | server/src/server.cpp:53-80 | restarting with the live orders of a reachable book leaves the object holding that book, queue by queue and field by field |
| Positions.FillBalances | gui/bridge/pnl_tracker.py:135-173 | opening, adding, reducing, closing and reversing all move price times quantity between cash and the position's cost, and the position by the signed quantity |
| Positions.FillOpensOrAdds | gui/bridge/pnl_tracker.py:143-151 | opening or adding realizes nothing; an opening fill sets the average, an adding one mixes its price in by quantity |
| Positions.FillReduces | gui/bridge/pnl_tracker.py:152-171 | a fill against a larger position keeps the average and realizes the price difference on the fill's quantity, for long and short |
| Positions.FillClosesOrTurns | gui/bridge/pnl_tracker.py:152-171 | a fill against an equal or smaller position realizes on the old position only; what is left over opens at the fill's price |
| Positions.RealizedIsTaken | gui/bridge/pnl_tracker.py:135-173 | over any fills, realized profit is the sum of the price differences to the average on the quantities closed |
| Positions.MarkedTo | gui/bridge/pnl_tracker.py:27-31 | unrealized profit is last price minus average times quantity, zero without a position or a last price |
| Positions.CashMoves | gui/bridge/pnl_tracker.py:140-141 | a purchase costs price times quantity, anything but a purchase brings it |
| Positions.Books | gui/bridge/pnl_tracker.py:135-173 | over any fills, quantity is the sum of signed fills and realized profit is net cash flow plus the open position at its average price |
| Positions.AverageBetween | gui/bridge/pnl_tracker.py:143-171 | the average price of an open position lies between the lowest and highest fill price since it was opened or reversed |
| Positions.ProfitIsCashPlusValue | gui/bridge/pnl_tracker.py:27-31 | realized plus unrealized profit is cash plus the position at its last price or, for want of one, at cost |
| Positions.ProfitMarked | gui/bridge/pnl_tracker.py:27-31 | profit is cash plus the position at its last price if and only if the position is closed, has a last price, or cost nothing |
| Positions.FreeFillUnmarked | gui/bridge/pnl_tracker.py:27-31 | two fills after which profit misses the cost of the position |
| Tracking.RecordedIsMax | gui/bridge/pnl_tracker.py:77-119 | over any reports, repeated and stale ones included, the fills recorded for an order sum to the highest filled quantity reported |
| Tracking.FillsAreReal | gui/bridge/pnl_tracker.py:104-117 | every recorded fill is a positive quantity of a named order |
| Tracking.EventRecords | gui/bridge/pnl_tracker.py:101-115 | a report beyond all earlier ones of its order records exactly one fill with its own id, symbol, side and price and the difference as quantity; nothing else records any |
| Tracking.EventRemembers | gui/bridge/pnl_tracker.py:91-106 | of each order the terms of its first report and the highest quantity are remembered |
| Tracking.AccountFromEvents | gui/bridge/pnl_tracker.py:77-141 | a symbol's quantity is the sum over such reports of plus the difference for "BUY" and minus it otherwise, and its realized profit what they took less what they paid plus the open cost |
| Tracking.LastEvent | gui/bridge/pnl_tracker.py:121-133 | an event that prices a symbol, a new fill or a trade notice, sets its last price to its own price; any other leaves the symbol alone |
| Tracking.AccountsKept | gui/bridge/pnl_tracker.py:121-141 | a symbol's account is what its own fills make of a flat one; trade notices never touch it |
| Tracking.CashSplits | gui/bridge/pnl_tracker.py:175-177 | cash flows summed symbol by symbol are the cash flow of all fills |
| Tracking.EquityIdentity | gui/bridge/pnl_tracker.py:175-189 | total profit is the net cash flow of all fills plus the value of all positions |
| Tracking.TotalsAdd | gui/bridge/pnl_tracker.py:175-181 | the totals add one symbol's realized and unrealized profit after the other |
| Tracking.EquityMarked | gui/bridge/pnl_tracker.py:175-189 | total profit is cash plus positions at their last prices if and only if what unpriced positions cost cancels out |
| Tracking.MarkedEverywhere | gui/bridge/pnl_tracker.py:27-31 | the profit of every selection of symbols is cash plus positions at their last prices if and only if every position is closed, has a last price, or cost nothing |
| Tracking.EquityOfMarked | gui/bridge/pnl_tracker.py:175-189 | with every position closed, priced or free, total profit is the cash flow of all fills plus all positions at their last prices |
| Tracking.UnpricedExactly | gui/bridge/pnl_tracker.py:121-173 | a symbol has no last price if and only if nothing ever priced it or the last event that did is a new fill at price zero; what nothing priced has no position |
| Tracking.NoFreeReports | gui/bridge/pnl_tracker.py:77-119 | without a report at price zero every open position has a last price |
| Tracking.PricedStreamMarks | gui/bridge/pnl_tracker.py:175-189 | a stream of events in which no symbol is last priced by a fill at zero makes profit cash plus marked positions, for every selection of symbols |
| Tracking.MarketReportUnmarked | server/src/server.cpp:351-352 | a limit order's fill and then a market order's, reported at price zero, leave a position without a last price and profit short of its cost |
| Tracker.Position.Take | gui/bridge/pnl_tracker.py:140-173 | the branches over a mutable position compute the account after the fill, with the fill price as last price |
| Tracker.PnLTracker.constructor | gui/bridge/pnl_tracker.py:61-65 | a new tracker has a capital of 100000 and no positions |
| Tracker.PnLTracker.SetInitialCapital | gui/bridge/pnl_tracker.py:67-69 | only the capital changes |
| Tracker.PnLTracker.ApplyFill | gui/bridge/pnl_tracker.py:135-173 | only the fill's own symbol changes, and gets a position if it had none |
| Tracker.PnLTracker.ProcessOrderStatus | gui/bridge/pnl_tracker.py:77-119 | the tracker object moves as the value-level report does |
| Tracker.PnLTracker.ProcessTrade | gui/bridge/pnl_tracker.py:121-133 | a named symbol with a positive price gets a new last price; anything else is ignored |
| Tracker.PnLTracker.Equity | gui/bridge/pnl_tracker.py:175-189 | initial capital plus realized and unrealized profit over all symbols |
| Tracker.PnLTracker.EquityAfter | gui/bridge/pnl_tracker.py:187-189 | after any events the object's equity is initial capital plus cash plus value |
| Texts.Fixed2Read | common/src/message.cpp:346-346 | two decimals read back as the nearest hundredth, by the C++ and by the Python reader |
| Fields.FieldIs | common/src/message.cpp:58-65 | a printed field is recognised under its own key and no other (`stop_price=` is not `price=`), and its value reads back |
| Protocol.ParseMessage | common/src/message.cpp:115-326 | the line loops of the C++ parser, for the four modelled types and both kinds of error |
| Wire.ReadPuts | common/src/message.cpp:129-187 | each chain of key tests acts on a field by its key alone, wherever in the message the line stands |
| Wire.SubmitFieldsRead | common/src/message.cpp:126-147 | the fields of an order, in the C++ or the Python order, read back to the hundredth |
| Protocol.ParsedOneLine | common/src/message.cpp:129-145 | no text parses to an order with a newline in a name |
| Protocol.SubmitRoundTrip | common/src/message.cpp:339-353 | C++ parsing undoes C++ and Python order printing, with their different field orders, if and only if the order is printable |
| Protocol.SmallPriceLost | common/src/message.cpp:346-346 | a price below half a hundredth arrives as zero |
| Protocol.CancelRoundTrip | common/src/message.cpp:356-363 | a cancellation survives if and only if its names have no newline |
| Protocol.ReportRoundTrip | common/src/message.cpp:366-395 | a status report, timestamp aside, survives if and only if it is printable |
| Protocol.SerializeSnapshot | common/src/message.cpp:398-418 | the two level loops print the header, the marked bids and the marked asks, level by level |
| Snapshots.BodyScanned | common/src/message.cpp:193-224 | either parser's loop recovers every level of a snapshot of any length, in order, bids and asks apart |
| Protocol.SnapshotRecovered | common/src/message.cpp:190-226 | the C++ parser recovers a printed snapshot, prices to the hundredth |
| Protocol.SnapshotRoundTrip | common/src/message.cpp:190-226 | the C++ parser reads back exactly what was printed if and only if the symbol has no newline and all prices are whole hundredths |
| PythonParser.ParseMessage | gui/bridge/protocol.py:137-161 | the line loops of the Python parser |
| PythonParser.ParseOrderStatus | gui/bridge/protocol.py:164-191 | the loop over lines is the fold of the field reader |
| PythonParser.ParseSnapshot | gui/bridge/protocol.py:194-222 | the loop over lines is the fold of the snapshot reader |
| PythonParser.ReportReadByPython | gui/bridge/protocol.py:164-191 | Python reads a C++ status report into exactly its dictionary, with a stop price only if that is positive |
| PythonParser.SnapshotReadByPython | gui/bridge/protocol.py:194-222 | Python recovers every level of a snapshot the C++ server printed |
| PythonParser.SnapshotRoundTrip | gui/bridge/protocol.py:194-222 | Python reads back exactly what the C++ server printed, under the same exact condition |
| Spelling.DigitsSpelled | common/src/message.cpp:352-352 | quantities are printed in decimal, most significant digit first |
| Spelling.Fixed2Spelled | common/src/message.cpp:346-346 | prices are printed as sign, whole part, point and two digits of the nearest hundredth |
| Spelling.NatSpelled | common/src/message.cpp:44-55 | C++ takes the leading digits up to a limit, and zero from a text that starts with none; Python takes a whole number or zero |
| Spelling.RealSpelled | gui/bridge/protocol.py:123-127 | a number with two decimals, negative or not, is read as that number by both |
| Spelling.RoundedNear | common/src/message.cpp:346-346 | what comes back of a price is a whole hundredth at most half a hundredth away |
| Spelling.WordsSpelled | common/src/message.cpp:377-390 | the words for sides, order types and states |
| Spelling.JoinedMore | gui/bridge/protocol.py:73-73 | a message is its lines with one newline between any two |
| Spelling.EndedMore | common/src/message.cpp:400-417 | a snapshot is its lines with one newline behind each |
| Spelling.SubmitSpelled | gui/bridge/protocol.py:61-73 | every line of an order submission as C++ and as Python print it, a stop price only if positive |
| Spelling.CancelSpelled | gui/bridge/protocol.py:76-82 | every line of a cancellation |
| Spelling.ReportSpelled | common/src/message.cpp:366-395 | every line of a status report, a stop price only if positive |
| Spelling.SnapshotSpelled | common/src/message.cpp:398-418 | header, marked bids and marked asks of a snapshot |
| Spelling.LevelsSpelled | common/src/message.cpp:404-408 | each level prints price, quantity and order count after those before it |
| LineByLine.ParsedMore | common/src/message.cpp:129-187 | a message with one line more is the message before, changed by that line alone |
| LineByLine.Begins | common/src/message.cpp:124-127 | what the first line alone gives: a message of its type with everything empty, zero, a purchase, a limit order, pending |
| LineByLine.Refused | common/src/message.cpp:120-122 | no line at all and an unknown type are the two errors |
| LineByLine.KnownWords | common/src/message.cpp:67-112 | what each word for a side, an order type or a state stands for, and what an unknown one does |
| LineByLine.SubmitTakes | common/src/message.cpp:129-145 | each line of a submission sets its own field; a quantity stops at 2^32 - 1 |
| LineByLine.CancelTakes | common/src/message.cpp:151-157 | each line of a cancellation sets its own field |
| LineByLine.ReportTakes | common/src/message.cpp:163-186 | each word of a status report sets its own field |
| LineByLine.ReportTakesNumbers | common/src/message.cpp:171-184 | each number of a status report sets its own field |
| LineByLine.OthersIgnored | common/src/message.cpp:129-187 | a line without a known key changes nothing |
| LineByLine.ScanTakes | common/src/message.cpp:197-224 | prices and quantities belong to the level being read, its order count completes it on the side of the last marker, and outside the sections all three are ignored |
| LineByLine.PythonBegins | gui/bridge/protocol.py:142-161 | what the first line alone gives in Python, unknown types included |
| LineByLine.PythonTakes | gui/bridge/protocol.py:164-191 | each line of a status report gives exactly its own key, words as they are and numbers as numbers |
| LineByLine.PythonIgnores | gui/bridge/protocol.py:164-191 | a line without a known key gives none |
| Frames.FrameMessage | common/include/message.h:18-32 | four length bytes, then the message |
| Frames.HeaderReadsBack | common/include/message.h:35-40 | the length reads back, modulo 2^32 |
| Frames.LengthReadsBack | common/include/message.h:23-27 | every four bytes are the header of the length they announce |
| Frames.FrameSpelled | common/include/message.h:18-40 | the four length bytes, least significant first, how they are read, and the lengths from 1 to 1048576 that are acceptable |
| Frames.FramesAgree | gui/bridge/protocol.py:48-51 | C++ and Python frames are byte-identical |
| Frames.HeadersAgree | gui/bridge/protocol.py:54-56 | C++ and Python write and read the same headers |
| Frames.FeedChunks | server/src/session.cpp:89-113 | however the stream is cut into chunks, the reader ends up the same |
| Frames.StreamFed | server/src/session.cpp:98-102 | the payloads before the first unacceptable length are handed over in order, and that one closes the connection |
| Frames.StreamRoundTrip | server/src/session.cpp:84-158 | all payloads arrive, once and in order, if and only if each has 1 byte to 1 MiB |
| WriteQueue.StepOrdered | server/src/session.cpp:39-50 | every section under the lock and every move of the network keeps the queue's invariant |
| WriteQueue.NeverTwoWrites | server/src/session.cpp:167-206 | under any interleaving at most one write is started or in flight, exactly while the flag is set; the empty-queue branch is unreachable |
| WriteQueue.WireInOrder | server/src/session.cpp:183-200 | the wire always holds a start of what was sent, in order, and all of it when idle |
| WriteQueue.SentIsSends | server/src/session.cpp:27-45 | what counts as sent is exactly the frames handed in, in their order |
| WriteQueue.FlushDelivers | server/src/session.cpp:183-200 | from any reachable state the queue empties onto the wire |
| WriteQueue.DeliveredInOrder | server/src/session.cpp:27-56 | a peer reading the wire at any moment has been handed a start of the payloads sent, and all of them when idle |
| Sessions.Session.SendMessage | server/src/session.cpp:27-56 | queues the frame, and starts a write exactly if none was under way |
| Sessions.Session.DoWriteNext | server/src/session.cpp:167-182 | puts a copy of the front frame in flight; the queue is never empty here |
| Sessions.Session.OnWritten | server/src/session.cpp:186-201 | drops the written frame and starts the next write if there is one |
| Sessions.Session.OnTransfer | server/src/session.cpp:183-185 | the network takes any part of a write onto the wire, in order |
| Sessions.Session.OnByte | server/src/session.cpp:92-137 | a complete header announces acceptable content or closes; complete content is handed over |
| Sessions.Session.Receive | server/src/session.cpp:84-158 | a chunk of any size is its bytes, one by one |

## Left out

- Ticks: `roundToTickSize` and `isValidPrice` are floating-point helpers the book itself never calls.
- Floating point: NaN, rounding and the ties of two-decimal printing are not modelled; a price is a real number.
- Symbols and clients: an order's symbol, client and timestamps play no part in matching and are not fields of the modelled order.
- The timestamp comparators of orders: the engine keeps time priority by queue position and never calls them.
- Callbacks: that a callback may call back into the book is not modelled, only what it is called with.
- Concurrency of the book: its mutex is modelled as atomicity of each public call.
- The store: only the list of live orders it returns is modelled, not SQL, not second-resolution creation times, and not that orders whose silent changes were never announced may be stored in an older state.
- OrderBooks.OrderBook.AddOrder: requires that an order with something left to fill is pending or partially filled, as every caller in the repository ensures.
- Restores.RestoreOrders: does not model that each stored order goes to the book of its symbol; the rows are those of one book.
- Restores.LoadAllActiveOrders: does not model which rows the query selects nor the order it returns them in; the rows are given.
- Restores.InitPersistence: takes the stored rows to be the live orders of the book in their present state, each level oldest first.
- Depths.CalculatePriceLevels: does not model that the order count of a level is cut to 32 bits.
- PythonParser.ParseMessage: reads trade notices, errors and login and registration replies only to their type.
- Other messages: trade notices, errors, snapshot requests, logins and registrations are parsed only to their type.
- Texts.Fixed2Read: number syntax beyond plain decimals (blanks, exponents, signs other than a leading minus, underscores) is not modelled, and neither is the binary rounding of a decimal.
- LineByLine.SubmitTakes: reads an empty number as zero, while the C++ variable it is read into keeps whatever it held.
- Protocol.ReportRoundTrip: does not model the timestamp, whose milliseconds the C++ parser does not recover.
- Snapshots.BodyScanned: order counts above the 32-bit signed range are outside, as the C++ field cannot hold them.
- Protocol.ParseMessage: the fields of the first level of a snapshot start at zero, while the C++ variable starts undefined until its first reset.
- Text encoding: messages are sequences of characters and frames sequences of bytes; UTF-8 between the two is not modelled.
- Closing a session: errors, shutdown and the flag that `close` clears are not modelled in the write queue.
- Tracker.PnLTracker.ProcessOrderStatus: a report is modelled with absent fields at their defaults; conversions that would raise are not modelled.
- The update message of the tracker, its rounding and the market value of a position are thin views of the modelled state.
- Sockets, timers, threads, the client, the web endpoints, the order generator, accounts and passwords.
