# Verified model of the QTrader core

A Dafny model of the stateful core of the QTrader trading system, with proofs about every input and every
run. Each component that updates its fields in place is a Dafny class whose methods are proved to move the
fields as a pure specification function says; the theorems are about that specification, over all runs.

| file | models |
|---|---|
| `OrderBook.dfy` | the greedy walk of an order-book snapshot under a limit and a slippage cap |
| `PaperModels.dfy`, `PaperSpec.dfy`, `PaperTheorems.dfy`, `PaperLaws.dfy`, `PaperEngine.dfy` | the managed paper-trading loop: lots, exits, fees, the three ledgers, streak-adaptive sizing |
| `Routing.dfy`, `BusSpec.dfy`, `BusTheorems.dfy`, `BusAccounts.dfy`, `EventBus.dfy` | the partitioned event bus as interleaved steps: publish, wait for room, take, deliver, persist, start, stop |
| `Bridge.dfy`, `Echo.dfy`, `Reception.dfy` | several buses joined by a broadcast channel that also returns a message to its sender |
| `PreTradeRisk.dfy` | the pre-trade gate, whose bounded deque stands for the full submission history |
| `ShadowPnl.dfy` | average-cost shadow inventory and the PnL reported from it |
| `PositionLimiter.dfy` | symbol and account exposure limits |
| `FailFast.dfy` | escalation of repeated recoverable errors |
| `StateStore.dfy`, `Replication.dfy` | versioned state store, published snapshots, unreliable channel, failover |
| `Reporting.dfy` | one-pass maximum drawdown and returns |
| `Base.dfy` | options, products of reals under a name, sums over dictionaries |

Conventions. Decimals and floats are `real`. Clock readings, random draws, quotes, trading signals and the
outcome of handlers and of the persistent store are inputs. Products of two unknowns are written `Times(x, y)`
and quotients `Over(x, y)`, so that a proof can hide the multiplication and use its laws one at a time. Names
containing `Exactly` or `Iff` state the exact condition under which a promised property holds; a name with
`Fails`, `Breaks`, `Raises` or `Misreport` gives a concrete input on which it does not.

What the code does differently from its own documentation, kept as it is and proved as such:

- an order that fills nothing reports the slippage `-mid` (`OrderBook.SlippageCapExactly`, `SlippageCapFails`);
- the take-profit floor is skipped in both streak branches (`PaperModels.TakeProfitFloorExactly`);
- a fill that crosses zero keeps the old cost basis (`ShadowPnl.FillIsExactIff`), and all symbols are marked at
  the mid price of the symbol that ticked (`ShadowPnl.ReportedAgainstOwnMarks`);
- the incremental position update has no capacity check (`StateStore.PositionLimitExactly`) and adds cost on a
  reduction (`StateStore.AverageCarriesCostExactly`);
- a bus hears its own broadcast, so with the bridge configured a handler can get an event twice
  (`Echo.SenderHearsItself`);
- a standby replaces a dead primary only if it ever heard a heartbeat (`Replication.ReplacedExactlyWhenHeard`);
- the PnL of a closed trade is not the PnL at its recorded exit price (`PaperTheorems.RecordOverstatesPnl`);
- with negative NAVs the one-pass drawdown need not be the maximum (`Reporting.OnePassIsMaxExactly`).

## Model

| member | source | states |
|---|---|---|
| OrderBook.WalkFillsExactly | qtrader/execution/orderbook_simulator.py:111-131 | the walk of a best-first book fills exactly the lesser of the order and the liquidity at acceptable prices |
| OrderBook.WalkIsAllocation | qtrader/execution/orderbook_simulator.py:111-131 | the walk respects every level's liquidity, and its quantity and cost are those of that allocation |
| OrderBook.Support | qtrader/execution/orderbook_simulator.py:111-131 | measured from the walk, any allocation pays at least the marginal price per extra unit and saves at most that per unit less |
| OrderBook.WalkIsOptimal | qtrader/execution/orderbook_simulator.py:98-131 | no allocation of the same quantity is cheaper for a buyer or brings a seller more |
| OrderBook.WalkMonotone | qtrader/execution/orderbook_simulator.py:111-131 | a larger order never fills less |
| OrderBook.WalkIsConvex | qtrader/execution/orderbook_simulator.py:111-131 | the price of each further increment never improves |
| OrderBook.AveragePriceWorsens | qtrader/execution/orderbook_simulator.py:111-137 | a larger order never gets a better average price |
| OrderBook.WalkComposes | qtrader/execution/orderbook_simulator.py:111-131 | with the limit held fixed, `a + b` equals `a` and then `b` on the residual book |
| OrderBook.WalkBook | qtrader/execution/orderbook_simulator.py:111-131 | the loop with its early breaks computes the recursive walk |
| OrderBook.SimulateOrder | qtrader/execution/orderbook_simulator.py:48-144 | every field of the fill event, for both sides and order types and for an empty book |
| OrderBook.WalkCostBounds | qtrader/execution/orderbook_simulator.py:111-131 | every unit costs between the best price and the limit |
| OrderBook.FillBounds | qtrader/execution/orderbook_simulator.py:86-143 | the filled size is the acceptable liquidity or the order; a positive fill averages between best price and effective limit |
| OrderBook.SlippageCapExactly | qtrader/execution/orderbook_simulator.py:86-143 | on an uncrossed book the slippage cap holds exactly when the order is positive and some acceptable liquidity exists |
| OrderBook.SlippageCapFails | qtrader/execution/orderbook_simulator.py:133-139 | a concrete order that fills nothing and reports 100 times the cap |
| OrderBook.FillsWhatItMay | qtrader/execution/orderbook_simulator.py:86-131 | the filled size is the lesser of the order and the opposite book's liquidity at prices within the order's own limit and the cap, spelled out per side and type; a positive average is such a price |
| OrderBook.OwnLimitHolds | qtrader/execution/orderbook_simulator.py:98-120 | a filled buy never averages above its limit, a filled sale never below |
| OrderBook.ReportMeans | qtrader/execution/orderbook_simulator.py:86-144 | the average is the money of an allocation over its quantity, the slippage its distance from the middle of the best quotes, the ratio the share of the order |
| OrderBook.AdverseSlippageCapped | qtrader/execution/orderbook_simulator.py:91-139 | slippage against the trader is capped even on a crossed book |
| PaperModels.PositionSizeRange | qtrader/execution/paper_models.py:103-113 | a lot is sized between 17 % and 22 % of cash for all streaks |
| PaperModels.PositionSizeExactly | qtrader/execution/paper_models.py:103-113 | the size streak by streak; the configured floor and ceiling never bind |
| PaperModels.StopLossExactly | qtrader/execution/paper_models.py:76-87 | the stop streak by streak |
| PaperModels.TakeProfitExactly | qtrader/execution/paper_models.py:89-101 | the target streak by streak; its bounds never bind in a streak |
| PaperModels.WinRateCounts | qtrader/execution/paper_models.py:127-136 | the win rate times the trades is the wins, and 0 before the first; without wins or losses the expected value is 0 |
| PaperModels.StopLossRange | qtrader/execution/paper_models.py:76-87 | the stop stays between the lesser of base and 1 % and the greater of base + 3 % and 1 % |
| PaperModels.TakeProfitFloorExactly | qtrader/execution/paper_models.py:89-101 | the announced take-profit floor holds exactly unless a streak branch adjusts the base below it |
| PaperModels.TakeProfitFloorFails | qtrader/execution/paper_models.py:89-101 | the default 3 % target after five straight losses is below the floor |
| PaperModels.ExpectedValueIsMeanPnl | qtrader/execution/paper_models.py:127-140 | with wins and losses, the expected value times the number of trades is the total PnL |
| PaperModels.AdaptiveConfig.constructor | qtrader/execution/paper_models.py:49-60 | fresh streaks and totals |
| PaperModels.AdaptiveConfig.RecordWin | qtrader/execution/paper_models.py:115-119 | the new streaks and totals; the two streaks are never positive together |
| PaperModels.AdaptiveConfig.RecordLoss | qtrader/execution/paper_models.py:121-125 | the same for a loss |
| PaperSpec.EntryPricePositive | qtrader/execution/paper_mixins.py:213-214 | entry slippage lies between 0.1 % and 0.2 % and the entry price is positive |
| PaperSpec.FirstTriggered | qtrader/execution/paper_mixins.py:255-272 | the first lot, in list order, whose stop or target fires, with the reason; none only if no lot fires |
| PaperTheorems.OpenedLot | qtrader/execution/paper_mixins.py:201-242 | a lot opened is positive, its entry value is the notional and its commission the taker fee on it |
| PaperTheorems.CloseFlattens | qtrader/execution/paper_mixins.py:301-350 | with one lot, a close leaves both position lists empty and equity equal to cash |
| PaperTheorems.DynamicExitClearsTheWay | qtrader/execution/paper_mixins.py:274-299 | a signal of strength 0.5 or more against the open lot closes it before an entry is considered |
| PaperTheorems.PassKeepsOneLot | qtrader/execution/paper_engine.py:274-304 | one pass of the loop keeps at most one lot |
| PaperTheorems.SecondLotExactly | qtrader/execution/paper_engine.py:274-304 | a pass leaves two lots exactly when a signal below 0.35 opposes the open lot, the limit allows two and the entry goes through |
| PaperTheorems.AtMostOneLot | qtrader/execution/paper_engine.py:280-304 | every reachable state has at most one managed lot, the same in both position dictionaries |
| PaperTheorems.PassesAreARun | qtrader/execution/paper_engine.py:267-311 | starting the loop and letting it pass any number of times is a run the theorems speak of |
| PaperTheorems.OpenKeepsSound | qtrader/execution/paper_mixins.py:199-253 | an entry keeps all ledger invariants |
| PaperTheorems.FeePaidFromNewHigh | qtrader/execution/paper_mixins.py:314-324 | a performance fee is charged only above the peak, and is at most the fraction of the rise |
| PaperTheorems.ChargeStep | qtrader/execution/paper_mixins.py:319-350 | one charge keeps the high-water bound, whatever was charged before |
| PaperTheorems.CloseKeepsSound | qtrader/execution/paper_mixins.py:301-387 | a close keeps all ledger invariants and adds exactly its performance fee to the fees charged |
| PaperTheorems.PassKeepsSound | qtrader/execution/paper_engine.py:274-304 | a pass keeps all ledger invariants |
| PaperTheorems.RunIsSound | qtrader/execution/paper_engine.py:267-386 | every run of passes, quotes, price updates, stops and resets keeps them |
| PaperTheorems.HighWaterMark | qtrader/execution/paper_mixins.py:307-350 | in every run `(1-f) * fees <= f * (peak - capital)`: no profit is charged twice |
| PaperTheorems.LedgerConservation | qtrader/execution/paper_mixins.py:224-342 | in every run cash + entry value of lots + commissions - gross PnL is the starting capital |
| PaperTheorems.RealizedPnlIsNetOfFees | qtrader/execution/paper_engine.py:152-167 | realized PnL equals gross PnL less commissions at every price, though computed from the price |
| PaperTheorems.TwoLedgersAgree | qtrader/execution/paper_mixins.py:326-347 | adaptive total = gross PnL - commissions + entry fees of open lots; when flat, cash = capital + adaptive total |
| PaperTheorems.ExitClosesTheTriggeredLot | qtrader/execution/paper_mixins.py:255-305 | `pop(0)` removes the very lot whose stop or target fired, and none is left |
| PaperTheorems.ExitIsByReturn | qtrader/execution/paper_mixins.py:216-268 | on both sides a lot is stopped exactly when it has lost the fraction sl of its entry value, and else reaches its target exactly when it has gained the fraction tp |
| PaperTheorems.RecordOverstatesPnl | qtrader/execution/paper_mixins.py:326-378 | the recorded PnL exceeds the PnL at the recorded exit price by exactly the slipped fraction of the exit value, on both sides |
| PaperTheorems.HistoriesStayBounded | qtrader/execution/paper_mixins.py:344-382 | in every run the trade list holds at most its limit and never more trades than wins + losses, and the price history at most 5000 prices |
| PaperTheorems.FreshLotIsNotTriggered | qtrader/execution/paper_mixins.py:213-222 | a lot with a stop of at least 1 % and a positive target is not closed by the price it was opened at |
| PaperLaws.ChargedExactly | qtrader/execution/paper_mixins.py:312-324 | a close that gains and lifts equity above the peak is charged all of the fraction of the lesser of gain and rise, any other nothing, measured on the commissions |
| PaperLaws.CloseSettles | qtrader/execution/paper_mixins.py:301-350 | every ledger, streak and list after a close, from prices, quantities and fractions |
| PaperLaws.DrawdownAfterClose | qtrader/execution/paper_mixins.py:384-387 | the maximum drawdown is the deepest fall from the peak, the present one included |
| PaperLaws.OpenSpends | qtrader/execution/paper_mixins.py:199-253 | an entry below 10 or with the simulated error changes nothing; any other spends the sized stake and 0.6 % on one lot at the slipped price |
| PaperLaws.LotClosedExactly | qtrader/execution/paper_engine.py:280-290 | a pass closes the lot exactly when its stop or target is reached or a signal of the other side and at least 0.35 is looked at, and else leaves it alone |
| PaperLaws.EntersExactly | qtrader/execution/paper_engine.py:292-304 | a complete pass enters exactly when, after its exits, it looks at a signal, may hold a lot and holds none |
| PaperLaws.LotWorth | qtrader/execution/paper_engine.py:144-149 | a lot of positive quantity is worth its quantity at the price, whichever its side; a negative one gains as the price falls |
| PaperLaws.EquityOfReachable | qtrader/execution/paper_engine.py:140-150 | in every reachable state equity is cash plus the quantity held at the price |
| PaperLaws.ValuesAdd | qtrader/execution/paper_engine.py:140-163 | market and entry values count every lot once |
| PaperLaws.RealizedIgnoresPrice | qtrader/execution/paper_engine.py:153-167 | in any state realized PnL is cash plus entry values less the capital, at every price |
| PaperLaws.RecordKeepsRecent | qtrader/execution/paper_mixins.py:27-29 | the price history ends with the new price and keeps at least the last 2000 |
| PaperLaws.TruncateKeepsRecent | qtrader/execution/paper_mixins.py:380-382 | the trade list ends with the newest trade and keeps at least half of its limit |
| PaperLaws.MarketEventSetsPrice | qtrader/execution/paper_engine.py:341-358 | a BTC-USD event, and no other, sets both prices to its last price or midway between positive quotes |
| PaperLaws.BasePriceSetsPrice | qtrader/execution/paper_engine.py:322-333 | a positive base price is taken over; the current price follows exactly when forced or stopped |
| PaperLaws.PassesOnlyWhileStarted | qtrader/execution/paper_engine.py:267-320 | the loop runs exactly from a start to the next stop |
| PaperLaws.TradeTells | qtrader/execution/paper_mixins.py:328-379 | the record's lot, reason, slippage in basis points and percentage of the entry value |
| PaperLaws.ConcernsExactly | qtrader/execution/paper_engine.py:342-344 | an event concerns BTC-USD exactly when the name stands somewhere in its symbol |
| PaperLaws.ResetForgets | qtrader/execution/paper_engine.py:370-385 | after a reset only base price, base percentages, lot counter and the loop remain |
| PaperEngine.PaperTradingEngine.constructor | qtrader/execution/paper_engine.py:55-92 | the initial ledgers |
| PaperEngine.PaperTradingEngine.Equity | qtrader/execution/paper_engine.py:140-150 | the valuation loop computes cash plus the marked value of every lot |
| PaperEngine.PaperTradingEngine.RealizedPnl | qtrader/execution/paper_engine.py:153-167 | the second valuation loop, with its different branch for empty lots, computes the same market value and the realized PnL |
| PaperEngine.PaperTradingEngine.SimulatePriceTick | qtrader/execution/paper_mixins.py:20-45 | the price history grows by the price, is pruned to 2000 past 5000 and never exceeds 5000 |
| PaperEngine.PaperTradingEngine.OpenManagedPosition | qtrader/execution/paper_mixins.py:199-253 | every field after an entry or a refused entry |
| PaperEngine.PaperTradingEngine.CheckExitConditions | qtrader/execution/paper_mixins.py:255-272 | the scan closes exactly when some lot fires, with the first reason |
| PaperEngine.PaperTradingEngine.CheckDynamicExit | qtrader/execution/paper_mixins.py:274-299 | the scan closes exactly when some lot is reversed |
| PaperEngine.PaperTradingEngine.CloseManagedPosition | qtrader/execution/paper_mixins.py:301-387 | every field after a close, high-water mark and drawdown included |
| PaperEngine.PaperTradingEngine.SettleOldestLot | qtrader/execution/paper_mixins.py:305-382 | cash, fees, lists, streaks and the bounded trade list after a close |
| PaperEngine.RemoveLot | qtrader/execution/paper_mixins.py:337-342 | the list comprehension drops exactly the lots with the closed id |
| PaperEngine.Settlement | qtrader/execution/paper_mixins.py:307-326 | gross PnL, execution fee, performance fee and net PnL of one close |
| PaperEngine.BuildTrade | qtrader/execution/paper_mixins.py:328-379 | the record of a close is `Trade`, whose PnL and price `RecordOverstatesPnl` relates |
| PaperEngine.PaperTradingEngine.Iterate | qtrader/execution/paper_engine.py:274-317 | one iteration, complete or abandoned after an exit, is one pass of the state machine |
| PaperEngine.PaperTradingEngine.RunContinuous | qtrader/execution/paper_engine.py:267-317 | the loop is the composition of its passes, abandoned ones included |
| PaperEngine.PaperTradingEngine.UpdateBasePrice | qtrader/execution/paper_engine.py:322-333 | base price always, current price only when forced or stopped; non-positive prices ignored |
| PaperEngine.PaperTradingEngine.HandleMarketEvent | qtrader/execution/paper_engine.py:341-358 | only BTC-USD events: last price, else the mid of two positive quotes, else nothing |
| PaperEngine.PaperTradingEngine.Reset | qtrader/execution/paper_engine.py:370-385 | the initial ledgers at the current base price, bases kept, the loop still running |
| Routing.ShedsLowFirstExactly | qtrader/core/backpressure_controller.py:67-85 | load is shed in order of priority exactly when the warning level does not exceed the throttle level |
| Routing.RoutedByKey | qtrader/core/partition_manager.py:26-56 | events go by symbol, else by order id, else by the default key, to its hash modulo the partitions |
| Routing.KeysPartition | qtrader/core/partition_manager.py:26-46 | every event is of exactly one of these three kinds |
| Routing.RouteIsStable | qtrader/core/partition_manager.py:26-56 | neither filling in the partition key nor marking a copy remote changes the partition |
| BusTheorems.StepKeepsInvariant | qtrader/core/event_bus.py:76-202 | every step keeps the account of each partition: acceptance, delivery and persistence histories and its worker |
| BusTheorems.NothingIsLost | qtrader/core/event_bus.py:135-202 | in every interleaving the accepted events of a partition are those retired, then at most one in hand, then the queue, in order |
| BusTheorems.OnlyStopsCancel | qtrader/core/event_bus.py:98-120 | each stop cancels at most one event per partition; without stops none is cancelled |
| BusTheorems.DeliveriesAreExact | qtrader/core/event_bus.py:183-187 | every event not cancelled was offered to each of its handlers once, in subscription order |
| BusTheorems.DeliveryFollowsAcceptance | qtrader/core/event_bus.py:171-187 | an event is delivered only after all deliveries of the events its partition accepted before it |
| BusTheorems.EqualKeysKeepTheirOrder | qtrader/core/partition_manager.py:26-56 | events of equal payload key share a partition, whatever key was preset, and keep their order in it |
| BusTheorems.SameKeyDeliveredInOrder | qtrader/core/event_bus.py:135-202 | no delivery of a later event with the same key precedes a delivery of an earlier one |
| BusTheorems.StoreFollowsAcceptance | qtrader/core/event_bus.py:189-191 | what is persisted is a subsequence of what was accepted |
| BusTheorems.StepKeepsOccupancy | qtrader/core/event_bus.py:135-154 | every step keeps the occupancy bounds of queues and waiting publishers |
| BusTheorems.OccupancyByPriority | qtrader/core/event_bus.py:135-154 | each queue holds at most warning+1 LOW events and, with warning <= throttle, at most throttle+1 non-CRITICAL ones |
| BusTheorems.OnlyCriticalWaits | qtrader/core/event_bus.py:135-154 | with thresholds below the capacity only CRITICAL publishers ever wait for room |
| BusTheorems.CriticalIsNeverDropped | qtrader/core/event_bus.py:129-154 | in every run the copies of a CRITICAL event accepted or waiting for room are exactly its publications while the bus was running; of no event are there more |
| BusAccounts.ShedsExactly | qtrader/core/backpressure_controller.py:41-85 | which types are CRITICAL and LOW, and at what queue length each of the others is shed |
| BusAccounts.PublicationsAccounted | qtrader/core/event_bus.py:129-169 | in every run accepted, waiting and dropped events number the live publications, and the dropped ones those that met a too long queue |
| BusAccounts.KeptExactly | qtrader/core/event_bus.py:129-169 | of any event the copies kept are its live publications less those that met a queue longer than its type allows |
| BusAccounts.CalmRunsKeepEverything | qtrader/core/event_bus.py:135-163 | in a run whose queues stay short enough for an event's type all its live publications are kept |
| BusAccounts.WaitsExactlyWhenFull | qtrader/core/event_bus.py:153-154 | a publication that is not shed waits exactly when its queue is full, and else is the last of it |
| BusAccounts.AdmittedExactly | qtrader/core/event_bus.py:153-154 | a waiting publisher gets in exactly when there is room |
| BusAccounts.WorkerDrains | qtrader/core/event_bus.py:171-202 | from every reachable state of a running bus one worker's steps lead to an empty queue and everything accepted there delivered |
| BusAccounts.PersistedExactly | qtrader/core/event_bus.py:189-191 | persisted are exactly the events whose append succeeded, in order |
| BusAccounts.ProcessedExactly | qtrader/core/event_bus.py:193-197 | the processed counter counts exactly the finished events that were not lost to the store |
| BusAccounts.CancelledExactly | qtrader/core/event_bus.py:98-110 | abandoned are exactly the events that a stop found in a worker's hand |
| BusAccounts.RunsBetweenStartAndStop | qtrader/core/event_bus.py:76-120 | the bus runs, and its configured bridge is up, exactly from a start to the next stop |
| EventBus.Bus.constructor | qtrader/core/event_bus.py:51-74 | an empty stopped bus satisfies the invariant |
| EventBus.Bus.Start | qtrader/core/event_bus.py:76-96 | one idle worker per partition, once |
| EventBus.Bus.Stop | qtrader/core/event_bus.py:98-120 | workers are cancelled, queues are kept |
| EventBus.Bus.Publish | qtrader/core/event_bus.py:122-169 | the verdict and the whole new state; only an accepted event enters the log |
| EventBus.Bus.AdmitWaiter | qtrader/core/event_bus.py:153-160 | a waiting publisher puts its event exactly when there is room |
| EventBus.Bus.Put | qtrader/core/event_bus.py:153-160 | the event joins its queue, and a broadcast is scheduled exactly for local events while the bridge is up |
| EventBus.Bus.WorkerTakes | qtrader/core/event_bus.py:180-181 | the oldest queued event, and no other, moves into the worker's hand |
| EventBus.Bus.WorkerDelivers | qtrader/core/event_bus.py:183-187 | the next handler in order gets its turn |
| EventBus.Bus.WorkerFinishes | qtrader/core/event_bus.py:189-202 | the event is persisted and counted, or left uncounted when the store fails |
| EventBus.SafeDeliver | qtrader/core/event_bus.py:245-264 | the handler is called until its first success, at most max_retries+1 times; attempt numbers follow |
| Bridge.PublishedOnceBroadcastOnce | qtrader/core/event_bus.py:153-163 | in a network of any size an event published once leads to at most one broadcast, sent or lost, and at most one remote copy per bus |
| Bridge.AnnouncedAreLocals | qtrader/core/event_bus.py:153-163 | in every run without a stop the announcements are exactly the accepted local events, in order, each once |
| Bridge.BroadcastsAreAnnouncements | qtrader/core/event_bus.py:156-160 | the broadcasts, sent or failed, are exactly the announcements that have left an outbox |
| Bridge.DrainedMeansBroadcast | qtrader/core/event_bus.py:156-160 | with empty outboxes every event has been sent or lost as often as it was announced |
| Bridge.ExactlyOneBroadcast | qtrader/core/event_bus.py:153-163 | for an event published once and accepted under the bridge exactly one broadcast was then made |
| Reception.InboxExactly | qtrader/core/event_bus.py:204-216 | for every bus and kind of message: in the inbox, read, and missed by stopping is what was broadcast while it listened |
| Reception.SentExactly | qtrader/core/event_bus.py:156-160 | what was sent is what successful broadcasts sent |
| Reception.ListenerHearsEverything | qtrader/core/event_bus.py:209-216 | a bus that listens throughout hears every broadcast, whichever bus made it |
| Reception.RemoteCopiesExactly | qtrader/core/event_bus.py:212-238 | the remote copies a bus holds are the messages it read, decoded and did not shed, and what was published there as remote |
| Reception.ReceivedExactlyOnce | qtrader/core/event_bus.py:156-238 | an event broadcast once while a bus listened, with its inbox read and nothing damaged or shed, is held there in exactly one remote copy |
| Echo.NetworkKeepsInvariant | qtrader/core/event_bus.py:76-243 | every bus of a network keeps the account of acceptance, delivery and persistence, so the order results hold for it |
| Echo.NoBridgeNoTraffic | qtrader/core/event_bus.py:88-94 | without a configured bridge nothing is ever announced, sent, lost or received |
| Echo.AcceptedAtMostTwice | qtrader/core/event_bus.py:153-238 | a bus accepts an event published once at most twice, and at most once without the bridge |
| Echo.EchoIsHandled | qtrader/core/event_bus.py:153-238 | a reachable run in which a handler gets an event published once a second time |
| Echo.SenderHearsItself | qtrader/core/event_bus.py:153-238 | some run shows an event published once to a handler twice exactly when the bridge is configured |
| Bridge.SendWorks | qtrader/core/event_bus.py:156-160 | a broadcast uses up outstanding bridge work |
| Bridge.ReceiveWorks | qtrader/core/event_bus.py:212-238 | so does a reception, because the remote copy is not announced again |
| Bridge.CirculationTerminates | qtrader/core/event_bus.py:153-243 | in every run broadcasts and receptions number at most n+1 per local publication |
| PreTradeRisk.BufferCount | qtrader/execution/pre_trade_risk.py:73-212 | with an ordered clock the last k timestamps count min(full count, k) recent submissions |
| PreTradeRisk.BufferRefinesHistoryExactly | qtrader/execution/pre_trade_risk.py:73-212 | the bounded deque decides as the full history does exactly when the limit is below its capacity |
| PreTradeRisk.RecentIsCardinality | qtrader/execution/pre_trade_risk.py:197-206 | a window counts the submissions in it, its far end excluded |
| PreTradeRisk.ApprovedInInterval | qtrader/execution/pre_trade_risk.py:194-212 | limits on what each approval looks back on bound the approvals of every half-open interval |
| PreTradeRisk.RunWithinLimits | qtrader/execution/pre_trade_risk.py:194-215 | in every run of submissions decided on the bounded deque each approval was within both limits over the full history |
| PreTradeRisk.RateLimitsHold | qtrader/execution/pre_trade_risk.py:73-215 | with an ordered clock and limits below 10000, in every run any half-open second and minute hold at most the configured number of approved orders |
| PreTradeRisk.ReportedExactlyWhenBroken | qtrader/execution/pre_trade_risk.py:142-212 | a check is reported exactly when its limit is broken, rates counted over the full history |
| PreTradeRisk.ApprovedMeansEveryLimit | qtrader/execution/pre_trade_risk.py:142-215 | nothing is reported exactly when every limit is respected |
| PreTradeRisk.SaneExactly | qtrader/execution/pre_trade_risk.py:142-192 | checks 2 to 6 find nothing exactly when quantity, value, price, resulting position and its share are within bounds, per side and without quotients |
| PreTradeRisk.PreTradeRiskValidator.constructor | qtrader/execution/pre_trade_risk.py:69-89 | the empty history satisfies the invariant |
| PreTradeRisk.PreTradeRiskValidator.CountRecent | qtrader/execution/pre_trade_risk.py:197-206 | the counting loop of a window |
| PreTradeRisk.PreTradeRiskValidator.OrderChecks | qtrader/execution/pre_trade_risk.py:142-192 | the broken limits among checks 2 to 6, in order |
| PreTradeRisk.PreTradeRiskValidator.Remember | qtrader/execution/pre_trade_risk.py:195-196 | the deque stays the tail of the full history |
| PreTradeRisk.PreTradeRiskValidator.ValidateOrder | qtrader/execution/pre_trade_risk.py:110-233 | one step of the run: verdict, history and tallies; with limits below the capacity the failures are those of the full history |
| PreTradeRisk.PreTradeRiskValidator.CountReasons | qtrader/execution/pre_trade_risk.py:216-220 | each reason's tally rises by its number of occurrences |
| ShadowPnl.AveragingIsExact | qtrader/execution/shadow_engine.py:232-237 | after averaging in, the position at cost is worth the old one plus the fill |
| ShadowPnl.ReducingIsExact | qtrader/execution/shadow_engine.py:223-229 | a reduction realizes or pays what the position loses at cost, up to the crossing error |
| ShadowPnl.FillGap | qtrader/execution/shadow_engine.py:213-239 | one fill moves the gap between the two accounts by exactly its crossing error |
| ShadowPnl.FillIsExactIff | qtrader/execution/shadow_engine.py:213-239 | a fill books exactly unless it crosses zero at a price other than the cost basis |
| ShadowPnl.PositionIsNetBought | qtrader/execution/shadow_engine.py:216-239 | after any fills every symbol's position is what was bought less what was sold of it |
| ShadowPnl.FillSplits | qtrader/execution/shadow_engine.py:221-237 | only a reduction realizes, what it closes and in the right direction, leaving the basis; anything else averages the basis; other symbols are untouched |
| ShadowPnl.PnlIdentity | qtrader/execution/shadow_engine.py:204-239 | over any fills, in any symbols, cash flow + positions at cost - realized is the sum of the crossing errors |
| ShadowPnl.FlatMeansRealized | qtrader/execution/shadow_engine.py:213-239 | once all is flat, realized PnL is the cash flow less the crossing errors |
| ShadowPnl.NoCrossingNoError | qtrader/execution/shadow_engine.py:213-239 | without crossings that sum is 0 |
| ShadowPnl.NeverOffExactly | qtrader/execution/shadow_engine.py:213-239 | the sum is 0 after every fill exactly when no fill crosses zero at a price other than the cost basis |
| ShadowPnl.ReportedPnl | qtrader/execution/shadow_engine.py:197-211 | realized + unrealized is cash flow + net bought quantities at the mid price, less the crossing errors |
| ShadowPnl.ReportedAgainstOwnMarks | qtrader/execution/shadow_engine.py:197-211 | marking every symbol at the ticked mid price is right for all marks of the others, up to the crossing errors, exactly when every other symbol is flat |
| ShadowPnl.OneSymbolExactIff | qtrader/execution/shadow_engine.py:197-239 | for one symbol the report is exact after every fill exactly when no fill crosses zero at a price other than the cost basis |
| ShadowPnl.CrossingMisreports | qtrader/execution/shadow_engine.py:213-239 | a concrete crossing that misreports 10 |
| ShadowPnl.OtherSymbolsMisreport | qtrader/execution/shadow_engine.py:203-208 | two symbols worth what they cost, reported as a gain of 90 |
| ShadowPnl.ShadowEngine.UpdateShadowInventory | qtrader/execution/shadow_engine.py:213-239 | positions, cost basis and realized PnL after a fill |
| ShadowPnl.ShadowEngine.OnMarketData | qtrader/execution/shadow_engine.py:197-211 | unrealized and total PnL at the tick's mid price |
| ShadowPnl.MidPriceExactly | qtrader/execution/shadow_engine.py:199-201 | there is a mid price exactly when both sides are quoted, and it lies midway |
| ShadowPnl.SumGains | qtrader/execution/shadow_engine.py:203-208 | the loop over the dictionary, in any order, sums every open position's gain |
| PositionLimiter.ExposureAfterFill | qtrader/compliance/position_limiter.py:75-78 | the incremental aggregate is the exposure of the book after the fill |
| PositionLimiter.FaithfulGate | qtrader/compliance/position_limiter.py:61-84 | for a faithful report each of the three decisions is made exactly when the book after the fill calls for it |
| PositionLimiter.AllowedInNumbers | qtrader/compliance/position_limiter.py:61-84 | the decision from the position held, the position after the fill and the exposure, per side |
| PositionLimiter.PositionsAreNet | qtrader/compliance/position_limiter.py:61-84 | over any orders positions move by what the allowed ones bought, net, and by nothing else |
| PositionLimiter.FalseReportBound | qtrader/compliance/position_limiter.py:61-84 | whatever is reported, an allowed order leads at most to the account limit or the present exposure, plus twice the error of the report |
| PositionLimiter.Limiter.Aggregate | qtrader/compliance/position_limiter.py:76 | the sum of absolute positions, in any order |
| PositionLimiter.Limiter.ValidateOrder | qtrader/compliance/position_limiter.py:42-84 | the decision for any report, and the violation counters |
| PositionLimiter.Limiter.RecordViolation | qtrader/compliance/position_limiter.py:86-92 | counter and breached symbols |
| PositionLimiter.FillNeverWorsens | qtrader/compliance/position_limiter.py:61-84 | an approved fill raises no excess over a limit |
| PositionLimiter.ExcessNeverGrows | qtrader/compliance/position_limiter.py:61-84 | from any starting book, over any orders, neither a symbol's nor the account's excess ever grows |
| PositionLimiter.LimitsHoldForever | qtrader/compliance/position_limiter.py:61-84 | limits that hold, hold forever |
| FailFast.OnlyFatalHalts | qtrader/core/fail_fast_engine.py:48-69 | exactly fatal and unclassified errors halt; escalation never does |
| FailFast.FailFastEngine.HandleError | qtrader/core/fail_fast_engine.py:48-69 | response, windows and both counters |
| FailFast.FailFastEngine.ApplyEscalation | qtrader/core/fail_fast_engine.py:71-95 | the window after the error, and whether it is escalated |
| FailFast.OwnErrorFits | qtrader/core/fail_fast_engine.py:78-95 | an error of the source keeps the bound on an interval that meets at most two windows |
| FailFast.StepKeepsTwoWindows | qtrader/core/fail_fast_engine.py:78-95 | every error keeps it |
| FailFast.EscalationBound | qtrader/core/fail_fast_engine.py:71-95 | any closed interval no longer than the window holds at most 2*max_retries unescalated recoverable errors of a source |
| FailFast.WindowCounts | qtrader/core/fail_fast_engine.py:78-86 | inside a window the state counts the source's own errors, whatever other errors come in between |
| FailFast.WindowStart | qtrader/core/fail_fast_engine.py:78-86 | a window starts at a source's first error, or at the error that found the old one expired |
| FailFast.FirstRetriesPass | qtrader/core/fail_fast_engine.py:78-95 | from the error that opens a window on, an own error passes exactly when fewer than max_retries own errors came before it |
| FailFast.LaterRetriesPass | qtrader/core/fail_fast_engine.py:78-95 | the same from any point inside a window |
| FailFast.SourcesAreIndependent | qtrader/core/fail_fast_engine.py:75-86 | other sources and other kinds of error leave a source's window alone |
| Reporting.InvestorReporting.GenerateAnalytics | qtrader/analytics/reporting.py:47-95 | the one-pass loop computes returns and running drawdown; too few points change nothing |
| Reporting.RunningBounds | qtrader/analytics/reporting.py:68-73 | the running drawdown bounds every decline from the peak of its time |
| Reporting.RunningAttained | qtrader/analytics/reporting.py:68-73 | and is one of them |
| Reporting.ShareOf | qtrader/analytics/reporting.py:70-72 | a decline is the share of a positive peak that is gone, and 0 for any other peak |
| Reporting.ReturnsExactly | qtrader/analytics/reporting.py:60-66 | each return is the move as a fraction of a positive NAV, and 0 after any other |
| Reporting.OnePassIsMaxExactly | qtrader/analytics/reporting.py:56-73 | for any NAVs, the one-pass drawdown is the attained maximum over all pairs exactly when each fall from a positive to a negative NAV is matched by one below zero from the peak of its time |
| Reporting.OnePassIsMaxOverPairs | qtrader/analytics/reporting.py:56-73 | so it is for NAVs that are not negative |
| Reporting.DrawdownIsAFraction | qtrader/analytics/reporting.py:68-73 | for positive NAVs it lies in [0, 1) |
| Reporting.NegativeNavBreaksTheMaximum | qtrader/analytics/reporting.py:68-73 | a concrete history with a negative NAV where it is not the maximum |
| Reporting.DrawdownIsScaleFree | qtrader/analytics/reporting.py:56-73 | scaling all NAVs leaves the drawdown unchanged |
| Reporting.ReturnsCompound | qtrader/analytics/reporting.py:60-66 | compounding the returns leads from the first NAV exactly to the last |
| Replication.StateReplicator.PublishState | qtrader/core/state_replication.py:67-102 | a primary publishes exactly the snapshot; any other role publishes nothing |
| Replication.StateReplicator.ReceiveState | qtrader/core/state_replication.py:104-151 | accepted exactly when the recomputed checksum matches; counters and times |
| Replication.StateReplicator.ReceiveHeartbeat | qtrader/core/state_replication.py:157-160 | heartbeat time and peer |
| Replication.StateReplicator.CheckFailoverNeeded | qtrader/core/state_replication.py:162-176 | the exact failover condition |
| Replication.StateReplicator.ExecuteFailover | qtrader/core/state_replication.py:178-201 | the node is primary afterwards; counted once, and not at all for a primary |
| Replication.StandbyFollowsPrimary | qtrader/core/state_replication.py:104-151 | over an in-order lossy, damaging channel the standby applies only published snapshots, undamaged, in publication order |
| Replication.UndamagedExactly | qtrader/core/state_replication.py:120-129 | it applies exactly the arrivals that were not damaged |
| Replication.StandbyVersionsIncrease | qtrader/core/state_replication.py:104-151 | applied versions increase strictly when published ones do |
| Replication.VerifiedIsPublishedIff | qtrader/core/state_replication.py:120-129 | a verified snapshot was published exactly when its checksum is that of a published one |
| Replication.SilenceIsMeasured | qtrader/core/state_replication.py:157-176 | until a takeover the standby's clock measures exactly the time since the last heartbeat, read off the events |
| Replication.TakeoverExactly | qtrader/core/state_replication.py:162-201 | in every run the standby takes over exactly when some check met a silence longer than the threshold, and once at most |
| Replication.SplitBrainExactly | qtrader/core/state_replication.py:162-201 | a run ends with two live primaries exactly when the primary has not crashed and some check met an overdue heartbeat |
| Replication.NeverTwoPrimaries | qtrader/core/state_replication.py:157-201 | if up to its crash the primary is never silent for longer than the threshold, no point of the run has two live primaries |
| Replication.HeardExactly | qtrader/core/state_replication.py:131-160 | there is a last heartbeat exactly when one arrived before the primary crashed |
| Replication.ReplacedExactlyWhenHeard | qtrader/core/state_replication.py:162-201 | waiting past the threshold and checking makes the standby primary exactly when it ever heard a heartbeat |
| Replication.SilentPrimaryIsNeverReplaced | qtrader/core/state_replication.py:162-176 | without any heartbeat no events make the standby primary |
| StateStore.MoveOne | qtrader/core/state_store.py:263-283 | the incremental update of the position map, all four branches |
| StateStore.AverageCarriesCostExactly | qtrader/core/state_store.py:264-275 | the average price carries the cost of position and trade exactly when the trade adds to the position |
| StateStore.ReductionRaisesAverage | qtrader/core/state_store.py:264-275 | selling half a position at its cost of 100 raises its average to 300 |
| StateStore.Store.PublishIfPrimary | qtrader/core/state_store.py:289-292 | one snapshot of the present state if the node is primary, none otherwise |
| StateStore.Store.SetPosition | qtrader/core/state_store.py:233-250 | the write, its refusal at capacity, and what it publishes |
| StateStore.Store.UpdatePosition | qtrader/core/state_store.py:252-287 | the write and what it publishes |
| StateStore.Store.AppendToEquityCurve | qtrader/core/state_store.py:315-321 | the bounded deque keeps the latest points; version and publication |
| StateStore.Store.SetOrder | qtrader/core/state_store.py:328-340 | the write, its refusal at capacity, and what it publishes |
| StateStore.Store.RemoveOrder | qtrader/core/state_store.py:342-348 | the order is gone, a new version is published even if it was unknown |
| StateStore.Store.SetPortfolioValue | qtrader/core/state_store.py:299-308 | the write and what it publishes |
| StateStore.Store.WriteRisk | qtrader/core/state_store.py:355-360 | a new version and no snapshot |
| StateStore.Store.UpdatePerformanceMetrics | qtrader/core/state_store.py:413-422 | one basis point of the traded value is added; a new version and no snapshot |
| StateStore.PublishedVersionsIncrease | qtrader/core/state_store.py:233-348 | published versions strictly increase, one per accepted publishing write of a primary; the version counts the accepted writes |
| StateStore.SnapshotIsTheStore | qtrader/core/state_store.py:289-292 | after an accepted telling write of a primary the latest snapshot is the store's version, positions, orders and value |
| StateStore.OthersPublishNothing | qtrader/core/state_store.py:355-422 | risk and performance writes, and writes of other roles, publish nothing |
| StateStore.QuantitiesAreExact | qtrader/core/state_store.py:233-285 | in every run the quantity of a symbol is the last one set plus the deltas since |
| StateStore.UpdateTouchesOneSymbol | qtrader/core/state_store.py:262-283 | an update opens at its price, closes at quantity 0, and touches no other symbol |
| StateStore.SetStoresThePosition | qtrader/core/state_store.py:233-244 | a position that is set is stored as it is, unless the store is full |
| StateStore.OrdersAreExact | qtrader/core/state_store.py:328-348 | in every run an order is active exactly as the last accepted word on it says |
| StateStore.CurveIsLatest | qtrader/core/state_store.py:315-321 | the equity curve is the latest of all points appended |
| StateStore.PortfolioValueIsExact | qtrader/core/state_store.py:299-422 | the portfolio value is the last one set plus a basis point of everything traded since |
| StateStore.StandbyNeverGoesBack | qtrader/core/state_store.py:289-292 | a standby fed by this store over the channel applies strictly increasing versions |
| StateStore.WriteKeepsBounds | qtrader/core/state_store.py:315-348 | every write keeps orders and equity curve within their limits |
| StateStore.OrdersAndCurveStayBounded | qtrader/core/state_store.py:315-348 | in every run they stay within their limits |
| StateStore.PositionLimitExactly | qtrader/core/state_store.py:233-285 | the position limit is kept exactly unless an incremental update opens a new symbol at capacity |
| StateStore.PositionLimitFails | qtrader/core/state_store.py:262-285 | a reachable store with two positions and room for one |

## Left out

- Rounding: decimals and binary floats are exact reals, so rounding, infinities and NaN are not modelled.
- OrderBook.SimulateOrder: a limit order without a price, on which the source raises an error, is not expressible; latency and the event's constant fields are dropped.
- Signal generation (RSI, moving averages): only its result is an input, with strength in [0.5, 0.8).
- The engine's position dictionaries: every managed operation trades BTC-USD, so each is one sequence of lots; a mid-close error for a lot of quantity zero, which no run reaches, is a zero percentage here.
- `FillMixin` (external fills): it does not touch cash, so the ledger theorems do not extend to it.
- Open shorts: lots keep positive quantities, so `equity` values an open short as a long; this is kept, and the theorems do not depend on it.
- Snapshots for display, persistence tasks, logging, alerts, time formatting and identifiers; a lot's identifier is a counter.
- PaperEngine.PaperTradingEngine.RunContinuous: the passes made before another call are a finite list, calls between passes are the other inputs of `PaperSpec.Step`, and an error can abandon a pass after an exit but not inside the settlement of a close or an entry.
- PaperEngine.PaperTradingEngine.HandleMarketEvent: the time of the last external tick is not kept; both branches that read it record the price alike.
- Subscribing and unsubscribing while the bus runs: the subscribers of a type are fixed during a run.
- EventBus.Bus.Stop: cancellation and closing are one atomic step, and a cancellation in the middle of a store append is not modelled.
- EventBus.SafeDeliver: a handler's outcome (success, error or timeout) is a function of the attempt; elapsed time is not modelled.
- md5 is a parameter of the model, any total function on keys; `reject_threshold` and the throttle hint are never used by the bus and are dropped.
- PreTradeRisk.PreTradeRiskValidator.ValidateOrder: the clock is taken as non-decreasing; the setters and the telemetry report are left out, and every field they set is arbitrary between calls.
- Shadow fill generation, matching with live fills, and the data lake.
- PositionLimiter.LimitsHoldForever: orders are approved and filled one at a time; approvals that overlap before their fills are not modelled.
- The process exit of the fail-fast engine when no orchestrator is attached.
- FailFast.EscalationBound: clock readings are taken as non-decreasing.
- Reporting.InvestorReporting.GenerateAnalytics: Sharpe ratio, volatility and annualised return, which need square roots, and the rounding of the report.
- Redis synchronisation, getters and timestamps of the state store; its snapshot leaves out cash and the risk figures.
- Replication.StandbyFollowsPrimary: checksums arrive as sent, and different snapshots among those published or received are taken not to share one (the source truncates SHA-256 to 64 bits).
- Replication.NeverTwoPrimaries: one primary and one standby; a crash is permanent and failover runs only after the check, since on its own it is unconditional.
- Strategies, market making, smart routing, alpha and feature code, drift detection, storage, HTTP and WebSocket services.
