# A verified model of the rotala exchanges and the alator client

rotala replays recorded quotes to trading strategies: a server keeps independent backtests, each a
simulated exchange with a clock over a dataset; clients submit orders, tick the clock and are told
what traded. alator is a client of it: a broker that tracks cash, holdings and pending orders
against the exchange, and a fixed-weight strategy on top. This project models

- the dataset and its date index (`Penelope.dfy`),
- the Uist exchange (`Uist.dfy`) and the server around it (`UistServer.dfy`), with isolation of
  backtests (`Isolation.dfy`) and absence of lookahead (`NoLookahead.dfy`) over every interleaving,
- an account of every Uist order's life (`UistLives.dfy`) and what the server answers
  (`UistAnswers.dfy`),
- the alator broker: costs and sizing (`Costs.dfy`, `Rebalance.dfy`), its operations on values
  (`Broker.dfy`), agreement with the exchange (`BrokerLedger.dfy`) over whole runs
  (`BrokerRuns.dfy`), liquidation (`Liquidation.dfy`), when holdings stay non-negative
  (`Holdings.dfy`), cost basis (`CostBasis.dfy`), where the value of a portfolio comes from
  (`Accounting.dfy`), and the broker object itself (`UistBroker.dfy`); `Samples.dfy` holds the
  concrete states that the inputs below start from,
- the strategy and its clock (`StaticWeight.dfy`) and the cash flow it records (`CashFlow.dfy`),
- the Jura exchange (`Jura.dfy`, `JuraExchange.dfy`), an independent account of every order's life (`JuraLedger.dfy`),
  and what follows from it (`JuraLives.dfy`),
- maximum drawdown (`Drawdown.dfy`) and the last-business-day rule (`Schedule.dfy`).

Code that updates state in place is a class whose methods are proved equal to a specification
function on the view of the object; the results about runs are lemmas about those functions. Two
shared files hold the buffer sort of both exchanges (`Sorting.dfy`) and small helpers
(`Prelude.dfy`). `dafny verify dfyconfig.toml` checks everything.

Prices, quantities and cash are reals; ids are unbounded naturals; a hash map's iteration order is
an arbitrary enumeration of its keys, either chosen by the method or a parameter of the
specification. A request is one atomic step of the server. The broker drives its own backtest through
the in-process client, whose orders take effect at once.

## Where the code and its comments differ

The model follows the code.

- `init` hands out the next id without allocating it, so the next creation replaces the backtest
  (rotala/src/http/uist.rs:88-103; `Isolation.InitIsReplaced`).
- A limit sell or a stop buy without a price always trades, since a missing price compares below
  every price (rotala/src/exchange/uist_v1.rs:308-326; `Uist.FillHonoursOrder`).
- A Jura immediate-or-cancel order that does not fill on its first quote is not cancelled then but on
  its second quoted tick (rotala/src/exchange/jura_v1.rs:532-556; `Jura.IocStaysWhen`, `JuraLives.IocLeavesInTime`).
- Triggered Jura orders are said to join the front of the queue; they join the back of the book, ahead
  of the buffer (rotala/src/exchange/jura_v1.rs:658-663; `Jura.TriggeredJoinBack`).
- The sell-side trigger comparisons run against their comments
  (rotala/src/exchange/jura_v1.rs:601-602, 630-631): for sells code and comments agree exactly when
  the bid is the trigger price (`Jura.TriggersAsDescribed`, `Jura.SellStopExample`).
- A liquidation can debit cash and still report failure
  (example_clients/alator/src/broker/mod.rs:652-657; `LiquidationBounds.FailedLiquidationTakesCash`).
- Orders towards target weights reverse direction when costs exceed the difference, and when a
  per-share cost exceeds the bid (example_clients/alator/src/broker/mod.rs:725-771;
  `Rebalance.DirectionFollowsDifference`); the pass stops at the first symbol already on target
  (`Rebalance.PlanIsFullWhen`, `Rebalance.SkippedExample`), and plans ignore what is pending
  (`Rebalance.PlansIgnorePending`, `StaticWeight.UnfilledPlansAddUp`).
- Leaving a position may ask for more shares than are held, which the broker refuses
  (example_clients/alator/src/broker/mod.rs:725-732; `Rebalance.TrimFitsWhen`,
  `Rebalance.ExitRefused`, `Rebalance.ExitRefusedBelowZero`).
- Trade costs size orders but are never charged to cash, which moves by the value of trades alone
  (example_clients/alator/src/broker/uist.rs:235-240; `Accounting.ChargesAreNotPaid`,
  `Accounting.ChargeIsNotPaid`).
- Holdings may go negative: a sale of a symbol not held is accepted, and sales on their way are not
  counted against a holding, so it can be sold twice
  (example_clients/alator/src/broker/mod.rs:681-695; `Holdings.NakedSaleInput`,
  `Holdings.SoldTwiceInput`). `Holdings.NextHoldingIsLong` says when the next settlement keeps a
  holding non-negative and `Holdings.StaysLong` which runs do.
- The recorded net cash flow is the client's money only under the conditions of
  `CashFlow.RecordFollowsWhen` (example_clients/alator/src/strategy/staticweight.rs:147-175). A
  deposit adds the flow to itself, so it stays at zero until the first payout and doubles that
  afterwards (`CashFlow.DepositDoublesPayout`), even when a failed broker refuses the money
  (`CashFlow.RefusedDepositIsRecorded`). A liquidation reported successful is recorded as paid,
  although it has only queued sales and no cash moves (`CashFlow.LiquidationIsNotPaid`); one
  reported failed may be debited, which is not recorded (`CashFlow.DebitIsNotRecorded`).
- The positions returned with the maximum drawdown are said to be its start and end; they are the
  overall maximum and the minimum after it (example_clients/alator/src/perf/mod.rs:60-84;
  `Drawdown.PositionsRealiseDepth`, `Drawdown.PositionsExample`).

## Model

| member | source | states |
|---|---|---|
| `Penelope.Penelope.AddQuote` | rotala/src/input/penelope.rs:61-77 | The new dataset is the old one with the quote filed under its date and symbol; an unseen date also joins the date list. |
| `Penelope.LoadIsCoherent` | rotala/src/input/penelope.rs:61-77 | Whatever is added in whatever order, the date list and the rows never drift apart: every listed date has a non-empty row, every row is listed once, and rows hold quotes of their own date and symbol. |
| `Penelope.AddQuoteChronological` | rotala/src/input/penelope.rs:61-77 | Adding a quote keeps the dates sorted if and only if its date is already listed or later than every listed one. |
| `Penelope.LoadInOrderIsChronological` | rotala/src/input/penelope.rs:61-77 | Quotes added in date order give a sorted date list. |
| `Penelope.LoadKeepsLastQuote` | rotala/src/input/penelope.rs:61-77 | A row holds a symbol if and only if a quote for that date and symbol was added, and then the one added last. |
| `Sorting.SortBy` | rotala/src/exchange/uist_v1.rs:171-178 | The insertion sort under a comparator that ignores its second argument, equal to the front-first function. |
| `Sorting.FrontFirstIsPartition` | rotala/src/exchange/uist_v1.rs:171-178 | That function is a permutation in which everything the comparator calls less precedes everything else. |
| `Sorting.FrontFirstOrder` | rotala/src/exchange/uist_v1.rs:171-178 | Within the two classes: what is less comes in reverse order of arrival, the rest in order of arrival. |
| `Uist.FillHonoursOrder` | rotala/src/exchange/uist_v1.rs:261-336 | A trade has the symbol, quantity and side of its order, the date and price of the quote, and respects limit or stop; a quoted order is passed over only because its price is on the wrong side, a market order never, nor a limit sell or stop buy without a price. |
| `Uist.SortedBuffer` | rotala/src/exchange/uist_v1.rs:171-178 | The sorted buffer is a permutation with all sells before all buys. |
| `Uist.DeleteAt` | rotala/src/exchange/uist_v1.rs:236-249 | The scan removes exactly the first order with the id. |
| `Uist.DeleteScansAreOneFilter` | rotala/src/exchange/uist_v1.rs:285-346 | Deleting completed ids one scan at a time equals one order-preserving filter of the book. |
| `Uist.CompletedIdsAreBookIds` | rotala/src/exchange/uist_v1.rs:285-346 | Each trade of a pass is the decision on the book order whose id is deleted for it, and no id completes twice. |
| `Uist.TickKeepsBookOk` | rotala/src/exchange/uist_v1.rs:192-207 | After every tick book ids rise strictly from front to back and stay below the next id. |
| `Uist.TickAnswers` | rotala/src/exchange/uist_v1.rs:192-207 | The trades answered are those that join the log; the inserted orders are the buffer and stand at the back of the book as answered. |
| `Uist.CancelKeepsBookOk` | rotala/src/exchange/uist_v1.rs:188-190 | Cancelling keeps that discipline and removes exactly the orders with that id. |
| `Uist.OrderBook.DeleteOrder` | rotala/src/exchange/uist_v1.rs:236-249 | The book without the first order of that id; unchanged if there is none. |
| `Uist.OrderBook.InsertOrder` | rotala/src/exchange/uist_v1.rs:251-255 | The order joins the back under the next id. |
| `Uist.OrderBook.ExecuteOrders` | rotala/src/exchange/uist_v1.rs:285-346 | Returns the trades of one pass and leaves exactly the orders that did not trade, in book order. |
| `Uist.UistV1.SortOrderBuffer` | rotala/src/exchange/uist_v1.rs:171-178 | The buffer becomes its sorted form. |
| `Uist.UistV1.InsertOrder` | rotala/src/exchange/uist_v1.rs:180-186 | The order waits at the back of the buffer; the book is untouched. |
| `Uist.UistV1.DeleteOrder` | rotala/src/exchange/uist_v1.rs:188-190 | The book loses the first order with that id; buffer and log are untouched. |
| `Uist.UistV1.Tick` | rotala/src/exchange/uist_v1.rs:192-207 | Old orders execute first, the trades are appended to the log, then the sorted buffer enters the book under fresh consecutive ids and the buffer is empty. |
| `UistLives.PassAgrees` | rotala/src/exchange/uist_v1.rs:285-346 | One pass over the book does what following every order on its own does. |
| `UistLives.DeleteAgrees` | rotala/src/exchange/uist_v1.rs:236-249 | A cancel ends exactly the life of the order with that id, if it rests. |
| `UistLives.RunAgrees` | rotala/src/exchange/uist_v1.rs:180-207 | Over every run the book is exactly the orders that an account following each order alone still has resting, and the log exactly its fills. |
| `UistLives.IdsArePartitioned` | rotala/src/exchange/uist_v1.rs:180-255 | Every id ever issued rests in the book, has a trade, or was cancelled, and book and log show it if and only if so. |
| `UistLives.NoIdTwice` | rotala/src/exchange/uist_v1.rs:285-346 | Over every run no id trades twice. |
| `UistLives.FillsTrace` | rotala/src/exchange/uist_v1.rs:285-346 | Every logged trade is what the order issued its id makes of the quotes of its tick, with its symbol, size and side, on the first tick since it entered that allowed it; the log runs by tick and then by id. |
| `UistLives.RestingMissedNothing` | rotala/src/exchange/uist_v1.rs:285-346 | An order in the book is the one issued its id, and could not have traded on any tick since it entered. |
| `UistLives.NothingIsLost` | rotala/src/exchange/uist_v1.rs:171-207 | Submitted orders are, as a multiset, those waiting in the buffer and those issued one id each. |
| `UistLives.ServedIsRun` | rotala/src/http/uist.rs:54-142 | Under every interleaving the exchange of a backtest that starts fresh is a run of what its own requests ask, so all of this holds of every backtest. |
| `UistServer.StepKeepsServerOk` | rotala/src/http/uist.rs:54-142 | Every request keeps the id discipline in every book of the server. |
| `UistServer.BacktestState.Advance` | rotala/src/http/uist.rs:54-77 | One backtest ticks: the exchange runs on the quotes of the current date only, then the clock moves, standing still on the last date while the position keeps counting; the answer is pinned by `UistAnswers.FlagIsNextDate` and `UistAnswers.TickTellsTrades`. |
| `UistServer.AppState.Create` | rotala/src/http/uist.rs:23-29 | An empty server over any datasets. |
| `UistServer.AppState.Single` | rotala/src/http/uist.rs:31-52 | One backtest with id 0 at the first date, and 1 as the last id. |
| `UistServer.AppState.Tick` | rotala/src/http/uist.rs:54-77 | The tick changes the addressed backtest and nothing else and answers as that backtest does (`UistAnswers.FlagIsNextDate`, `UistAnswers.TickTellsTrades`); unknown ids answer nothing. |
| `UistServer.AppState.FetchQuotes` | rotala/src/http/uist.rs:79-86 | The quotes of the current date of the addressed backtest; nothing changes. |
| `UistServer.AppState.CurrentTime` | rotala/src/http/uist.rs:257-273 | Date and has-next flag of the addressed backtest, read at its position. |
| `UistServer.AppState.Init` | rotala/src/http/uist.rs:88-103 | A fresh backtest under the next id, which is not allocated. |
| `UistServer.AppState.InsertOrder` | rotala/src/http/uist.rs:105-111 | The order joins the buffer of the addressed backtest only. |
| `UistServer.AppState.DeleteOrder` | rotala/src/http/uist.rs:113-119 | The order leaves the book of the addressed backtest only. |
| `UistServer.AppState.NewBacktest` | rotala/src/http/uist.rs:121-142 | A fresh backtest under the next id, which becomes the last one. |
| `UistAnswers.UnknownAnswer` | rotala/src/http/uist.rs:54-119 | Requests to an unknown backtest change nothing and are answered as failures. |
| `UistAnswers.UnknownDatasetAnswer` | rotala/src/http/uist.rs:54-119 | With its dataset unknown a backtest still takes orders and answers nothing else. |
| `UistAnswers.KnownAnswer` | rotala/src/http/uist.rs:79-119 | Requests to an existing backtest succeed, change that backtest alone, and answer its quotes, date and has-next flag. |
| `UistAnswers.TickTellsTrades` | rotala/src/http/uist.rs:54-77 | A tick answers the trades that joined the log and the orders now at the back of the book. |
| `UistAnswers.CreationAnswer` | rotala/src/http/uist.rs:88-142 | Creating answers the next id if and only if the dataset is known; the id then carries an empty backtest at the first date. |
| `UistAnswers.FirstCreated` | rotala/src/http/uist.rs:23-52 | The first backtest created on an empty server is number 1; on a server that starts with number 0 it is number 2. |
| `UistAnswers.FlagIsNextDate` | rotala/src/http/uist.rs:54-77 | The flag a tick answers is true if and only if the position before it is followed by another date; a look at the clock right afterwards gives the same flag and the new date. |
| `UistAnswers.PositionCountsTicks` | rotala/src/http/uist.rs:54-77 | Whatever else is asked of the server, the position of a backtest counts its ticks. |
| `UistAnswers.FirstTicksHaveNext` | rotala/src/http/uist.rs:54-77 | From a fresh backtest over n dates exactly the first n - 1 ticks are answered that there is more, in every interleaving of requests. |
| `Isolation.Isolated` | rotala/src/http/uist.rs:54-142 | For every interleaving of requests the state and all answers of an allocated backtest equal those of a run of its own requests alone. |
| `Isolation.NewBacktestIsFresh` | rotala/src/http/uist.rs:121-142 | Without init in the run, a new backtest never gets an id in use, and is created if and only if the dataset exists. |
| `Isolation.InitIsReplaced` | rotala/src/http/uist.rs:88-103 | The id init hands out is handed out again by the next creation, which replaces the backtest whatever had been done with it. |
| `Isolation.CreationKeepsOthers` | rotala/src/http/uist.rs:88-142 | Creating a backtest leaves all existing ones alone if and only if the next id is free (or holds an identical fresh one). |
| `NoLookahead.TradesArePriced` | rotala/src/exchange/uist_v1.rs:261-346 | Every trade of a tick is dated and priced by the row of the date the tick ran on. |
| `NoLookahead.BacktestStepKeepsOk` | rotala/src/http/uist.rs:54-119 | For one backtest, every request keeps: the clock stands on the date of its position, orders in the buffer were submitted now and those in the book earlier, and every trade was made later than its order and on the prices of its own position. |
| `NoLookahead.StepKeepsSound` | rotala/src/http/uist.rs:54-142 | Every request keeps the record of submission and trade positions sound in every backtest. |
| `NoLookahead.SubmissionsAreRecorded` | rotala/src/http/uist.rs:54-77 | Each buffered order gets, at the next tick, exactly one id, recorded with the position at which it was submitted. |
| `NoLookahead.NoLookahead` | rotala/src/http/uist.rs:54-111 | For every interleaving: a trade whose order was submitted at position p is made at a later position, on that position's prices; with sorted dates it is dated at index p+1 or later, and strictly later than the submission if and only if p was not the end of the data. |
| `NoLookahead.NoLookaheadFromQuotes` | rotala/src/input/penelope.rs:61-77 | The same from raw quotes in any order; added in date order, they give sorted dates. |
| `Costs.TradeImpactTotal` | example_clients/alator/src/broker/mod.rs:273-285 | Net budget and price after all costs in order, in closed form by `Costs.NetTermsAre`. |
| `Costs.CalculateTradeCosts` | example_clients/alator/src/broker/mod.rs:422-428 | The sum of all charges on a trade. |
| `Costs.ChargesAre` | example_clients/alator/src/broker/mod.rs:244-250 | A trade is charged the sum of the per-share costs per share, the sum of the percentages of its value, and the flat costs. |
| `Costs.NetTermsAre` | example_clients/alator/src/broker/mod.rs:244-285 | For any list of costs and either side: the net budget is the gross one times what the percentages leave, less what the flat costs take, and the net price is the gross one plus or minus the sum of the costs per share. |
| `Costs.KeptAndTaken` | example_clients/alator/src/broker/mod.rs:254-271 | Without flat costs nothing is taken beyond the percentages; without percentages exactly the sum of the flat costs is. |
| `Costs.BudgetSound` | example_clients/alator/src/broker/mod.rs:244-285 | For any list of sensible costs: a quantity that fits the net budget at the net price fits the gross budget at the gross price with every charge paid, any reserve included. |
| `Costs.BudgetExactWithoutPercentages` | example_clients/alator/src/broker/mod.rs:244-285 | Without percentage costs the slack is the same before and after, so nothing affordable is turned away. |
| `BrokerLedger.TickConserves` | rotala/src/exchange/uist_v1.rs:192-207 | Per symbol, shares resting before a tick equal shares resting after it plus the net quantity traded. |
| `BrokerLedger.ReconcileEffect` | example_clients/alator/src/broker/uist.rs:235-268 | Settling trades moves cash by their proceeds, holdings and pending by their net quantities per symbol, and never leaves a zero holding. |
| `BrokerLedger.SoldLessBought` | example_clients/alator/src/broker/uist.rs:235-268 | Over any trades cash moves by what sells came to less what buys came to, and a holding by shares bought less shares sold. |
| `BrokerLedger.LastQuoteIsLatest` | example_clients/alator/src/broker/uist.rs:228-233 | The last quote of a symbol is the one at the greatest date index that quotes it. |
| `BrokerLedger.NoLastQuote` | example_clients/alator/src/broker/uist.rs:228-233 | There is none if and only if no index up to the clock quotes the symbol. |
| `BrokerLedger.HeldIsPriced` | example_clients/alator/src/broker/mod.rs:632-632 | In every state with its books in order everything held has a cached price, so the quote unwrap cannot fail. |
| `BrokerLedger.SendKeepsJointOk` | example_clients/alator/src/broker/uist.rs:118-207 | Sending keeps pending equal to what the exchange holds, and every other part of the books. |
| `BrokerLedger.SendOrdersSends` | example_clients/alator/src/broker/uist.rs:210-216 | Of a list of orders exactly those the broker accepts as it is reach the buffer, in order, and count as pending. |
| `BrokerLedger.SettleKeepsJointOk` | example_clients/alator/src/broker/uist.rs:226-269 | Settling a tick keeps the books; every trade of the exchange reaches the broker log, and cash moves by exactly those trades. |
| `BrokerLedger.QuietSettle` | example_clients/alator/src/broker/uist.rs:226-269 | A settlement without trades changes nothing but the price cache. |
| `BrokerLedger.RebalanceKeepsJointOk` | example_clients/alator/src/broker/mod.rs:563-581 | The internal rebalancing keeps the books. |
| `BrokerLedger.CheckKeepsJointOk` | example_clients/alator/src/broker/uist.rs:226-273 | A whole check keeps the books. |
| `BrokerLedger.StartsJointOk` | example_clients/alator/src/broker/uist.rs:304-337 | A fresh broker on a fresh backtest of any coherent, non-empty dataset starts with its books in order. |
| `BrokerModel.WithdrawAnswer` | example_clients/alator/src/broker/mod.rs:460-487 | A withdrawal succeeds if and only if the broker trades and has the cash, fails if and only if it trades and has not, and is an operation failure if and only if it has failed; only success moves cash. |
| `BrokerModel.DepositAnswer` | example_clients/alator/src/broker/mod.rs:489-508 | A deposit succeeds and adds to cash if and only if the broker has not failed, and is otherwise an operation failure. |
| `BrokerModel.DebitAnswer` | example_clients/alator/src/broker/mod.rs:524-540 | A debit succeeds if and only if the balance covers it, whatever the state. |
| `BrokerModel.SentWhen` | example_clients/alator/src/broker/uist.rs:118-207 | In amounts: a trading broker sends a purchase if and only if it is not for zero and cash exceeds its cost at the ask, a sale if and only if it is not for zero and the symbol is not held or held in that number; sent orders are buffered and pending, others change nothing. |
| `BrokerModel.FailedSendsNothing` | example_clients/alator/src/broker/uist.rs:118-140 | A failed broker answers every order as invalid and changes nothing. |
| `BrokerModel.UnaffordableExample` | example_clients/alator/src/broker/mod.rs:662-679 | With 100 in cash purchases of 10 and of 20 at an ask of 10 are turned down. |
| `BrokerRuns.RebalancingMovesNoCash` | example_clients/alator/src/broker/mod.rs:563-581 | Rebalancing never moves cash or holdings, does nothing for a non-negative balance, and nothing at all once failed. |
| `BrokerRuns.StepMovesCash` | example_clients/alator/src/broker/mod.rs:460-581 | One operation only extends the log, and moves cash by the client flow plus the proceeds of what it logged. |
| `BrokerRuns.CashIsAccountedFor` | example_clients/alator/src/broker/mod.rs:460-550 | Over any run cash changes by client flows plus logged sells minus logged buys. |
| `BrokerRuns.BooksAlwaysBalance` | example_clients/alator/src/broker/uist.rs:118-273 | In every reachable state, on dates in any order: broker log = trade log; pending = signed shares in buffer and book; holdings = net logged quantity, absent exactly when zero; cache = last quotes; everything held is priced; cash is accounted for. |
| `BrokerRuns.TickKeepsOrders` | rotala/src/exchange/uist_v1.rs:192-207 | A tick loses and invents no order: what rested is what still rests plus what was executed, trade for order. |
| `BrokerRuns.FailedRequest` | example_clients/alator/src/broker/uist.rs:121-130 | Asked for anything but a check, a failed broker changes nothing but its cash, by the client flow. |
| `BrokerRuns.FailedForGood` | example_clients/alator/src/broker/uist.rs:121-130 | Once failed, in every continuation, liquidations included, the broker stays failed, nothing it is asked for reaches the exchange, resting orders only leave by fills, and cash moves only by those fills and the client flows, which are zero without liquidations. |
| `BrokerRuns.FailedLiquidation` | example_clients/alator/src/broker/mod.rs:591-660 | A liquidation asked of a failed broker sends nothing, and takes cash if and only if it reports failure, is covered by the cash at hand and is not for nothing. |
| `LiquidationBounds.ValuesIgnoreOrder` | example_clients/alator/src/broker/mod.rs:338-357 | Total and liquidation value do not depend on the order in which holdings are visited. |
| `LiquidationBounds.LiquidationValueIs` | example_clients/alator/src/broker/mod.rs:326-357 | For any costs: cash plus what the percentages leave of the positions, less the flat costs once for each position. |
| `LiquidationBounds.PercentageExample` | example_clients/alator/src/broker/mod.rs:326-357 | 10 shares at 100 with 1% costs are worth 990 after costs, and a liquidation for 995 is turned down. |
| `LiquidationBounds.LiquidationSucceedsWhen` | example_clients/alator/src/broker/mod.rs:591-660 | A liquidation succeeds if and only if the request is covered by the liquidation value and by the positions alone. |
| `LiquidationBounds.SuccessfulLiquidation` | example_clients/alator/src/broker/mod.rs:591-660 | A success queues sells only, one a symbol, none above its holding, worth at most the request at current bids and short of it by at most the shares of the last order; no cash moves. |
| `LiquidationBounds.RoundedUp` | example_clients/alator/src/broker/mod.rs:634-635 | The price is rounded up to the next whole number, and not at all when it is one. |
| `LiquidationBounds.WholePricesAreExact` | example_clients/alator/src/broker/mod.rs:628-640 | At whole bids a successful liquidation queues sells worth exactly the request. |
| `LiquidationBounds.FailedLiquidationTakesCash` | example_clients/alator/src/broker/mod.rs:596-604 | A failed liquidation changes nothing if and only if the request exceeds the cash at hand or is zero; otherwise it debits the request. |
| `LiquidationBounds.CashOnlyLiquidationFails` | example_clients/alator/src/broker/mod.rs:645-658 | With cash and no positions every positive request up to the cash balance fails and is debited. |
| `LiquidationBounds.RebalancingFailsWhen` | example_clients/alator/src/broker/mod.rs:563-581 | For long positions at positive bids a trading broker is failed if and only if its cash is negative and the value after costs is below shortfall plus 1000, or the total value below 1000. |
| `LiquidationBounds.RebalancingSells` | example_clients/alator/src/broker/mod.rs:563-581 | If a rebalancing does not fail the broker it queues sells for the shortfall and 1000 more, short by at most the shares of the last one. |
| `Holdings.CheckFailsWhen` | example_clients/alator/src/broker/uist.rs:226-273 | A check leaves the broker failed if and only if it was, or that holds of the state settled by the tick. |
| `Samples.OverspentFails` | example_clients/alator/src/broker/mod.rs:563-658 | A reachable broker that is failed: two purchases, each within the cash, leave it 800 short. |
| `Holdings.FillKeepsLong` | example_clients/alator/src/broker/uist.rs:244-252 | After one fill the holding is non-negative if and only if the order sells no more than is held at that moment; other holdings do not move. |
| `Holdings.NextHoldingIsLong` | example_clients/alator/src/broker/uist.rs:235-268 | In every reachable state the next settlement leaves a holding non-negative if and only if, the symbol being quoted, the holding and the purchases in the book cover the sales in the book; not quoted, if and only if it was. |
| `Holdings.PendingTellsOwed` | example_clients/alator/src/broker/mod.rs:396-420 | Holding plus pending never understates what is free to sell, and equals it if and only if no purchase of the symbol is outstanding. |
| `Holdings.StaysLong` | example_clients/alator/src/broker/uist.rs:118-273 | If every accepted order has a size and every sell, liquidations included, is covered by the holding beyond what outstanding sells owe, no holding is negative in any reachable state; with positive bids the liquidation bounds then apply. |
| `Holdings.NakedSale` | example_clients/alator/src/broker/mod.rs:681-695 | From any state with nothing outstanding a sale of any size of something not held is accepted, and two settlements later the holding is minus that size. |
| `Holdings.NakedSaleInput` | example_clients/alator/src/broker/mod.rs:681-695 | A concrete fresh broker that does so with 5 and ends at -5. |
| `Holdings.SoldTwice` | example_clients/alator/src/broker/mod.rs:681-695 | From any state with nothing outstanding a whole holding is accepted for sale twice in a row, and two settlements later the holding is minus itself. |
| `Holdings.SoldTwiceInput` | example_clients/alator/src/broker/mod.rs:681-695 | A concrete reachable state, after a deposit of 1000 and a purchase of 5, from which that leaves -5. |
| `CostBasis.UistBrokerLog.Record` | example_clients/alator/src/broker/uist.rs:385-388 | The trade joins the end of the log. |
| `CostBasis.UistBrokerLog.CostBasis` | example_clients/alator/src/broker/uist.rs:408-434 | The loop computes the pass with resets. |
| `CostBasis.CostBasisSinceFlat` | example_clients/alator/src/broker/uist.rs:408-434 | That pass gives net cost over net quantity since the symbol was last flat, and nothing if and only if it is flat. |
| `CostBasis.ProfitSinceFlat` | example_clients/alator/src/broker/mod.rs:313-324 | In every state with its books in order a cost basis and a profit exist if and only if the symbol is held; the profit is market value less net cost since flat. |
| `Accounting.ValueIsAccountedFor` | example_clients/alator/src/broker/mod.rs:338-347 | In every reachable state total value is the client flow plus, for every symbol ever traded, what the position is worth less its net cost. |
| `Accounting.NothingChargedWhen` | example_clients/alator/src/broker/mod.rs:422-428 | For sensible costs and trades that are not negative, charges add up to zero if and only if every trade is charged nothing. |
| `Accounting.ChargesAreNotPaid` | example_clients/alator/src/broker/uist.rs:235-240 | In every reachable state cash is the balance with all charges deducted if and only if the charges on the log add up to zero. |
| `Accounting.ChargeIsNotPaid` | example_clients/alator/src/broker/uist.rs:235-240 | A reachable broker with a flat cost of 1 that bought for 50 has 950 of 1000 left. |
| `Rebalance.BuyFitsDifference` | example_clients/alator/src/broker/mod.rs:725-738 | A purchase sized by the code costs, charges included, at most the difference it is to close. |
| `Rebalance.RequiredSharesAre` | example_clients/alator/src/broker/mod.rs:725-738 | The size is whole, and the net budget covers it but not one more at the net price; for a negative price the other way round. |
| `Rebalance.NetTermsOf` | example_clients/alator/src/broker/mod.rs:725-738 | The net terms of a trade: the difference less percentages and flat costs, at the ask plus or the bid minus the costs per share. |
| `Rebalance.NextShareDoesNotFit` | example_clients/alator/src/broker/mod.rs:725-738 | Without percentage costs the purchase is the largest: one more share would exceed the difference. |
| `Rebalance.PercentageTrimExample` | example_clients/alator/src/broker/mod.rs:725-738 | With 1% costs, leaving 10 shares at 100 asks for 9. |
| `Rebalance.SellsFirst` | example_clients/alator/src/broker/mod.rs:765-775 | A plan sends exactly its sales and purchases, and no sale after a purchase. |
| `Rebalance.DirectionFollowsDifference` | example_clients/alator/src/broker/mod.rs:725-771 | Whatever the sign of the net price, zero excepted, the order has the direction of the difference if and only if the net budget is non-negative for a positive price and non-positive for a negative one. |
| `Rebalance.FlippedExample` | example_clients/alator/src/broker/mod.rs:725-771 | A flat cost above a small difference turns the purchase into a sale and the sale into a purchase. |
| `Rebalance.FlippedByPriceExample` | example_clients/alator/src/broker/mod.rs:725-738 | A per-share cost above the bid turns a trim of 50 into a purchase of 5 shares although the net budget is positive. |
| `Rebalance.PurchasesAreCovered` | example_clients/alator/src/broker/mod.rs:710-775 | All purchases of one plan, charges included, cost at most the targeted share of the portfolio, provided trims stay sales; nothing is asked of top-ups. |
| `Rebalance.TrimBreaksBound` | example_clients/alator/src/broker/mod.rs:725-771 | For any broker with 100 in cash, 10 held at 9 and a flat cost of 50: the trim turned into a purchase spends 90 where 70 is the target. |
| `Rebalance.PlannedSalesFit` | example_clients/alator/src/broker/mod.rs:681-775 | Without per-share costs, and if no top-up is turned into a sale, every planned sale is of something held, for at most the holding, and a trading broker accepts it. |
| `Rebalance.TrimFitsWhen` | example_clients/alator/src/broker/mod.rs:725-732 | Whatever is held and whatever the sign of the net price, zero excepted: a trim asks for no more than is held if and only if the net budget stays short of (above, for a negative price) the price of one share beyond the whole shares held. |
| `Rebalance.ExitRefused` | example_clients/alator/src/broker/mod.rs:681-738 | For any broker with a per-share cost of 1 that holds 10 or 10.5 at a bid of 10, leaving the position asks for a sale of 11, which is refused. |
| `Rebalance.ExitRefusedBelowZero` | example_clients/alator/src/broker/mod.rs:681-738 | For any broker with costs that turn budget and price negative and 5 held at 9, leaving asks for 14. |
| `Rebalance.PlansIgnorePending` | example_clients/alator/src/broker/mod.rs:710-775 | A plan is the same whatever is pending. |
| `Rebalance.PlansAddUp` | example_clients/alator/src/broker/mod.rs:710-775 | What any list of plans commits together is at most the sum of their targets, one portfolio value for each; `StaticWeight.UnfilledPlansAddUp` applies it to the plans of one run. |
| `Rebalance.CommittedTwice` | example_clients/alator/src/broker/mod.rs:710-775 | With 100 in cash two plans in a row each buy for 90, and both orders are accepted. |
| `Rebalance.StopsAtFirstBalanced` | example_clients/alator/src/broker/mod.rs:745-747 | The pass ends at the first symbol already on target: the plan is that of the symbols before it. |
| `Rebalance.StopsWhenBalanced` | example_clients/alator/src/broker/mod.rs:745-747 | The pass ends at a symbol already on target if and only if there is one. |
| `Rebalance.PlanIsFullWhen` | example_clients/alator/src/broker/mod.rs:740-775 | The plan has the orders of a pass without the early end if and only if no symbol that is quoted, off target and due a non-zero number of shares comes after one on target. |
| `Rebalance.SkippedExample` | example_clients/alator/src/broker/mod.rs:745-747 | A symbol off target is skipped after one on target and bought before it, so the plan depends on the order of the map. |
| `UistBroker.UistBroker.constructor` | example_clients/alator/src/broker/uist.rs:304-337 | A fresh broker whose cache is the quotes of the current date of its backtest. |
| `UistBroker.UistBroker.WithdrawCash` | example_clients/alator/src/broker/mod.rs:460-487 | Debits and succeeds if the broker trades and has the cash; otherwise nothing changes. |
| `UistBroker.UistBroker.DepositCash` | example_clients/alator/src/broker/mod.rs:489-508 | Credits while the broker trades; otherwise nothing changes. |
| `UistBroker.UistBroker.Debit` | example_clients/alator/src/broker/mod.rs:524-540 | Debits only what is there. |
| `UistBroker.UistBroker.GetLiquidationValue` | example_clients/alator/src/broker/mod.rs:349-357 | Cash plus every position after costs; in closed form by `LiquidationBounds.LiquidationValueIs`. |
| `UistBroker.UistBroker.GetTotalValue` | example_clients/alator/src/broker/mod.rs:338-347 | Cash plus every position at the cached bid. |
| `UistBroker.UistBroker.Passes` | example_clients/alator/src/broker/mod.rs:662-704 | The checks of the code accept what the specification accepts; which orders those are, in amounts, says `BrokerModel.SentWhen`. |
| `UistBroker.UistBroker.SendOrder` | example_clients/alator/src/broker/uist.rs:118-207 | Sends and counts as pending what is accepted, and answers accordingly (`BrokerModel.SentWhen`, `BrokerModel.FailedSendsNothing`). |
| `UistBroker.UistBroker.SendOrders` | example_clients/alator/src/broker/uist.rs:209-216 | The orders one after another; the events tell, order by order, whether the broker as it was accepts it. |
| `UistBroker.UistBroker.PlanSales` | example_clients/alator/src/broker/mod.rs:612-643 | The loop over positions with its early exit computes the liquidation plan. |
| `UistBroker.UistBroker.WithdrawCashWithLiquidation` | example_clients/alator/src/broker/mod.rs:591-660 | Sends the plan if it raises the request, otherwise debits what cash covers and reports failure. |
| `UistBroker.UistBroker.RebalanceCash` | example_clients/alator/src/broker/mod.rs:563-581 | A negative balance starts a liquidation of the shortfall and a buffer; its failure fails the broker. |
| `UistBroker.UistBroker.UpdateHoldings` | example_clients/alator/src/broker/uist.rs:83-96 | Sets a holding, or removes it at zero. |
| `UistBroker.UistBroker.RecordTrade` | example_clients/alator/src/broker/uist.rs:235-268 | One trade settles cash, log, holdings, pending and counter together. |
| `UistBroker.UistBroker.UpdatePrices` | example_clients/alator/src/broker/uist.rs:228-233 | New quotes overwrite old ones; the others stay. |
| `UistBroker.UistBroker.Check` | example_clients/alator/src/broker/uist.rs:226-273 | Tick, prices, settlement and rebalancing in one, on any dataset and whoever else uses the backtest; a negative balance needs prices for what is held. Books in order before are in order after, and no other backtest is touched. |
| `UistBroker.UistBroker.DiffBrkrAgainstTargetWeights` | example_clients/alator/src/broker/mod.rs:710-775 | Sells, then buys, of the plan towards the weights on the liquidation value, each one the broker can be sent; none at all if and only if that value is zero, in whatever order it is added up. |
| `StaticWeight.ChainPath` | example_clients/alator/src/strategy/staticweight.rs:132-145 | Written out state by state, the updates of a run are broker operations, checks and sends only. |
| `StaticWeight.ChainIsBrokerRun` | example_clients/alator/src/strategy/staticweight.rs:132-145 | A run of the strategy is a run of broker operations, so everything proved of those holds of it. |
| `StaticWeight.StrategyCash` | example_clients/alator/src/strategy/staticweight.rs:132-145 | Over a strategy run the books stay in order and cash moves by the run's own trades only. |
| `StaticWeight.WholeBacktest` | example_clients/alator/src/strategy/staticweight.rs:118-145 | From a fresh broker, all the cash at the end is the deposit plus the proceeds of the exchange's trade log. |
| `StaticWeight.FailedStrategy` | example_clients/alator/src/strategy/staticweight.rs:96-100 | A strategy whose broker has failed runs out its data without another order reaching the exchange. |
| `StaticWeight.UnfilledPlansAddUp` | example_clients/alator/src/strategy/staticweight.rs:132-145 | In a run in which nothing fills, every update plans from the cash and holdings of the start and sends its plan; together the plans commit at most the sum of their targets. |
| `StaticWeight.InternalRecordsNothing` | example_clients/alator/src/strategy/staticweight.rs:132-145 | The checks and sends of an update leave the recorded flow alone, rightly so. |
| `StaticWeight.ClockAfter` | example_clients/alator/src/strategy/staticweight.rs:132-145 | The k-th update leaves the clock k positions after the start, on that position's date. |
| `StaticWeight.SnapshotDates` | example_clients/alator/src/strategy/staticweight.rs:108-118 | From a fresh backtest there is one snapshot per date, and the k-th, counted from one, carries date index min(k, length-1). |
| `StaticWeight.StaticWeightStrategy.GetSnapshot` | example_clients/alator/src/strategy/staticweight.rs:108-117 | The date of the clock and the total value, whatever the order in which it is added up. |
| `StaticWeight.StaticWeightStrategy.Update` | example_clients/alator/src/strategy/staticweight.rs:132-145 | One check, one rebalancing, one snapshot of the resulting state; no snapshot if the portfolio is worthless. |
| `StaticWeight.StaticWeightStrategy.Run` | example_clients/alator/src/strategy/staticweight.rs:96-100 | Terminates after exactly the remaining number of dates, every snapshot showing the state after its update, unless the portfolio becomes worthless. |
| `StaticWeight.StaticWeightStrategy.DepositCash` | example_clients/alator/src/strategy/staticweight.rs:147-152 | Deposits through the broker, moves the recorded flow as `CashFlow.Record` says, and reports success whatever the broker answered. |
| `StaticWeight.StaticWeightStrategy.WithdrawCash` | example_clients/alator/src/strategy/staticweight.rs:154-162 | Withdraws through the broker, moves the recorded flow as `CashFlow.Record` says, and reports success if and only if the broker paid. |
| `StaticWeight.StaticWeightStrategy.WithdrawCashWithLiquidation` | example_clients/alator/src/strategy/staticweight.rs:164-175 | The same by liquidation: the amount is recorded as paid, and success reported, if and only if the broker reports the liquidation successful. |
| `StaticWeight.StaticWeightStrategy.Init` | example_clients/alator/src/strategy/staticweight.rs:120-130 | The deposit and the first orders towards the weights. |
| `CashFlow.RecordFollowsWhen` | example_clients/alator/src/strategy/staticweight.rs:147-175 | The record moves by the client money the broker moved if and only if: at a deposit, it already equals what the broker takes, nothing if failed; at a liquidation, it is for nothing, or turned down for more than the cash; otherwise always. |
| `CashFlow.LiquidationRecordedWhen` | example_clients/alator/src/strategy/staticweight.rs:164-175 | For long positions at positive bids and a positive request, a liquidation is recorded rightly if and only if the request exceeds the cash, and exceeds the value after costs or the positions. |
| `CashFlow.RecordFollowsRun` | example_clients/alator/src/strategy/staticweight.rs:147-175 | The record equals the client flow after every operation of a run if and only if each operation meets the condition of `CashFlow.RecordFollowsWhen` when it comes. |
| `CashFlow.RecordIsFlowsAndMisses` | example_clients/alator/src/strategy/staticweight.rs:147-175 | Over any run the record is the start, the client flows, and a stated miss for each deposit and liquidation; at the end it is right if and only if the misses add up to zero. |
| `CashFlow.DepositDoublesPayout` | example_clients/alator/src/strategy/staticweight.rs:147-162 | From a reachable state, 10 paid out and 500 paid in are recorded as -20 where the client flow is 490. |
| `CashFlow.LiquidationIsNotPaid` | example_clients/alator/src/strategy/staticweight.rs:164-175 | In a reachable state a liquidation of 9 is reported successful and recorded as -9; cash stays put and no client money moves. |
| `CashFlow.DebitIsNotRecorded` | example_clients/alator/src/strategy/staticweight.rs:164-175 | A broker with cash and no positions pays a liquidation it reports as failed; the record stays put. |
| `CashFlow.RefusedDepositIsRecorded` | example_clients/alator/src/strategy/staticweight.rs:147-152 | A reachable failed broker refuses a deposit and its cash stays put; a record of -10 becomes -20. |
| `JuraExchange.OrderBook.DeleteOrder` | rotala/src/exchange/jura_v1.rs:421-434 | The book without the first order of that asset and id; true if and only if there was one. |
| `JuraExchange.OrderBook.InsertOrder` | rotala/src/exchange/jura_v1.rs:439-451 | The order joins the back under the next id, with no attempt made. |
| `JuraExchange.OrderBook.Meet` | rotala/src/exchange/jura_v1.rs:519-645 | The branches for one quoted order: fill, removal, triggered order, attempt recorded; which at what price says `Jura.VerdictInPrices`. |
| `Jura.TriggersAsDescribed` | rotala/src/exchange/jura_v1.rs:587-645 | Code and comments agree on when a trigger fires if and only if it is a buy, or the bid is the trigger price. |
| `Jura.SellStopExample` | rotala/src/exchange/jura_v1.rs:599-616 | A sell stop-loss at 90 triggers at a bid of 100 and not at 80. |
| `Jura.VerdictInPrices` | rotala/src/exchange/jura_v1.rs:519-645 | In prices: an unattempted limit order fills if and only if the quote is within its limit, or a tenth beyond for immediate or cancel; an attempted one expires; a trigger fires if and only if the price is at or beyond its own, leaving its order; fills carry the asset, side, size, price and time. |
| `Jura.ChildIsLeftBehind` | rotala/src/exchange/jura_v1.rs:487-505 | A trigger leaves an order like itself in asset, side, size, price, flags and client id; immediate or cancel if and only if it is a market trigger, good till cancelled otherwise. |
| `Jura.IocExample` | rotala/src/exchange/jura_v1.rs:532-556 | At its first quote an immediate-or-cancel purchase limited to 100 fills if and only if the ask is at most 110. |
| `JuraExchange.OrderBook.ExecuteOrders` | rotala/src/exchange/jura_v1.rs:507-664 | Returns the fills, and leaves the orders that stay, in book order, followed by the triggered ones (`Jura.ChildIsLeftBehind`) under fresh ids, which are returned. |
| `Jura.DeleteScansAreOneFilter` | rotala/src/exchange/jura_v1.rs:654-656 | Deleting finished orders one scan at a time equals one order-preserving filter. |
| `Jura.SortedBuffer` | rotala/src/exchange/jura_v1.rs:319-327 | The sorted buffer is a permutation with all sells before all buys. |
| `Jura.TickKeepsBookOk` | rotala/src/exchange/jura_v1.rs:341-358 | After every tick book ids rise strictly and stay below the next id. |
| `Jura.TickAnswers` | rotala/src/exchange/jura_v1.rs:341-358 | The fills answered join the log; the inserted orders are the buffer and stand at the back of the book; the triggered ids are those of the orders before them. |
| `Jura.IocStaysWhen` | rotala/src/exchange/jura_v1.rs:528-556 | An immediate-or-cancel order stays in a tick if and only if the tick does not quote it, or is its first quote and not within tolerance. |
| `Jura.TriggeredJoinBack` | rotala/src/exchange/jura_v1.rs:654-663 | A triggered order is first in the book after execution if and only if no other order stays. |
| `JuraExchange.JuraV1.InsertOrder` | rotala/src/exchange/jura_v1.rs:329-335 | The order waits at the back of the buffer. |
| `JuraExchange.JuraV1.DeleteOrder` | rotala/src/exchange/jura_v1.rs:337-339 | The book loses the first order of that asset and id. |
| `JuraExchange.JuraV1.Tick` | rotala/src/exchange/jura_v1.rs:341-358 | The new book is the orders that stay, then the triggered ones, then the sorted buffer; fills are appended to the log; inserted orders and triggered ids are returned. |
| `JuraLedger.PassAgrees` | rotala/src/exchange/jura_v1.rs:507-664 | One pass over the book does what following every order on its own does. |
| `JuraLedger.DeleteAgrees` | rotala/src/exchange/jura_v1.rs:421-434 | Cancelling by scan ends exactly the life of the order with that id and asset, if it rests. |
| `JuraLedger.RunAgrees` | rotala/src/exchange/jura_v1.rs:329-358 | Over every run the book is exactly the resting lives in id order and the trade log exactly their fills. |
| `JuraLives.RunIsOk` | rotala/src/exchange/jura_v1.rs:507-664 | Over every run every life is well-formed, parents and children match, and every fill belongs to one life. |
| `JuraLives.IdsArePartitioned` | rotala/src/exchange/jura_v1.rs:329-358 | Every id ever issued is resting, filled, deleted, expired or replaced by exactly one child, and book, log and children show it if and only if so. |
| `JuraLives.NoIdTwice` | rotala/src/exchange/jura_v1.rs:507-664 | No id appears twice in the trade log; book ids rise strictly below the next id. |
| `JuraLives.FillsTrace` | rotala/src/exchange/jura_v1.rs:453-505 | Every fill traces to one submitted order, directly or through one trigger of the same asset, side, size, price and flags that fired on its first quote in reach; it happens on the first quote in reach of its order, at a price within the limit, or a tenth beyond it for immediate or cancel. |
| `JuraLives.TriggersFillOnce` | rotala/src/exchange/jura_v1.rs:578-645 | A trigger is never filled itself and yields at most one fill, on a later tick than the one that triggered it. |
| `JuraLives.IocLeavesInTime` | rotala/src/exchange/jura_v1.rs:532-556 | An immediate-or-cancel order fills only on the first tick since entry that quotes its asset, expires only on the second, and rests in the book past no second one. |
| `JuraLives.RestingMissedNothing` | rotala/src/exchange/jura_v1.rs:507-664 | What rests in the book has met no quote since its entry at a price that fills or triggers it. |
| `JuraLives.NothingIsLost` | rotala/src/exchange/jura_v1.rs:329-358 | Submitted orders are, as a multiset, those waiting in the buffer and those issued one id each. |
| `JuraLives.NoneUnsupported` | rotala/src/exchange/jura_v1.rs:573-573 | If no unsupported order was submitted, no tick ever meets one. |
| `Drawdown.MaxDd` | example_clients/alator/src/perf/mod.rs:61-84 | The loop equals the scan function. |
| `Drawdown.ScanFinds` | example_clients/alator/src/perf/mod.rs:61-84 | On non-negative values the scan finds the minimum of zero and all falls from a positive value to a later one, the first overall maximum, and the first minimum after it. |
| `Drawdown.PositionsRealiseDepth` | example_clients/alator/src/perf/mod.rs:60-84 | The fall between the two reported positions is the reported depth if and only if nothing before the first overall maximum falls deeper than that. |
| `Drawdown.PositionsExample` | example_clients/alator/src/perf/mod.rs:60-84 | On 100, 50, 200 the depth is -0.5 and both positions are 2. |
| `Drawdown.GetReturns` | example_clients/alator/src/perf/mod.rs:168-204 | Plain returns, or logarithmic ones for the logarithm in use. |
| `Drawdown.ReturnsAreGrowth` | example_clients/alator/src/perf/mod.rs:168-204 | With flows and inflation: each value is the one before plus the flow of the period, grown by the return and by the inflation of the period; on no capital the return is zero. |
| `Drawdown.ReturnExample` | example_clients/alator/src/perf/mod.rs:168-204 | From 100, with 20 paid in and a quarter of inflation, 180 is a return of a fifth. |
| `Drawdown.GetMaxDd` | example_clients/alator/src/perf/mod.rs:146-156 | The drawdown of the compounded returns. |
| `Drawdown.CompoundedReturns` | example_clients/alator/src/perf/mod.rs:146-204 | Without flows and inflation, compounding the returns gives back the values, scaled to the base. |
| `Drawdown.ReturnsKeepDrawdown` | example_clients/alator/src/perf/mod.rs:146-204 | So depth and both positions computed from returns are those of the portfolio values. |
| `Drawdown.PortfolioReturnIsGrowth` | example_clients/alator/src/perf/mod.rs:163-204 | Without flows and inflation, summing logarithmic returns and undoing the logarithm gives the growth from the first value to the last. |
| `Schedule.ShouldTrade` | example_clients/alator/src/schedule/mod.rs:26-59 | True if and only if the UTC date is a weekday and no later weekday lies in the same month. |
| `Schedule.EarlyIsNotLast` | example_clients/alator/src/schedule/mod.rs:28-30 | Before the 21st a date is never the last business day. |
| `Schedule.PassingIsLast` | example_clients/alator/src/schedule/mod.rs:39-58 | Three days of looking ahead are enough. |
| `Schedule.YearLength` | example_clients/alator/src/broker/mod.rs:795-810 | The calendar has years of 365 days and leap years of 366. |
| `Schedule.YearsStart` | example_clients/alator/src/broker/mod.rs:795-810 | Every year from 1970 begins on the day number the Gregorian leap rule gives in closed form. |
| `Schedule.WeekdaysFollow` | example_clients/alator/src/schedule/mod.rs:32-35 | Day 0 was a Thursday, weekdays follow one another, and Saturday and Sunday are the weekend. |
| `Schedule.MillenniumExample` | example_clients/alator/src/schedule/mod.rs:26-59 | 1 January 2000 was a Saturday, and the day before it the last business day of 1999. |

## Left out

- Floating point: rounding, infinities and NaN. Division by zero, infinite in the source, gives zero in `Quotient` and `Fall`; it matters only for a zero position, price or peak, which the main results exclude or never reach. `Rebalance.DirectionFollowsDifference` and the inflation of `Drawdown.Return` exclude it.
- Integer width: ids are `u64` and dates `i64` in the source; wrap-around is not modelled.
- JuraExchange.OrderBook.Meet: does not model orders of the `Alo` kind, at which the source stops the program; a quoted one is excluded by the precondition, and `JuraLives.NoneUnsupported` shows when that holds.
- BrokerModel.Sendable: order kinds other than market orders, and symbols never quoted, stop the program in the source; a caller of `UistBroker.UistBroker.SendOrder` has to rule them out while the broker trades.
- Drawdown.ScanFinds: stated for non-negative values; with negative ones the scan measures falls from the last peak only.
- Sorting.SortBy: is the insertion sort that the standard library applies to short buffers; for longer ones the library may merge runs, and what an inconsistent comparator then does is unspecified.
- StaticWeight.StaticWeightStrategy.Run: the stop of the program on a worthless portfolio becomes a false result.
- UistBroker.UistBroker.DiffBrkrAgainstTargetWeights: the same stop becomes an absent result.
- Uist.UistV1.SortOrderBuffer: the buffer, the book and the logs are sequences held in fields, so aliasing of the underlying vectors is not captured.
- HTTP handlers, the network client, JSON, locking and logging, and the broker under HTTP errors.
- The Jura server, whose clock never advances; Jura is modelled at the exchange.
- Fields of a Jura fill that are constant, and order prices and sizes as strings; they are the parsed numbers here.
- Reading Binance data, random datasets, and the Python client.
- Annualised return, volatility, Sharpe ratio and the assembly of the performance report, which need powers and roots.
- The logarithm itself: a parameter, of which `Drawdown.PortfolioReturnIsGrowth` asks only that it turns products into sums.
- Datasets without dates: creating a backtest on one stops the program in the source; `UistServer.Creatable` rules that request out.
- Date formatting and parsing.
