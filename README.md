# Backtesting order/position lifecycle

This project models the simulated trading core of `TradingBot` in
`backtesting.py` and proves properties of it in Dafny. The core covers:

- placing market and pending orders with a take-profit/stop-loss bracket
  derived from the ATR;
- expiring and triggering pending orders against each bar's range;
- ratcheting a trailing stop;
- closing trades at the bar close with their realised profit;
- the histogram-acceleration signal, gated on ATR;
- the per-bar replay loop of `backtest`;
- the end-of-run statistics: total profit, wins and losses, win rate, and
  "max drawdown".

Layout:

- `trades.dfy` (module `Trades`): the trade record and the rules that apply
  to one record: bracket, expiry, trigger, trailing stop, exit test, close
  and profit.
- `orders.dfy` (module `Orders`): `check_pending_orders` as two functions
  of the pending list, one for the orders that stay and one for the trades
  that open.
- `positions.dfy` (module `Positions`): the loop over `open_trades` at the
  end of `simulate_trading_logic`.
- `ledger.dfy` (module `Ledger`): the bot's lists as a value `Book`. It has
  one function per state-changing operation, a `Replay` of a sequence of
  bars, and the lemmas about the whole lifecycle.
- `reports.dfy` (module `Reports`): `output_backtest_results` and
  `calculate_max_drawdown`. Each is a specification function plus a method
  proved equal to it.
- `bot.dfy` (module `Backtesting`): `class TradingBot`. Its fields are the
  source's fields, and every method that changes them keeps the list
  invariant `Valid`. Each method updates the fields in place and is proved
  against a specification function:
  - `OpenPosition`, `CheckPendingOrders`, `SimulateTradingLogic`,
    `ManageOpenTrades` and `ReplayBar` produce exactly the `Book` their
    matching `Ledger` function describes;
  - `UpdateTrailingStop` and `ClosePosition` replace one element of the
    open list by its `Trades.Trailed` or `Trades.ClosedAt` form;
  - `Backtest` ends in the `Ledger.Replay` of all bars and reports
    `Reports.Summary` of the history.

Inputs that the source reads from outside become parameters:

- every `datetime.now()` reading becomes a `now` argument. A replayed `Bar`
  carries two of them: one for `check_pending_orders` and one for
  `simulate_trading_logic`;
- the per-bar indicator values (MACD histogram, ATR) are fields of the
  `Bar`.

The code's behaviour differs in some places from what its own parameters
and names suggest: the constructor's threshold arguments, the name "max
drawdown", a take-profit level that reads as checked before the stop. The
model follows the code in each case:

- The signal compares against the literals `0.01` and `1`
  (`backtesting.py:224-229`). It does not use the constructor's
  `crossover_threshold` or `atr_threshold`.
- A pending order expires after more than 300 s of wall-clock time
  (`backtesting.py:112`), not after a number of bars.
- The exit has no take-profit-before-stop-loss precedence. A long leaves
  when `high >= tp or low <= sl`, a short when `low <= tp or high >= sl`.
  Either way the trade is filled at the bar close (`backtesting.py:237-242`).
  `NoTargetStopPrecedence` states this.
- The exit test uses the stop after this bar's trailing update
  (`ExitAgainstTrailedStop`).
- A triggered order is filled at the bar close. It keeps the bracket that
  was computed from its original target price (`backtesting.py:119-121`).
- Closed trades stay in `open_trades` and are skipped afterwards
  (`ClosedTradeFrozen`).
- "Max drawdown" is the largest closed-trade profit minus the smallest one.
  It is not a drawdown of running equity (`MaxDrawdownIsLargestSpread`).

## Model

| member | source | states |
|---|---|---|
| Trades.BracketAroundEntry | backtesting.py:77-78 | a long's target is entry + ATR + 0.5 and its stop entry − 2·ATR; a short mirrors both; with ATR ≥ 0 the bracket lies on the correct sides of the entry |
| Trades.TakeProfit | backtesting.py:77 | definition; its properties are in `BracketAroundEntry` |
| Trades.StopLoss | backtesting.py:78 | definition; its properties are in `BracketAroundEntry` |
| Trades.MarketTrade | backtesting.py:83-93 | definition of the record a market order appends; what the append does is in `Ledger.WithNewPosition` and `BracketAroundEntry` |
| Trades.PendingTrade | backtesting.py:94-104 | definition of the record a pending order appends; what the append does is in `Ledger.WithNewPosition` and `BracketAroundEntry` |
| Trades.Expired | backtesting.py:112 | definition; its consequences are in `Orders.ExpiredOrderNeverTrades` and `Orders.AfterCheckStatuses` |
| Trades.Triggers | backtesting.py:117-118 | definition; its properties are in `TriggerIgnoresSide` |
| Trades.Activated | backtesting.py:119-122 | definition; its properties are in `Orders.TriggeredMembers` and `Orders.AfterCheckStatuses` |
| Trades.TriggerIgnoresSide | backtesting.py:117-118 | the per-side trigger conditions are one condition: low ≤ entry price ≤ high |
| Trades.Trailed | backtesting.py:129-136 | only the stop changes; a long's new stop is the larger of the old stop and close − m·ATR, a short's the smaller of the old stop and close + m·ATR |
| Trades.Profit | backtesting.py:146-149 | definition; its properties are in `ProfitSign` |
| Trades.ExitHit | backtesting.py:237-242 | definition; its properties are in `Positions.ExitAgainstTrailedStop` and `Positions.NoTargetStopPrecedence` |
| Trades.ProfitSign | backtesting.py:146-149 | with positive volume, point value and leverage, a long gains iff close > entry and a short gains iff close < entry; the two sides' profits are opposite |
| Trades.ClosedAt | backtesting.py:138-149 | a closed trade is returned unchanged; otherwise it becomes closed with close price, close time and the side's profit, and nothing else changes |
| Trades.CloseIdempotent | backtesting.py:139-140 | closing twice, at any price and time, equals closing once |
| Orders.Kept | backtesting.py:110-127 | definition of the new pending list; its properties are in `KeptMembers`, `KeptInOrder` and `OrdersAreConserved` |
| Orders.Triggered | backtesting.py:110-127 | definition of the trades appended to the open list; its properties are in `TriggeredMembers` and `AfterCheckStatuses` |
| Orders.KeptMembers | backtesting.py:110-125 | an order stays pending iff it was pending, is at most 300 s old and the bar's range missed its price |
| Orders.TriggeredMembers | backtesting.py:116-122 | a trade opens iff a listed order is unexpired, pending and inside the bar's range; it is that order opened at the close and at `now` |
| Orders.KeptInOrder | backtesting.py:110-127 | the orders left pending keep their original relative order |
| Orders.OrdersAreConserved | backtesting.py:110-127 | orders kept plus trades opened never outnumber the orders checked, so the pending list only shrinks |
| Orders.AfterCheckStatuses | backtesting.py:112-127 | afterwards every pending order is pending, timed and unexpired; every opened trade is open, filled at the close, stamped `now` and at most 300 s old |
| Orders.ExpiredOrderNeverTrades | backtesting.py:112-114 | an order older than 300 s is dropped and never opens, even when the bar covers its price |
| Positions.Stepped | backtesting.py:235-242 | definition of one loop iteration; its properties are in `SteppedLifecycle` and `ExitAgainstTrailedStop` |
| Positions.NewlyClosed | backtesting.py:234-242 | definition of what the loop appends to the history; its properties are in `NewlyClosedSettled` and `NewlyClosedMembers` |
| Positions.ManageTrades | backtesting.py:234-242 | the loop keeps the list's length and position order and steps each trade exactly once |
| Positions.SteppedLifecycle | backtesting.py:234-242 | a non-open trade is untouched; an open trade keeps side, entry, target, volume and times; its stop only improves; it closes iff the trailed trade hits its exit, at the bar close with the side's profit |
| Positions.ExitAgainstTrailedStop | backtesting.py:235-242 | an open long closes iff high ≥ tp or low ≤ max(old stop, close − m·ATR); a short closes iff low ≤ tp or high ≥ min(old stop, close + m·ATR) |
| Positions.NoTargetStopPrecedence | backtesting.py:237-239 | a bar touching both target and stop of a long closes it once, at the bar close |
| Positions.NewlyClosedSettled | backtesting.py:151 | every trade the loop appends to the history is closed at the bar close and at `now`, with a profit, and there are at most as many as trades in the list |
| Positions.NewlyClosedMembers | backtesting.py:234-242 | the history gains exactly the trades that were open and closed on this bar, each in its stepped form |
| Positions.HistoryStaysInOpen | backtesting.py:234-242 | if every history entry is a closed trade of the open list, then after the loop every history entry, old or newly closed, is an element of the stepped open list |
| Ledger.SignalOf | backtesting.py:224-231 | definition; its properties are in `SignalRule` |
| Ledger.NextPrevHistogram | backtesting.py:224-232 | definition; its properties are in `SignalRule` and `GatedBarsKeepHistogram` |
| Ledger.WithPendingChecked | backtesting.py:106-127 | definition; its properties are in `PendingCheckPreservesWellFormed` and the `Orders` lemmas |
| Ledger.WithSignal | backtesting.py:224-232 | definition; its properties are in `SignalPlacesOneOrder` |
| Ledger.WithManagedTrades | backtesting.py:234-242 | definition; its properties are in the `Positions` lemmas and `TradingLogicPreservesWellFormed` |
| Ledger.WithTradingLogic | backtesting.py:223-242 | definition; its properties are in `SignalPlacesOneOrder` and `TradingLogicPreservesWellFormed` |
| Ledger.WithBar | backtesting.py:217-219 | definition; its properties are in `WithBarPreservesWellFormed`, `WithBarKeepsOpenPositions` and `NewOrderWaitsOneBar` |
| Ledger.SignalRule | backtesting.py:224-232 | a long signal iff ATR > 1, a remembered histogram and a rise above it of more than 0.01; a short signal iff the same with a fall; otherwise none; the histogram is remembered only past the ATR gate |
| Ledger.WithNewPosition | backtesting.py:73-104 | a market order appends exactly one open trade and a pending order exactly one pending order; the other list and the history are unchanged; any other order type changes nothing |
| Ledger.SignalPlacesOneOrder | backtesting.py:224-232 | the signal step appends exactly one pending order, at close + ATR for a long or close − ATR for a short, or none |
| Ledger.PendingCheckPreservesWellFormed | backtesting.py:106-127 | checking pending orders keeps pending orders pending and timed, nothing pending in the open list, and the history closed with profits and still present in the open list |
| Ledger.ReplaceKeepsClosed | backtesting.py:129-151 | replacing a trade that is not closed leaves every closed history entry in the open list |
| Ledger.TradingLogicPreservesWellFormed | backtesting.py:223-242 | the trading logic keeps the same list invariant |
| Ledger.WithBarPreservesWellFormed | backtesting.py:217-219 | one bar keeps the list invariant |
| Ledger.Replay | backtesting.py:192-219 | replaying any bars from a well-formed state gives a well-formed state |
| Ledger.WithBarKeepsOpenPositions | backtesting.py:217-242 | over one bar the open list grows by the triggered orders, and each earlier trade keeps its position and is stepped once |
| Ledger.NewOrderWaitsOneBar | backtesting.py:217-232 | every trade opened on a bar comes from an order pending before it; an order placed on the bar is still pending at its end, behind the kept orders |
| Ledger.LedgerAppendOnly | backtesting.py:151 | over a replay the old history is a prefix of the new one |
| Ledger.StopNeverLoosens | backtesting.py:129-136 | over any replay a trade keeps its place, side and target; a long's stop never falls and a short's never rises |
| Ledger.ClosedTradeFrozen | backtesting.py:235 | a closed trade in the open list stays exactly as it is over any replay |
| Ledger.GatedBarsKeepHistogram | backtesting.py:224-232 | bars whose ATR is at most 1 leave the remembered histogram unchanged |
| Ledger.FirstQualifyingBarNeverSignals | backtesting.py:224-232 | starting with no remembered histogram, the first bar past the ATR gate does not signal and places no order |
| Reports.TotalProfit | backtesting.py:245 | definition: the sum of the history's profits |
| Reports.WinCount | backtesting.py:247 | definition; its properties are in `WinsAndLossesPartition` |
| Reports.LossCount | backtesting.py:248 | definition; its properties are in `WinsAndLossesPartition` |
| Reports.MaxDrawdown | backtesting.py:260-272 | definition; its properties are in `MaxDrawdownIsLargestSpread` |
| Reports.WinsAndLossesPartition | backtesting.py:246-248 | wins (profit > 0) plus losses (profit ≤ 0) equal the number of trades |
| Reports.ClosedProfitsMembers | backtesting.py:265-268 | a value is among the closed profits iff some closed trade in the history has that profit |
| Reports.MaxDrawdownIsLargestSpread | backtesting.py:260-272 | the drawdown is ≥ 0, bounds the profit difference of any two closed trades, is reached by some pair, and is 0 without closed trades |
| Reports.CalculateMaxDrawdown | backtesting.py:260-272 | the peak/trough loop returns the largest minus the smallest closed-trade profit |
| Reports.Summary | backtesting.py:244-250 | the counts partition the trades, the win rate is 0 without trades and otherwise in [0, 1], and the drawdown is ≥ 0 |
| Reports.OutputBacktestResults | backtesting.py:244-251 | computes exactly the summary: total profit, trade, win and loss counts, win rate and drawdown |
| Backtesting.TradingBot.constructor | backtesting.py:16-36 | a new bot has empty lists, no remembered histogram, and the default volume, leverage, point value and trailing multiplier |
| Backtesting.TradingBot.OpenPosition | backtesting.py:73-104 | keeps the list invariant and changes the lists exactly as `WithNewPosition`; the order type defaults to a market order |
| Backtesting.TradingBot.CheckPendingOrders | backtesting.py:106-127 | keeps the list invariant; the pending list becomes the kept orders and the open list gains the triggered trades |
| Backtesting.TradingBot.UpdateTrailingStop | backtesting.py:129-136 | for an open trade (its only caller, backtesting.py:235-236, passes nothing else): keeps the list invariant; replaces the trade at the given position by its trailed form and changes nothing else |
| Backtesting.TradingBot.ClosePosition | backtesting.py:138-151 | keeps the list invariant; replaces the trade by its closed form; the history gains that trade iff it was not already closed |
| Backtesting.TradingBot.SimulateTradingLogic | backtesting.py:223-242 | keeps the list invariant and changes the lists and remembered histogram exactly as `WithTradingLogic` |
| Backtesting.TradingBot.ManageOpenTrades | backtesting.py:234-242 | keeps the list invariant; the open list becomes every trade stepped in place and the history gains the trades closed on this bar |
| Backtesting.TradingBot.ReplayBar | backtesting.py:193-219 | afterwards the latest close, open, high, low, histogram and ATR are the bar's; keeps the list invariant and changes the lists exactly as `WithBar`, pending check first, then the trading logic |
| Backtesting.TradingBot.Backtest | backtesting.py:183-221 | without bars nothing changes and there is no report; otherwise the state is the replay of all bars and the report summarises the history |

## Left out

- Broker access and I/O are not modelled. This covers data fetching
  (`fetch_and_prepare_data`, `get_historical_data`), `log_data`, every
  `print`, and the `__main__` login block. `Backtest` starts from
  already-fetched bars.
- Indicator computation is not modelled. The MACD histogram and the ATR of
  each bar are inputs carried by `Bar`. As written, `backtest` could not
  compute them: `backtesting.py:202` unpacks three values from
  `calculate_macd`, which returns two (`indicators.py:47`). The other indicators the loop
  computes (MACD line, signal, SMA, RSI, VWAP) are never read by the
  lifecycle.
- The bar-prefix fields (`highs`, `lows`, `prices`, `volume_data`) are left
  out. Only the indicator computation reads them.
- `datetime.now()` is a parameter. `Bar` carries one reading for the
  pending check and one for the trading logic. The model uses one `now`
  for all placements and closes of one call; the source reads the clock
  again for each.
- Backtesting.TradingBot.constructor: the constructor arguments the
  lifecycle never reads are left out: client, symbol, thresholds, retry
  settings and `data_log`. The latest bar values start at 0 rather than
  being fetched.
- `trade_direction` in `open_position` is computed but never used, so it is
  left out. So is the `index` argument of `simulate_trading_logic`, which
  is only printed.
- Backtesting.TradingBot.OpenPosition: the `entry_price=None` default is not
  modelled. Every call passes a price, and the source's arithmetic would
  fail on `None`.
- Side is `Long` or `Short`. The source only ever creates these two. For
  any other `type` string, `update_trailing_stop` and the exit test would
  do nothing.
- Backtesting.TradingBot.UpdateTrailingStop and
  Backtesting.TradingBot.ClosePosition take the position of the trade in
  `open_trades`, not the trade object. Their only callers pass elements of
  that list. `UpdateTrailingStop` also requires the trade to be open; its
  only caller (backtesting.py:235-236) checks this first.
- Trade records are values, not shared dictionaries. The source appends
  the same dictionary to `trade_history` that stays in `open_trades`; the
  model keeps this sharing as an invariant instead: `Ledger.WellFormed`
  (and so `Valid`) requires every history entry to be an element of the
  open list, and every operation is proved to keep it. This holds because
  only open trades are trailed (`UpdateTrailingStop` requires an open
  trade) and `ClosePosition` leaves a closed trade alone. A triggered order leaves the pending list when
  it joins the open list.
- Floating-point arithmetic is modelled with exact `real`s. Rounding is not
  modelled. The `±inf` sentinels of `calculate_max_drawdown` become an
  absent peak/trough before the first closed trade.
- `Reports.Summary` and `Reports.OutputBacktestResults` require every
  history entry to carry a profit. The lifecycle guarantees this (`Valid`).
- Two loop bodies get a method of their own, with the source's statements:
  the trade-management loop of `simulate_trading_logic` (`ManageOpenTrades`,
  called after the signal step) and the body of `backtest`'s bar loop
  (`ReplayBar`).
