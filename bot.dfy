/** The simulated bot of the backtest: `TradingBot` with the fields its
    order/position lifecycle reads and updates in place. Each method is
    proved to change the three lists and `prevHistogram` exactly as the
    matching function of module Ledger says, and to keep them well formed.
    Wall-clock readings (`datetime.now()`) are parameters; the per-bar
    indicator values are part of each replayed `Bar`. */
module Backtesting {
  import opened Trades
  import opened Orders
  import opened Positions
  import opened Ledger
  import opened Reports

  class TradingBot {
    const volume: real
    const leverage: real
    const pointValue: real
    const trailingMultiplier: real

    var latestClose: real
    var latestOpen: real
    var latestHigh: real
    var latestLow: real
    var histogram: real
    var atrValue: real
    var prevHistogram: Option<real>
    var pendingOrders: seq<Trade>
    var openTrades: seq<Trade>
    var tradeHistory: seq<Trade>

    function Settings(): Config
    {
      Config(volume, leverage, pointValue, trailingMultiplier)
    }

    /** The lifecycle state as a value. */
    function State(): Book
      reads this
    {
      Book(pendingOrders, openTrades, tradeHistory, prevHistogram)
    }

    ghost predicate Valid()
      reads this
    {
      WellFormed(State())
    }

    /** A bot with empty order lists and no remembered histogram; the
        defaults are the source's. */
    constructor (trailingMultiplier: real := 2.0, volume: real := 0.01, leverage: real := 20.0, pointValue: real := 22.27)
      ensures Valid()
      ensures State() == Book([], [], [], None)
      ensures Settings() == Config(volume, leverage, pointValue, trailingMultiplier)
    {
      this.volume := volume;
      this.leverage := leverage;
      this.pointValue := pointValue;
      this.trailingMultiplier := trailingMultiplier;
      latestClose, latestOpen, latestHigh, latestLow := 0.0, 0.0, 0.0, 0.0;
      histogram, atrValue := 0.0, 0.0;
      prevHistogram := None;
      pendingOrders, openTrades, tradeHistory := [], [], [];
    }

    /** `open_position`: brackets the entry price with the current ATR and
        files a market order as an open trade or a pending order as a
        pending one. */
    method OpenPosition(side: Side, orderType: OrderType := Market, entryPrice: real, now: real)
      requires Valid()
      modifies this`pendingOrders, this`openTrades
      ensures Valid()
      ensures State() == WithNewPosition(old(State()), Settings(), side, orderType, entryPrice, atrValue, now)
    {
      var tp := if side == Long then entryPrice + 1.0 * atrValue + 0.5 else entryPrice - 1.0 * atrValue - 0.5;
      var sl := if side == Long then entryPrice - 2.0 * atrValue else entryPrice + 2.0 * atrValue;
      if orderType == Market {
        openTrades := openTrades + [Trade(side, entryPrice, tp, sl, volume, Open, None, Some(now), None, None, None)];
      } else if orderType == PendingOrder {
        pendingOrders := pendingOrders + [Trade(side, entryPrice, tp, sl, volume, Pending, Some(now), None, None, None, None)];
      }
    }

    /** `check_pending_orders`: rebuilds the pending list, dropping expired
        and non-pending orders and moving triggered ones to the open trades. */
    method CheckPendingOrders(now: real)
      requires Valid()
      modifies this`pendingOrders, this`openTrades
      ensures Valid()
      ensures State() == WithPendingChecked(old(State()), latestClose, latestHigh, latestLow, now)
    {
      PendingCheckPreservesWellFormed(State(), latestClose, latestHigh, latestLow, now);
      var orders := pendingOrders;
      var newPendingOrders: seq<Trade> := [];
      for i := 0 to |orders|
        invariant pendingOrders == orders
        invariant newPendingOrders == Kept(orders[..i], now, latestLow, latestHigh)
        invariant openTrades == old(openTrades) + Triggered(orders[..i], now, latestLow, latestHigh, latestClose)
      {
        CheckStep(orders, i, now, latestLow, latestHigh, latestClose);
        var order := orders[i];
        if now - order.orderTime.value > PendingTtlSeconds {
          continue;
        }
        if order.status == Pending {
          if (order.side == Long && latestLow <= order.entryPrice <= latestHigh) ||
             (order.side == Short && latestHigh >= order.entryPrice >= latestLow) {
            var activated := order.(status := Open, openTime := Some(now), entryPrice := latestClose);
            assert activated == Activated(order, latestClose, now);
            openTrades := openTrades + [activated];
          } else {
            newPendingOrders := newPendingOrders + [order];
          }
        }
      }
      assert orders[..|orders|] == orders;
      pendingOrders := newPendingOrders;
    }

    /** `update_trailing_stop` for the trade at position `i` of the open
        list; its only caller passes a trade whose status is open. */
    method UpdateTrailingStop(i: nat)
      requires Valid() && i < |openTrades| && openTrades[i].status == Open
      modifies this`openTrades
      ensures Valid()
      ensures openTrades == old(openTrades)[i := Trailed(old(openTrades[i]), latestClose, atrValue, trailingMultiplier)]
    {
      ReplaceKeepsClosed(openTrades, tradeHistory, i, Trailed(openTrades[i], latestClose, atrValue, trailingMultiplier));
      var trade := openTrades[i];
      if trade.side == Long {
        var newSl := latestClose - trailingMultiplier * atrValue;
        var trailed := trade.(sl := if trade.sl >= newSl then trade.sl else newSl);
        assert trailed == Trailed(trade, latestClose, atrValue, trailingMultiplier);
        openTrades := openTrades[i := trailed];
      } else {
        var newSl := latestClose + trailingMultiplier * atrValue;
        var trailed := trade.(sl := if trade.sl <= newSl then trade.sl else newSl);
        assert trailed == Trailed(trade, latestClose, atrValue, trailingMultiplier);
        openTrades := openTrades[i := trailed];
      }
    }

    /** `close_position` for the trade at position `i` of the open list: a
        no-op on a closed trade; otherwise the trade is closed in place with
        its profit and the same record is appended to the history. */
    method ClosePosition(i: nat, closePrice: real, now: real)
      requires Valid() && i < |openTrades|
      modifies this`openTrades, this`tradeHistory
      ensures Valid()
      ensures openTrades == old(openTrades)[i := ClosedAt(old(openTrades[i]), closePrice, now, pointValue, leverage)]
      ensures old(openTrades[i]).status == Closed ==> tradeHistory == old(tradeHistory)
      ensures old(openTrades[i]).status != Closed ==> tradeHistory == old(tradeHistory) + [openTrades[i]]
    {
      var trade := openTrades[i];
      if trade.status == Closed {
        return;
      }
      var profit := if trade.side == Long then (closePrice - trade.entryPrice) * trade.volume * pointValue * leverage
                    else (trade.entryPrice - closePrice) * trade.volume * pointValue * leverage;
      assert profit == Profit(trade.side, trade.entryPrice, closePrice, trade.volume, pointValue, leverage);
      trade := trade.(status := Closed, closePrice := Some(closePrice), closeTime := Some(now), profit := Some(profit));
      ReplaceKeepsClosed(openTrades, tradeHistory, i, trade);
      openTrades := openTrades[i := trade];
      tradeHistory := tradeHistory + [trade];
      assert openTrades[i] == trade;
    }

    /** `simulate_trading_logic`: the histogram-acceleration signal gated on
        ATR, then the trailing stop and exit test of every open trade. */
    method SimulateTradingLogic(now: real)
      requires Valid()
      modifies this`pendingOrders, this`openTrades, this`tradeHistory, this`prevHistogram
      ensures Valid()
      ensures State() == WithTradingLogic(old(State()), Settings(), latestClose, latestHigh, latestLow, histogram, atrValue, now)
    {
      if atrValue > 1.0 {
        if prevHistogram.Some? {
          if histogram > prevHistogram.value + 0.01 {
            OpenPosition(Long, PendingOrder, latestClose + 1.0 * atrValue, now);
          } else if histogram < prevHistogram.value - 0.01 {
            OpenPosition(Short, PendingOrder, latestClose - 1.0 * atrValue, now);
          }
        }
        prevHistogram := Some(histogram);
      }
      assert State() == WithSignal(old(State()), Settings(), latestClose, histogram, atrValue, now);
      ManageOpenTrades(now);
      TradingLogicPreservesWellFormed(old(State()), Settings(), latestClose, latestHigh, latestLow, histogram, atrValue, now);
    }

    /** The loop at the end of `simulate_trading_logic`: each trade still
        open has its stop trailed and is closed at the bar close when the bar
        reached its target or its new stop. */
    method ManageOpenTrades(now: real)
      requires Valid()
      modifies this`openTrades, this`tradeHistory
      ensures Valid()
      ensures State() == WithManagedTrades(old(State()), Settings(), latestClose, latestHigh, latestLow, atrValue, now)
    {
      ghost var start := openTrades;
      ghost var startHistory := tradeHistory;
      var cfg := Settings();
      assert cfg.trailingMultiplier == trailingMultiplier && cfg.pointValue == pointValue && cfg.leverage == leverage;
      for i := 0 to |openTrades|
        invariant Valid()
        invariant SteppedPrefix(openTrades, start, i, cfg, latestClose, latestHigh, latestLow, atrValue, now)
        invariant tradeHistory == startHistory + NewlyClosed(start[..i], cfg, latestClose, latestHigh, latestLow, atrValue, now)
      {
        ghost var stepped := Stepped(start[i], cfg, latestClose, latestHigh, latestLow, atrValue, now);
        ghost var before := openTrades;
        ghost var historyBefore := tradeHistory;
        ghost var closedBefore := NewlyClosed(start[..i], cfg, latestClose, latestHigh, latestLow, atrValue, now);
        ghost var added := if start[i].status == Open && stepped.status == Closed then [stepped] else [];
        NewlyClosedStep(start, i, cfg, latestClose, latestHigh, latestLow, atrValue, now);
        SteppedPrefixStep(before, start, i, cfg, latestClose, latestHigh, latestLow, atrValue, now);
        if openTrades[i].status == Open {
          UpdateTrailingStop(i);
          var trade := openTrades[i];
          assert trade == Trailed(start[i], latestClose, atrValue, cfg.trailingMultiplier);
          assert stepped == if ExitHit(trade, latestHigh, latestLow)
                            then ClosedAt(trade, latestClose, now, cfg.pointValue, cfg.leverage) else trade;
          if trade.side == Long {
            if latestHigh >= trade.tp || latestLow <= trade.sl {
              ClosePosition(i, latestClose, now);
              assert openTrades == before[i := stepped];
            }
          } else {
            if latestLow <= trade.tp || latestHigh >= trade.sl {
              ClosePosition(i, latestClose, now);
              assert openTrades == before[i := stepped];
            }
          }
        }
        assert openTrades == before[i := stepped];
        assert tradeHistory == historyBefore + added;
        AppendAssociates(startHistory, closedBefore, added);
      }
      assert start[..|start|] == start;
      SteppedPrefixDone(openTrades, start, cfg, latestClose, latestHigh, latestLow, atrValue, now);
    }

    /** One iteration of the loop of `backtest`: the bar's prices and
        indicator values become the latest ones, then pending orders are
        checked, then the trading logic runs. */
    method ReplayBar(bar: Bar)
      requires Valid()
      modifies this`latestClose, this`latestOpen, this`latestHigh, this`latestLow, this`histogram, this`atrValue
      modifies this`pendingOrders, this`openTrades, this`tradeHistory, this`prevHistogram
      ensures Valid()
      ensures State() == WithBar(old(State()), Settings(), bar)
      ensures latestClose == bar.close && latestOpen == bar.open && latestHigh == bar.high && latestLow == bar.low
      ensures histogram == bar.histogram && atrValue == bar.atr
    {
      latestClose := bar.close;
      latestOpen := bar.open;
      latestHigh := bar.high;
      latestLow := bar.low;
      histogram := bar.histogram;
      atrValue := bar.atr;
      CheckPendingOrders(bar.checkTime);
      ghost var checked := State();
      assert checked == WithPendingChecked(old(State()), bar.close, bar.high, bar.low, bar.checkTime);
      SimulateTradingLogic(bar.tradeTime);
      assert State() == WithTradingLogic(checked, Settings(), bar.close, bar.high, bar.low, bar.histogram, bar.atr, bar.tradeTime);
    }

    /** The replay loop of `backtest` over already-fetched bars, followed by
        `output_backtest_results`. Without bars nothing happens. */
    method Backtest(bars: seq<Bar>) returns (report: Option<Report>)
      requires Valid()
      modifies this`latestClose, this`latestOpen, this`latestHigh, this`latestLow, this`histogram, this`atrValue
      modifies this`pendingOrders, this`openTrades, this`tradeHistory, this`prevHistogram
      ensures Valid()
      ensures bars == [] ==> report.None? && State() == old(State())
      ensures bars != [] ==> State() == Replay(old(State()), Settings(), bars)
      ensures bars != [] ==> report == Some(Summary(tradeHistory))
    {
      if bars == [] {
        return None;
      }
      for i := 0 to |bars|
        invariant Valid()
        invariant State() == Replay(old(State()), Settings(), bars[..i])
      {
        ReplayStep(old(State()), Settings(), bars, i);
        ReplayBar(bars[i]);
      }
      assert bars[..|bars|] == bars;
      var summary := OutputBacktestResults(tradeHistory);
      report := Some(summary);
    }
  }
}
