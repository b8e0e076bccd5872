/** The bot's order/position lifecycle as a state value: the three lists and
    the remembered histogram, and one function per operation of
    `TradingBot` that changes them. `TradingBot` in module Backtesting is
    proved to follow these functions; the lemmas here state what the
    lifecycle guarantees over one bar and over a whole replay. */
module Ledger {
  import opened Trades
  import opened Orders
  import opened Positions

  /** One replayed bar: its prices, the indicator values computed from the
      bars up to and including it, and the wall-clock readings taken by
      `check_pending_orders` and by `simulate_trading_logic`. */
  datatype Bar = Bar(close: real, open: real, high: real, low: real, histogram: real, atr: real,
                     checkTime: real, tradeTime: real)

  /** `pending_orders`, `open_trades`, `trade_history` and `prev_histogram`. */
  datatype Book = Book(pending: seq<Trade>, open: seq<Trade>, history: seq<Trade>, prevHistogram: Option<real>)

  datatype Signal = GoLong | GoShort | NoSignal

  /** The literals `simulate_trading_logic` compares with; the constructor's
      `crossover_threshold` and `atr_threshold` are not consulted. */
  const HistogramStep: real := 0.01
  const AtrGate: real := 1.0

  /** The decision of `simulate_trading_logic` on one bar. */
  function SignalOf(atr: real, prev: Option<real>, histogram: real): Signal
  {
    if atr > AtrGate && prev.Some? then
      if histogram > prev.value + HistogramStep then GoLong
      else if histogram < prev.value - HistogramStep then GoShort
      else NoSignal
    else NoSignal
  }

  /** `prev_histogram` after the bar: replaced only on a bar whose ATR passes the gate. */
  function NextPrevHistogram(atr: real, prev: Option<real>, histogram: real): Option<real>
  {
    if atr > AtrGate then Some(histogram) else prev
  }

  /** The signal fires only past the ATR gate and with a remembered
      histogram; it is long exactly when the histogram rose by more than
      0.01 and short exactly when it fell by more than 0.01; the remembered
      value changes only past the gate, and then to the current one. */
  lemma SignalRule(atr: real, prev: Option<real>, histogram: real)
    ensures SignalOf(atr, prev, histogram) == GoLong <==>
            atr > 1.0 && prev.Some? && histogram > prev.value + 0.01
    ensures SignalOf(atr, prev, histogram) == GoShort <==>
            atr > 1.0 && prev.Some? && histogram < prev.value - 0.01
    ensures SignalOf(atr, prev, histogram) == NoSignal <==>
            atr <= 1.0 || prev.None? || prev.value - 0.01 <= histogram <= prev.value + 0.01
    ensures atr <= 1.0 ==> NextPrevHistogram(atr, prev, histogram) == prev
    ensures atr > 1.0 ==> NextPrevHistogram(atr, prev, histogram) == Some(histogram)
  {
  }

  /** The statuses and keys the lists always have: pending orders are
      pending and time-stamped, nothing in the open list is pending, and
      every history entry is closed with its profit. Every history entry is
      also still in the open list, unchanged: the source appends the same
      dictionary to both lists and never touches a closed one again. */
  predicate WellFormed(b: Book)
  {
    && (forall t :: t in b.pending ==> t.status == Pending && t.orderTime.Some?)
    && (forall t :: t in b.open ==> t.status != Pending)
    && (forall t :: t in b.history ==> t.status == Closed && t.profit.Some?)
    && (forall t :: t in b.history ==> t in b.open)
  }

  /** Replacing a trade that is not closed keeps every closed trade of the
      list in it. */
  lemma ReplaceKeepsClosed(open: seq<Trade>, history: seq<Trade>, i: nat, x: Trade)
    requires i < |open| && open[i].status != Closed
    requires forall t :: t in history ==> t.status == Closed && t in open
    ensures forall t :: t in history ==> t in open[i := x]
  {
    forall t | t in history
      ensures t in open[i := x]
    {
      var j :| 0 <= j < |open| && open[j] == t;
      assert open[i := x][j] == t;
    }
  }

  /** `open_position`: a market order adds one open trade, a pending order
      one pending order, any other order type nothing. */
  function WithNewPosition(b: Book, cfg: Config, side: Side, orderType: OrderType, entry: real, atr: real, now: real): (r: Book)
    ensures r.history == b.history && r.prevHistogram == b.prevHistogram
    ensures orderType == Market ==>
              r.pending == b.pending && |r.open| == |b.open| + 1 && r.open[..|b.open|] == b.open &&
              r.open[|b.open|] == MarketTrade(side, entry, atr, cfg.volume, now)
    ensures orderType == PendingOrder ==>
              r.open == b.open && |r.pending| == |b.pending| + 1 && r.pending[..|b.pending|] == b.pending &&
              r.pending[|b.pending|] == PendingTrade(side, entry, atr, cfg.volume, now)
    ensures orderType == OtherOrderType ==> r == b
  {
    match orderType
    case Market => b.(open := b.open + [MarketTrade(side, entry, atr, cfg.volume, now)])
    case PendingOrder => b.(pending := b.pending + [PendingTrade(side, entry, atr, cfg.volume, now)])
    case OtherOrderType => b
  }

  /** `check_pending_orders` on a bar. */
  function WithPendingChecked(b: Book, close: real, high: real, low: real, now: real): Book
    requires Timed(b.pending)
  {
    b.(pending := Kept(b.pending, now, low, high),
       open := b.open + Triggered(b.pending, now, low, high, close))
  }

  /** The signal half of `simulate_trading_logic`: at most one pending
      order, and the histogram remembered when the ATR gate is passed. */
  function WithSignal(b: Book, cfg: Config, close: real, histogram: real, atr: real, now: real): Book
  {
    var signalled :=
      match SignalOf(atr, b.prevHistogram, histogram)
      case GoLong => WithNewPosition(b, cfg, Long, PendingOrder, close + 1.0 * atr, atr, now)
      case GoShort => WithNewPosition(b, cfg, Short, PendingOrder, close - 1.0 * atr, atr, now)
      case NoSignal => b;
    signalled.(prevHistogram := NextPrevHistogram(atr, b.prevHistogram, histogram))
  }

  /** The position half: every open trade stepped in place, the ones it
      closes appended to the history. */
  function WithManagedTrades(b: Book, cfg: Config, close: real, high: real, low: real, atr: real, now: real): Book
  {
    b.(open := ManageTrades(b.open, cfg, close, high, low, atr, now),
       history := b.history + NewlyClosed(b.open, cfg, close, high, low, atr, now))
  }

  /** `simulate_trading_logic` on a bar: the signal may place one pending
      order at close +/- ATR, the histogram is remembered past the ATR gate,
      and then every open trade is trailed and possibly closed. */
  function WithTradingLogic(b: Book, cfg: Config, close: real, high: real, low: real, histogram: real, atr: real, now: real): Book
  {
    WithManagedTrades(WithSignal(b, cfg, close, histogram, atr, now), cfg, close, high, low, atr, now)
  }

  /** One iteration of the replay loop of `backtest`: pending orders first,
      then the trading logic. */
  function WithBar(b: Book, cfg: Config, bar: Bar): Book
    requires Timed(b.pending)
  {
    WithTradingLogic(WithPendingChecked(b, bar.close, bar.high, bar.low, bar.checkTime),
                     cfg, bar.close, bar.high, bar.low, bar.histogram, bar.atr, bar.tradeTime)
  }

  /** The signal step places exactly one pending order, at close + ATR for a
      long and close - ATR for a short, and none without a signal. */
  lemma SignalPlacesOneOrder(b: Book, cfg: Config, close: real, high: real, low: real, histogram: real, atr: real, now: real)
    ensures var r := WithTradingLogic(b, cfg, close, high, low, histogram, atr, now);
      && (SignalOf(atr, b.prevHistogram, histogram) == GoLong ==>
            r.pending == b.pending + [PendingTrade(Long, close + atr, atr, cfg.volume, now)])
      && (SignalOf(atr, b.prevHistogram, histogram) == GoShort ==>
            r.pending == b.pending + [PendingTrade(Short, close - atr, atr, cfg.volume, now)])
      && (SignalOf(atr, b.prevHistogram, histogram) == NoSignal ==> r.pending == b.pending)
      && r.prevHistogram == NextPrevHistogram(atr, b.prevHistogram, histogram)
  {
  }

  /** Checking pending orders keeps the lists well formed. */
  lemma PendingCheckPreservesWellFormed(b: Book, close: real, high: real, low: real, now: real)
    requires WellFormed(b)
    ensures Timed(b.pending)
    ensures WellFormed(WithPendingChecked(b, close, high, low, now))
  {
    AfterCheckStatuses(b.pending, now, low, high, close);
  }

  /** The trading logic keeps the lists well formed. */
  lemma TradingLogicPreservesWellFormed(b: Book, cfg: Config, close: real, high: real, low: real, histogram: real, atr: real, now: real)
    requires WellFormed(b)
    ensures WellFormed(WithTradingLogic(b, cfg, close, high, low, histogram, atr, now))
  {
    var r := WithTradingLogic(b, cfg, close, high, low, histogram, atr, now);
    SignalPlacesOneOrder(b, cfg, close, high, low, histogram, atr, now);
    var managed := ManageTrades(b.open, cfg, close, high, low, atr, now);
    forall t | t in r.open
      ensures t.status != Pending
    {
      var i :| 0 <= i < |managed| && managed[i] == t;
      SteppedLifecycle(b.open[i], cfg, close, high, low, atr, now);
    }
    NewlyClosedSettled(b.open, cfg, close, high, low, atr, now);
    HistoryStaysInOpen(b.open, b.history, cfg, close, high, low, atr, now);
  }

  /** One bar keeps the lists well formed. */
  lemma WithBarPreservesWellFormed(b: Book, cfg: Config, bar: Bar)
    requires WellFormed(b)
    ensures Timed(b.pending)
    ensures WellFormed(WithBar(b, cfg, bar))
  {
    PendingCheckPreservesWellFormed(b, bar.close, bar.high, bar.low, bar.checkTime);
    TradingLogicPreservesWellFormed(WithPendingChecked(b, bar.close, bar.high, bar.low, bar.checkTime),
                                    cfg, bar.close, bar.high, bar.low, bar.histogram, bar.atr, bar.tradeTime);
  }

  /** The state after replaying `bars` in order from `b`. */
  function Replay(b: Book, cfg: Config, bars: seq<Bar>): (r: Book)
    requires WellFormed(b)
    ensures WellFormed(r)
    decreases |bars|
  {
    if bars == [] then b
    else
      var prior := Replay(b, cfg, bars[..|bars| - 1]);
      WithBarPreservesWellFormed(prior, cfg, bars[|bars| - 1]);
      WithBar(prior, cfg, bars[|bars| - 1])
  }

  /** Replaying one more bar applies that bar to the replay so far. */
  lemma ReplayStep(b: Book, cfg: Config, bars: seq<Bar>, i: nat)
    requires WellFormed(b) && i < |bars|
    ensures WellFormed(Replay(b, cfg, bars[..i]))
    ensures Replay(b, cfg, bars[..i + 1]) == WithBar(Replay(b, cfg, bars[..i]), cfg, bars[i])
  {
    assert bars[..i + 1][..i] == bars[..i];
  }

  /** Open trades keep their positions across a bar, each stepped once; the
      list grows only by the orders that were pending before the bar. */
  lemma WithBarKeepsOpenPositions(b: Book, cfg: Config, bar: Bar)
    requires Timed(b.pending)
    ensures var r := WithBar(b, cfg, bar);
      && |r.open| == |b.open| + |Triggered(b.pending, bar.checkTime, bar.low, bar.high, bar.close)|
      && forall i :: 0 <= i < |b.open| ==>
           r.open[i] == Stepped(b.open[i], cfg, bar.close, bar.high, bar.low, bar.atr, bar.tradeTime)
  {
    var checked := WithPendingChecked(b, bar.close, bar.high, bar.low, bar.checkTime);
    assert forall i :: 0 <= i < |b.open| ==> checked.open[i] == b.open[i];
  }

  /** Within a bar, pending orders are processed before new ones are placed:
      every trade opened on this bar comes from an order that was pending
      before it, and the order placed on this bar, if any, is still pending
      at the end of it, behind the orders that stayed pending. */
  lemma NewOrderWaitsOneBar(b: Book, cfg: Config, bar: Bar)
    requires Timed(b.pending)
    ensures var r := WithBar(b, cfg, bar);
            var kept := Kept(b.pending, bar.checkTime, bar.low, bar.high);
      && |b.open| <= |r.open| <= |b.open| + |b.pending|
      && (forall j :: |b.open| <= j < |r.open| ==>
            exists o :: o in b.pending && Fires(o, bar.checkTime, bar.low, bar.high) &&
                        r.open[j] == Stepped(Activated(o, bar.close, bar.checkTime), cfg, bar.close, bar.high, bar.low, bar.atr, bar.tradeTime))
      && |kept| <= |r.pending| <= |kept| + 1
      && r.pending[..|kept|] == kept
      && (forall j :: |kept| <= j < |r.pending| ==>
            r.pending[j].status == Pending && r.pending[j].orderTime == Some(bar.tradeTime))
  {
    var r := WithBar(b, cfg, bar);
    var triggered := Triggered(b.pending, bar.checkTime, bar.low, bar.high, bar.close);
    var checked := WithPendingChecked(b, bar.close, bar.high, bar.low, bar.checkTime);
    OrdersAreConserved(b.pending, bar.checkTime, bar.low, bar.high, bar.close);
    WithBarKeepsOpenPositions(b, cfg, bar);
    forall j | |b.open| <= j < |r.open|
      ensures exists o :: o in b.pending && Fires(o, bar.checkTime, bar.low, bar.high) &&
                          r.open[j] == Stepped(Activated(o, bar.close, bar.checkTime), cfg, bar.close, bar.high, bar.low, bar.atr, bar.tradeTime)
    {
      var t := triggered[j - |b.open|];
      assert checked.open[j] == t;
      TriggeredMembers(b.pending, bar.checkTime, bar.low, bar.high, bar.close, t);
    }
    SignalPlacesOneOrder(checked, cfg, bar.close, bar.high, bar.low, bar.histogram, bar.atr, bar.tradeTime);
  }

  /** The history is append-only over a replay. */
  lemma {:induction false} LedgerAppendOnly(b: Book, cfg: Config, bars: seq<Bar>)
    requires WellFormed(b)
    ensures b.history <= Replay(b, cfg, bars).history
    decreases |bars|
  {
    if bars != [] {
      LedgerAppendOnly(b, cfg, bars[..|bars| - 1]);
    }
  }

  /** Over its whole lifetime a trade keeps its place in the open list, its
      side and its target, and its stop never worsens: it never falls for a
      long and never rises for a short. */
  lemma {:induction false} StopNeverLoosens(b: Book, cfg: Config, bars: seq<Bar>, i: nat)
    requires WellFormed(b) && i < |b.open|
    ensures var r := Replay(b, cfg, bars);
      && i < |r.open|
      && r.open[i].side == b.open[i].side && r.open[i].tp == b.open[i].tp
      && (b.open[i].side == Long ==> r.open[i].sl >= b.open[i].sl)
      && (b.open[i].side == Short ==> r.open[i].sl <= b.open[i].sl)
    decreases |bars|
  {
    if bars != [] {
      var prior := Replay(b, cfg, bars[..|bars| - 1]);
      var bar := bars[|bars| - 1];
      StopNeverLoosens(b, cfg, bars[..|bars| - 1], i);
      WithBarKeepsOpenPositions(prior, cfg, bar);
      SteppedLifecycle(prior.open[i], cfg, bar.close, bar.high, bar.low, bar.atr, bar.tradeTime);
    }
  }

  /** A closed trade is never touched again. */
  lemma {:induction false} ClosedTradeFrozen(b: Book, cfg: Config, bars: seq<Bar>, i: nat)
    requires WellFormed(b) && i < |b.open| && b.open[i].status == Closed
    ensures i < |Replay(b, cfg, bars).open| && Replay(b, cfg, bars).open[i] == b.open[i]
    decreases |bars|
  {
    if bars != [] {
      var prior := Replay(b, cfg, bars[..|bars| - 1]);
      ClosedTradeFrozen(b, cfg, bars[..|bars| - 1], i);
      WithBarKeepsOpenPositions(prior, cfg, bars[|bars| - 1]);
    }
  }

  /** While no bar has passed the ATR gate the remembered histogram is left
      as it was. */
  lemma {:induction false} GatedBarsKeepHistogram(b: Book, cfg: Config, bars: seq<Bar>)
    requires WellFormed(b)
    requires forall j :: 0 <= j < |bars| ==> bars[j].atr <= 1.0
    ensures Replay(b, cfg, bars).prevHistogram == b.prevHistogram
    decreases |bars|
  {
    if bars != [] {
      GatedBarsKeepHistogram(b, cfg, bars[..|bars| - 1]);
    }
  }

  /** Starting with no remembered histogram, the first bar that passes the
      ATR gate never signals and places no order. */
  lemma FirstQualifyingBarNeverSignals(b: Book, cfg: Config, bars: seq<Bar>, k: nat)
    requires WellFormed(b) && b.prevHistogram.None?
    requires k < |bars|
    requires forall j :: 0 <= j < k ==> bars[j].atr <= 1.0
    ensures var prior := Replay(b, cfg, bars[..k]);
      && prior.prevHistogram.None?
      && SignalOf(bars[k].atr, prior.prevHistogram, bars[k].histogram) == NoSignal
      && |WithBar(prior, cfg, bars[k]).pending| <= |prior.pending|
  {
    GatedBarsKeepHistogram(b, cfg, bars[..k]);
    var prior := Replay(b, cfg, bars[..k]);
    var bar := bars[k];
    OrdersAreConserved(prior.pending, bar.checkTime, bar.low, bar.high, bar.close);
    var checked := WithPendingChecked(prior, bar.close, bar.high, bar.low, bar.checkTime);
    SignalPlacesOneOrder(checked, cfg, bar.close, bar.high, bar.low, bar.histogram, bar.atr, bar.tradeTime);
  }
}
