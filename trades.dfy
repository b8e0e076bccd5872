/** The order/trade record of the simulated bot and the rules that apply to
    one record at a time: the take-profit/stop-loss bracket set when an order
    is created, triggering and expiry of a pending order, the trailing-stop
    ratchet, the exit test and the close with its realised profit.

    Prices, ATR, volume, point value and leverage are `real`; the source's
    floating-point rounding is not modelled. Wall-clock instants are `real`
    seconds. */
module Trades {

  datatype Option<T> = None | Some(value: T)

  /** The record's `type` key. The bot only ever creates 'long' or 'short'. */
  datatype Side = Long | Short

  /** The record's `status` key. */
  datatype Status = Pending | Open | Closed

  /** The `order_type` argument of `open_position`; every string other than
      'market' and 'pending' is `OtherOrderType`. */
  datatype OrderType = Market | PendingOrder | OtherOrderType

  /** The constructor parameters the order lifecycle reads. */
  datatype Config = Config(volume: real, leverage: real, pointValue: real, trailingMultiplier: real)

  /** One order or trade dictionary. Keys the source sets only on some paths
      are `Option`s: `order_time` (pending orders), `open_time` (market
      trades and triggered orders), and `close_price`, `close_time`,
      `profit` (closed trades). */
  datatype Trade = Trade(
    side: Side,
    entryPrice: real,
    tp: real,
    sl: real,
    volume: real,
    status: Status,
    orderTime: Option<real>,
    openTime: Option<real>,
    closePrice: Option<real>,
    closeTime: Option<real>,
    profit: Option<real>)

  /** A pending order older than this many seconds of wall-clock time expires. */
  const PendingTtlSeconds: real := 300.0

  function TakeProfit(side: Side, entry: real, atr: real): real
  {
    match side
    case Long => entry + 1.0 * atr + 0.5
    case Short => entry - 1.0 * atr - 0.5
  }

  function StopLoss(side: Side, entry: real, atr: real): real
  {
    match side
    case Long => entry - 2.0 * atr
    case Short => entry + 2.0 * atr
  }

  /** With a non-negative ATR the bracket surrounds the entry price on the
      side that matches the direction: the target lies ATR + 0.5 in the
      favourable direction, the stop 2 ATR in the unfavourable one. */
  lemma BracketAroundEntry(side: Side, entry: real, atr: real)
    requires atr >= 0.0
    ensures side == Long ==> StopLoss(side, entry, atr) <= entry < TakeProfit(side, entry, atr)
    ensures side == Short ==> TakeProfit(side, entry, atr) < entry <= StopLoss(side, entry, atr)
    ensures side == Long ==> TakeProfit(side, entry, atr) - entry == atr + 0.5 && entry - StopLoss(side, entry, atr) == 2.0 * atr
    ensures side == Short ==> entry - TakeProfit(side, entry, atr) == atr + 0.5 && StopLoss(side, entry, atr) - entry == 2.0 * atr
  {
  }

  /** The record a 'market' order appends to `open_trades`. */
  function MarketTrade(side: Side, entry: real, atr: real, volume: real, now: real): Trade
  {
    Trade(side, entry, TakeProfit(side, entry, atr), StopLoss(side, entry, atr), volume, Open,
          None, Some(now), None, None, None)
  }

  /** The record a 'pending' order appends to `pending_orders`. */
  function PendingTrade(side: Side, entry: real, atr: real, volume: real, now: real): Trade
  {
    Trade(side, entry, TakeProfit(side, entry, atr), StopLoss(side, entry, atr), volume, Pending,
          Some(now), None, None, None, None)
  }

  /** The age test of `check_pending_orders`: strictly more than 300 s since
      the order was placed. */
  predicate Expired(order: Trade, now: real)
    requires order.orderTime.Some?
  {
    now - order.orderTime.value > PendingTtlSeconds
  }

  /** The price test of `check_pending_orders`, written per side as the
      source writes it. */
  predicate Triggers(order: Trade, low: real, high: real)
  {
    (order.side == Long && low <= order.entryPrice <= high) ||
    (order.side == Short && high >= order.entryPrice >= low)
  }

  /** The two per-side conditions are the same: the bar's range contains the
      order's price. */
  lemma TriggerIgnoresSide(order: Trade, low: real, high: real)
    ensures Triggers(order, low, high) <==> low <= order.entryPrice <= high
  {
  }

  /** A triggered order: it becomes an open trade filled at the bar close,
      keeping the bracket computed from its original target price. */
  function Activated(order: Trade, close: real, now: real): Trade
  {
    order.(status := Open, openTime := Some(now), entryPrice := close)
  }

  /** `update_trailing_stop` applied to one record. */
  function Trailed(t: Trade, close: real, atr: real, multiplier: real): (r: Trade)
    ensures r == t.(sl := r.sl)
    ensures t.side == Long ==> r.sl >= t.sl && r.sl >= close - multiplier * atr
    ensures t.side == Long ==> r.sl == t.sl || r.sl == close - multiplier * atr
    ensures t.side == Short ==> r.sl <= t.sl && r.sl <= close + multiplier * atr
    ensures t.side == Short ==> r.sl == t.sl || r.sl == close + multiplier * atr
  {
    match t.side
    case Long =>
      var candidate := close - multiplier * atr;
      t.(sl := if t.sl >= candidate then t.sl else candidate)
    case Short =>
      var candidate := close + multiplier * atr;
      t.(sl := if t.sl <= candidate then t.sl else candidate)
  }

  /** The exit test of `simulate_trading_logic`; there is no precedence
      between target and stop, both lead to the same close. */
  predicate ExitHit(t: Trade, high: real, low: real)
  {
    match t.side
    case Long => high >= t.tp || low <= t.sl
    case Short => low <= t.tp || high >= t.sl
  }

  function Profit(side: Side, entry: real, close: real, volume: real, pointValue: real, leverage: real): real
  {
    match side
    case Long => (close - entry) * volume * pointValue * leverage
    case Short => (entry - close) * volume * pointValue * leverage
  }

  /** With positive volume, point value and leverage a long gains exactly
      when the close is above the entry and a short exactly when it is
      below; the two sides' profits are opposite. */
  lemma ProfitSign(side: Side, entry: real, close: real, volume: real, pointValue: real, leverage: real)
    requires volume > 0.0 && pointValue > 0.0 && leverage > 0.0
    ensures side == Long ==> (Profit(side, entry, close, volume, pointValue, leverage) > 0.0 <==> close > entry)
    ensures side == Short ==> (Profit(side, entry, close, volume, pointValue, leverage) > 0.0 <==> close < entry)
    ensures side == Long ==> (Profit(side, entry, close, volume, pointValue, leverage) == 0.0 <==> close == entry)
    ensures Profit(Long, entry, close, volume, pointValue, leverage) == -Profit(Short, entry, close, volume, pointValue, leverage)
  {
    var k := volume * pointValue * leverage;
    assert volume * pointValue > 0.0;
    assert k > 0.0;
    assert Profit(Long, entry, close, volume, pointValue, leverage) == (close - entry) * k;
    assert Profit(Short, entry, close, volume, pointValue, leverage) == (entry - close) * k;
    PositiveScale(close - entry, k);
    PositiveScale(entry - close, k);
  }

  /** Multiplying by a positive factor keeps the sign. */
  lemma PositiveScale(x: real, k: real)
    requires k > 0.0
    ensures x * k > 0.0 <==> x > 0.0
    ensures x * k == 0.0 <==> x == 0.0
  {
    if x > 0.0 {
      assert x * k > 0.0;
    } else if x < 0.0 {
      assert (-x) * k > 0.0;
    }
  }

  /** `close_position` applied to one record: a trade already closed is
      returned unchanged; otherwise it is marked closed at `price` with its
      realised profit. */
  function ClosedAt(t: Trade, price: real, now: real, pointValue: real, leverage: real): (r: Trade)
    ensures t.status == Closed ==> r == t
    ensures r.status == Closed
    ensures t.status != Closed ==> r.closePrice == Some(price) && r.closeTime == Some(now)
    ensures t.status != Closed ==> r.profit == Some(Profit(t.side, t.entryPrice, price, t.volume, pointValue, leverage))
    ensures r.(status := t.status, closePrice := t.closePrice, closeTime := t.closeTime, profit := t.profit) == t
  {
    if t.status == Closed then t
    else
      t.(status := Closed, closePrice := Some(price), closeTime := Some(now),
         profit := Some(Profit(t.side, t.entryPrice, price, t.volume, pointValue, leverage)))
  }

  /** Closing is idempotent: a second close, at any price and time, changes
      nothing. */
  lemma CloseIdempotent(t: Trade, price: real, now: real, price': real, now': real, pointValue: real, leverage: real)
    ensures ClosedAt(ClosedAt(t, price, now, pointValue, leverage), price', now', pointValue, leverage)
         == ClosedAt(t, price, now, pointValue, leverage)
  {
  }
}
