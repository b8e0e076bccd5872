/** The loop over `open_trades` at the end of
    `TradingBot.simulate_trading_logic`: every trade still open first has its
    stop trailed and then is closed at the bar close when the bar reached its
    target or its (new) stop. Closed trades stay in the list untouched. */
module Positions {
  import opened Trades

  /** One iteration of the loop, for one trade. */
  function Stepped(t: Trade, cfg: Config, close: real, high: real, low: real, atr: real, now: real): Trade
  {
    if t.status == Open then
      var trailed := Trailed(t, close, atr, cfg.trailingMultiplier);
      if ExitHit(trailed, high, low) then ClosedAt(trailed, close, now, cfg.pointValue, cfg.leverage)
      else trailed
    else t
  }

  /** The `open_trades` list after the loop: each trade stepped in place. */
  function ManageTrades(trades: seq<Trade>, cfg: Config, close: real, high: real, low: real, atr: real, now: real): (r: seq<Trade>)
    ensures |r| == |trades|
    ensures forall i :: 0 <= i < |trades| ==> r[i] == Stepped(trades[i], cfg, close, high, low, atr, now)
    decreases |trades|
  {
    if trades == [] then []
    else
      ManageTrades(trades[..|trades| - 1], cfg, close, high, low, atr, now)
        + [Stepped(trades[|trades| - 1], cfg, close, high, low, atr, now)]
  }

  /** The state of the list part way through the loop: the first `i`
      trades stepped, the rest as they were. */
  predicate SteppedPrefix(cur: seq<Trade>, start: seq<Trade>, i: nat, cfg: Config, close: real, high: real, low: real, atr: real, now: real)
  {
    && i <= |start| == |cur|
    && (forall j :: 0 <= j < i ==> cur[j] == Stepped(start[j], cfg, close, high, low, atr, now))
    && (forall j :: i <= j < |start| ==> cur[j] == start[j])
  }

  /** Stepping the next trade in place extends the stepped prefix by one. */
  lemma SteppedPrefixStep(cur: seq<Trade>, start: seq<Trade>, i: nat, cfg: Config, close: real, high: real, low: real, atr: real, now: real)
    requires SteppedPrefix(cur, start, i, cfg, close, high, low, atr, now) && i < |start|
    ensures cur[i] == start[i]
    ensures SteppedPrefix(cur[i := Stepped(start[i], cfg, close, high, low, atr, now)], start, i + 1, cfg, close, high, low, atr, now)
  {
  }

  /** Once every trade is stepped, the list is `ManageTrades` of the start. */
  lemma SteppedPrefixDone(cur: seq<Trade>, start: seq<Trade>, cfg: Config, close: real, high: real, low: real, atr: real, now: real)
    requires SteppedPrefix(cur, start, |start|, cfg, close, high, low, atr, now)
    ensures cur == ManageTrades(start, cfg, close, high, low, atr, now)
  {
    var managed := ManageTrades(start, cfg, close, high, low, atr, now);
    assert |cur| == |managed|;
    assert forall j :: 0 <= j < |cur| ==> cur[j] == managed[j];
  }

  /** What the loop appends to `trade_history`: the trades it closes, in
      list order. */
  function NewlyClosed(trades: seq<Trade>, cfg: Config, close: real, high: real, low: real, atr: real, now: real): seq<Trade>
    decreases |trades|
  {
    if trades == [] then []
    else
      var last := trades[|trades| - 1];
      var stepped := Stepped(last, cfg, close, high, low, atr, now);
      NewlyClosed(trades[..|trades| - 1], cfg, close, high, low, atr, now)
        + (if last.status == Open && stepped.status == Closed then [stepped] else [])
  }

  /** Extending the list by one trade extends what the loop closes by that
      trade's stepped form exactly when the step closes it. */
  lemma NewlyClosedStep(trades: seq<Trade>, i: nat, cfg: Config, close: real, high: real, low: real, atr: real, now: real)
    requires i < |trades|
    ensures var stepped := Stepped(trades[i], cfg, close, high, low, atr, now);
      NewlyClosed(trades[..i + 1], cfg, close, high, low, atr, now) ==
      NewlyClosed(trades[..i], cfg, close, high, low, atr, now)
        + (if trades[i].status == Open && stepped.status == Closed then [stepped] else [])
  {
    assert trades[..i + 1][..i] == trades[..i];
  }

  /** What one step may change: only the stop (ratcheted in the trade's
      favour) and, on exit, the close fields; a trade that is not open is
      left alone; an open trade closes exactly when the trailed trade hits
      its exit, at the bar close with the profit of its side. */
  lemma SteppedLifecycle(t: Trade, cfg: Config, close: real, high: real, low: real, atr: real, now: real)
    ensures var r := Stepped(t, cfg, close, high, low, atr, now);
      && (t.status != Open ==> r == t)
      && r.side == t.side && r.entryPrice == t.entryPrice && r.tp == t.tp && r.volume == t.volume
      && r.orderTime == t.orderTime && r.openTime == t.openTime
      && (t.side == Long ==> r.sl >= t.sl)
      && (t.side == Short ==> r.sl <= t.sl)
      && (t.status == Open ==> (r.status == Closed <==> ExitHit(Trailed(t, close, atr, cfg.trailingMultiplier), high, low)))
      && (t.status == Open && r.status != Closed ==> r.status == Open && r.profit == t.profit)
      && (t.status == Open && r.status == Closed ==>
            r.closePrice == Some(close) && r.closeTime == Some(now) &&
            r.profit == Some(Profit(t.side, t.entryPrice, close, t.volume, cfg.pointValue, cfg.leverage)))
  {
  }

  /** The exit compares the bar with the stop AFTER trailing: a long leaves
      when the high reaches the target or the low reaches the larger of the
      old stop and close - multiplier * ATR; a short mirrors this. */
  lemma ExitAgainstTrailedStop(t: Trade, cfg: Config, close: real, high: real, low: real, atr: real, now: real)
    requires t.status == Open
    ensures t.side == Long ==>
      (Stepped(t, cfg, close, high, low, atr, now).status == Closed <==>
       high >= t.tp || low <= t.sl || low <= close - cfg.trailingMultiplier * atr)
    ensures t.side == Short ==>
      (Stepped(t, cfg, close, high, low, atr, now).status == Closed <==>
       low <= t.tp || high >= t.sl || high >= close + cfg.trailingMultiplier * atr)
  {
    var trailed := Trailed(t, close, atr, cfg.trailingMultiplier);
    var candidate := if t.side == Long then close - cfg.trailingMultiplier * atr else close + cfg.trailingMultiplier * atr;
    assert trailed.tp == t.tp;
    assert trailed.sl == t.sl || trailed.sl == candidate;
    assert Stepped(t, cfg, close, high, low, atr, now).status == Closed <==> ExitHit(trailed, high, low);
  }

  /** A bar that reaches both target and stop of a long closes it once, at
      the bar close: neither level is preferred and neither is the fill. */
  lemma NoTargetStopPrecedence(t: Trade, cfg: Config, close: real, high: real, low: real, atr: real, now: real)
    requires t.status == Open && t.side == Long
    requires high >= t.tp && low <= t.sl
    ensures Stepped(t, cfg, close, high, low, atr, now).status == Closed
    ensures Stepped(t, cfg, close, high, low, atr, now).closePrice == Some(close)
    ensures |NewlyClosed([t], cfg, close, high, low, atr, now)| == 1
  {
    assert [t][..0] == [];
  }

  /** Everything the loop appends to the history is settled at this bar:
      closed, at the bar close, at `now`, with a profit; and it is never more
      trades than the list holds. */
  lemma {:induction false} NewlyClosedSettled(trades: seq<Trade>, cfg: Config, close: real, high: real, low: real, atr: real, now: real)
    ensures |NewlyClosed(trades, cfg, close, high, low, atr, now)| <= |trades|
    ensures forall c :: c in NewlyClosed(trades, cfg, close, high, low, atr, now) ==>
              c.status == Closed && c.profit.Some? && c.closePrice == Some(close) && c.closeTime == Some(now)
    decreases |trades|
  {
    if trades != [] {
      NewlyClosedSettled(trades[..|trades| - 1], cfg, close, high, low, atr, now);
    }
  }

  /** The history grows by exactly the trades that were open before the
      loop and closed in it, each in its stepped form. */
  lemma {:induction false} NewlyClosedMembers(trades: seq<Trade>, cfg: Config, close: real, high: real, low: real, atr: real, now: real, c: Trade)
    ensures c in NewlyClosed(trades, cfg, close, high, low, atr, now) <==>
            exists i :: 0 <= i < |trades| && trades[i].status == Open &&
                        Stepped(trades[i], cfg, close, high, low, atr, now).status == Closed &&
                        c == Stepped(trades[i], cfg, close, high, low, atr, now)
    decreases |trades|
  {
    if trades != [] {
      var init := trades[..|trades| - 1];
      NewlyClosedMembers(init, cfg, close, high, low, atr, now, c);
      if c in NewlyClosed(init, cfg, close, high, low, atr, now) {
        var i :| 0 <= i < |init| && init[i].status == Open &&
                 Stepped(init[i], cfg, close, high, low, atr, now).status == Closed &&
                 c == Stepped(init[i], cfg, close, high, low, atr, now);
        assert trades[i] == init[i];
      }
      if exists i :: 0 <= i < |trades| && trades[i].status == Open &&
                     Stepped(trades[i], cfg, close, high, low, atr, now).status == Closed &&
                     c == Stepped(trades[i], cfg, close, high, low, atr, now) {
        var i :| 0 <= i < |trades| && trades[i].status == Open &&
                 Stepped(trades[i], cfg, close, high, low, atr, now).status == Closed &&
                 c == Stepped(trades[i], cfg, close, high, low, atr, now);
        if i < |init| {
          assert init[i] == trades[i];
        }
      }
    }
  }

  /** A history whose trades are closed members of the open list stays
      inside it after the loop, together with the trades the loop closes:
      a closed trade is left as it is, and a newly closed one is the
      stepped trade left at its position. */
  lemma HistoryStaysInOpen(trades: seq<Trade>, history: seq<Trade>, cfg: Config, close: real, high: real, low: real, atr: real, now: real)
    requires forall t :: t in history ==> t.status == Closed && t in trades
    ensures forall t :: t in history + NewlyClosed(trades, cfg, close, high, low, atr, now) ==>
                          t in ManageTrades(trades, cfg, close, high, low, atr, now)
  {
    var managed := ManageTrades(trades, cfg, close, high, low, atr, now);
    forall t | t in history + NewlyClosed(trades, cfg, close, high, low, atr, now)
      ensures t in managed
    {
      if t in history {
        var j :| 0 <= j < |trades| && trades[j] == t;
        assert managed[j] == t;
      } else {
        NewlyClosedMembers(trades, cfg, close, high, low, atr, now, t);
        var j :| 0 <= j < |trades| && t == Stepped(trades[j], cfg, close, high, low, atr, now);
        assert managed[j] == t;
      }
    }
  }

  /** Proof helper: concatenation of trade lists is associative. Stated as
      a lemma so that the loop of `ManageOpenTrades` regroups its history
      in one step instead of reasoning about sequence equality inline. */
  lemma AppendAssociates(a: seq<Trade>, b: seq<Trade>, c: seq<Trade>)
    ensures (a + b) + c == a + (b + c)
  {
  }
}
