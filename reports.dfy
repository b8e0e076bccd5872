/** `output_backtest_results` and `calculate_max_drawdown`: aggregate
    statistics over the trade history. Drawdown here is the spread between
    the largest and the smallest single-trade profit among closed trades,
    not a drawdown of the running equity. */
module Reports {
  import opened Trades

  /** What `output_backtest_results` prints, as a value. */
  datatype Report = Report(totalProfit: real, numTrades: nat, winTrades: nat, lossTrades: nat,
                           winRate: real, maxDrawdown: real)

  /** Every entry has the `profit` key the aggregates read. */
  predicate Settled(history: seq<Trade>)
  {
    forall t :: t in history ==> t.profit.Some?
  }

  /** Every closed entry has the `profit` key the drawdown reads. */
  predicate ClosedSettled(history: seq<Trade>)
  {
    forall t :: t in history && t.status == Closed ==> t.profit.Some?
  }

  function TotalProfit(history: seq<Trade>): real
    requires Settled(history)
    decreases |history|
  {
    if history == [] then 0.0
    else TotalProfit(history[..|history| - 1]) + history[|history| - 1].profit.value
  }

  /** Trades with profit > 0. */
  function WinCount(history: seq<Trade>): nat
    requires Settled(history)
    decreases |history|
  {
    if history == [] then 0
    else WinCount(history[..|history| - 1]) + (if history[|history| - 1].profit.value > 0.0 then 1 else 0)
  }

  /** Trades with profit <= 0. */
  function LossCount(history: seq<Trade>): nat
    requires Settled(history)
    decreases |history|
  {
    if history == [] then 0
    else LossCount(history[..|history| - 1]) + (if history[|history| - 1].profit.value <= 0.0 then 1 else 0)
  }

  /** Every trade is either a win or a loss, never both. */
  lemma {:induction false} WinsAndLossesPartition(history: seq<Trade>)
    requires Settled(history)
    ensures WinCount(history) + LossCount(history) == |history|
    decreases |history|
  {
    if history != [] {
      WinsAndLossesPartition(history[..|history| - 1]);
    }
  }

  /** The profits of the closed entries, in history order. */
  function ClosedProfits(history: seq<Trade>): seq<real>
    requires ClosedSettled(history)
    decreases |history|
  {
    if history == [] then []
    else
      var last := history[|history| - 1];
      ClosedProfits(history[..|history| - 1]) + (if last.status == Closed then [last.profit.value] else [])
  }

  lemma {:induction false} ClosedProfitsMembers(history: seq<Trade>, p: real)
    requires ClosedSettled(history)
    ensures p in ClosedProfits(history) <==> exists t :: t in history && t.status == Closed && t.profit == Some(p)
    decreases |history|
  {
    if history != [] {
      var init := history[..|history| - 1];
      assert history == init + [history[|history| - 1]];
      ClosedProfitsMembers(init, p);
    }
  }

  function MaxOf(s: seq<real>): (m: real)
    requires s != []
    ensures forall i :: 0 <= i < |s| ==> s[i] <= m
    decreases |s|
  {
    if |s| == 1 then s[0]
    else
      var rest := MaxOf(s[..|s| - 1]);
      if s[|s| - 1] > rest then s[|s| - 1] else rest
  }

  function MinOf(s: seq<real>): (m: real)
    requires s != []
    ensures forall i :: 0 <= i < |s| ==> m <= s[i]
    decreases |s|
  {
    if |s| == 1 then s[0]
    else
      var rest := MinOf(s[..|s| - 1]);
      if s[|s| - 1] < rest then s[|s| - 1] else rest
  }

  /** One more entry adds its profit to the closed profits exactly when it is closed. */
  lemma ClosedProfitsStep(history: seq<Trade>, i: nat)
    requires ClosedSettled(history) && i < |history|
    ensures history[i].status == Closed ==>
              ClosedProfits(history[..i + 1]) == ClosedProfits(history[..i]) + [history[i].profit.value]
    ensures history[i].status != Closed ==> ClosedProfits(history[..i + 1]) == ClosedProfits(history[..i])
  {
    assert history[..i + 1][..i] == history[..i];
  }

  /** Appending a value moves each extreme only if the value passes it. */
  lemma ExtremesStep(s: seq<real>, p: real)
    ensures s != [] ==> MaxOf(s + [p]) == (if p > MaxOf(s) then p else MaxOf(s))
    ensures s != [] ==> MinOf(s + [p]) == (if p < MinOf(s) then p else MinOf(s))
    ensures s == [] ==> MaxOf(s + [p]) == p == MinOf(s + [p])
  {
    assert (s + [p])[..|s|] == s;
  }

  /** Both extremes are values of the sequence. */
  lemma {:induction false} ExtremesAttained(s: seq<real>)
    requires s != []
    ensures MaxOf(s) in s && MinOf(s) in s
    decreases |s|
  {
    if |s| > 1 {
      var init := s[..|s| - 1];
      ExtremesAttained(init);
      assert s == init + [s[|s| - 1]];
    }
  }

  /** Largest closed-trade profit minus smallest, 0 without closed trades. */
  function MaxDrawdown(history: seq<Trade>): real
    requires ClosedSettled(history)
  {
    var profits := ClosedProfits(history);
    if profits == [] then 0.0 else MaxOf(profits) - MinOf(profits)
  }

  /** The drawdown is never negative, bounds the profit difference of any
      two closed trades, is reached by some pair of them, and is 0 when no
      trade is closed. */
  lemma MaxDrawdownIsLargestSpread(history: seq<Trade>)
    requires ClosedSettled(history)
    ensures MaxDrawdown(history) >= 0.0
    ensures forall a, b :: a in history && b in history && a.status == Closed && b.status == Closed ==>
              a.profit.value - b.profit.value <= MaxDrawdown(history)
    ensures (exists t :: t in history && t.status == Closed) ==>
              exists a, b :: a in history && b in history && a.status == Closed && b.status == Closed &&
                             a.profit.value - b.profit.value == MaxDrawdown(history)
    ensures (forall t :: t in history ==> t.status != Closed) ==> MaxDrawdown(history) == 0.0
  {
    var profits := ClosedProfits(history);
    forall a, b | a in history && b in history && a.status == Closed && b.status == Closed
      ensures a.profit.value - b.profit.value <= MaxDrawdown(history)
    {
      ClosedProfitsMembers(history, a.profit.value);
      ClosedProfitsMembers(history, b.profit.value);
    }
    if exists t :: t in history && t.status == Closed {
      var t :| t in history && t.status == Closed;
      ClosedProfitsMembers(history, t.profit.value);
      ExtremesAttained(profits);
      ClosedProfitsMembers(history, MaxOf(profits));
      ClosedProfitsMembers(history, MinOf(profits));
    }
    if profits != [] {
      ClosedProfitsMembers(history, profits[0]);
    }
  }

  /** The loop of `calculate_max_drawdown`; `None` stands for the source's
      infinite sentinels before the first closed trade. */
  method CalculateMaxDrawdown(history: seq<Trade>) returns (maxDrawdown: real)
    requires ClosedSettled(history)
    ensures maxDrawdown == MaxDrawdown(history)
  {
    var peak: Option<real> := None;
    var trough: Option<real> := None;
    maxDrawdown := 0.0;
    for i := 0 to |history|
      invariant peak.Some? <==> ClosedProfits(history[..i]) != []
      invariant trough.Some? <==> peak.Some?
      invariant peak.Some? ==> peak.value == MaxOf(ClosedProfits(history[..i]))
      invariant trough.Some? ==> trough.value == MinOf(ClosedProfits(history[..i]))
      invariant maxDrawdown == if peak.Some? then peak.value - trough.value else 0.0
    {
      ClosedProfitsStep(history, i);
      var trade := history[i];
      if trade.status == Closed {
        var p := trade.profit.value;
        ghost var before := ClosedProfits(history[..i]);
        ExtremesStep(before, p);
        assert ClosedProfits(history[..i + 1]) == before + [p];
        peak := Some(if peak.None? || p > peak.value then p else peak.value);
        trough := Some(if trough.None? || p < trough.value then p else trough.value);
        var drawdown := peak.value - trough.value;
        maxDrawdown := if drawdown > maxDrawdown then drawdown else maxDrawdown;
        assert peak.value == MaxOf(ClosedProfits(history[..i + 1]));
        assert trough.value == MinOf(ClosedProfits(history[..i + 1]));
      }
    }
    assert history[..|history|] == history;
  }

  /** The aggregates: the counts partition the trades, the win rate is a
      fraction (0 without trades) and the drawdown is non-negative. */
  function Summary(history: seq<Trade>): (r: Report)
    requires Settled(history)
    ensures r.numTrades == |history| && r.winTrades + r.lossTrades == r.numTrades
    ensures r.numTrades == 0 ==> r.winRate == 0.0
    ensures 0.0 <= r.winRate <= 1.0
    ensures r.maxDrawdown >= 0.0
  {
    WinsAndLossesPartition(history);
    MaxDrawdownIsLargestSpread(history);
    var wins := WinCount(history);
    var n := |history|;
    FractionBounds(wins as real, n as real);
    Report(TotalProfit(history), n, wins, LossCount(history),
           if n > 0 then wins as real / n as real else 0.0,
           MaxDrawdown(history))
  }

  /** A non-negative part of a positive whole is a fraction in [0, 1]. */
  lemma FractionBounds(part: real, whole: real)
    requires 0.0 <= part <= whole
    ensures whole > 0.0 ==> 0.0 <= part / whole <= 1.0
  {
    if whole > 0.0 {
      assert part / whole * whole == part;
    }
  }

  /** `output_backtest_results`, returning what the source prints. */
  method OutputBacktestResults(history: seq<Trade>) returns (report: Report)
    requires Settled(history)
    ensures report == Summary(history)
  {
    var totalProfit := TotalProfit(history);
    var numTrades := |history|;
    var winTrades := WinCount(history);
    var lossTrades := LossCount(history);
    var winRate := if numTrades > 0 then winTrades as real / numTrades as real else 0.0;
    var maxDrawdown := CalculateMaxDrawdown(history);
    report := Report(totalProfit, numTrades, winTrades, lossTrades, winRate, maxDrawdown);
  }
}
