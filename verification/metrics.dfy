/** The four summary tiles of the dashboard and the one-line insight. Statistics
    that pandas reports as NaN for an empty table are None here. */
module Metrics {
  import opened Wrappers
  import opened Trades

  /** Number of winning trades (PnL strictly positive). */
  function Wins(pnl: seq<real>): (w: nat)
    ensures w <= |pnl|
    ensures w == 0 <==> forall i | 0 <= i < |pnl| :: pnl[i] <= 0.0
    ensures w == |pnl| <==> forall i | 0 <= i < |pnl| :: pnl[i] > 0.0
  {
    if pnl == [] then 0
    else
      assert forall i | 1 <= i < |pnl| :: pnl[1..][i - 1] == pnl[i];
      (if pnl[0] > 0.0 then 1 else 0) + Wins(pnl[1..])
  }

  /** Share of winning trades, in percent; None (NaN) for an empty table. */
  function WinningPercent(pnl: seq<real>): (p: Option<real>)
    ensures p.None? <==> |pnl| == 0
    ensures p.Some? ==> 0.0 <= p.value <= 100.0
    ensures p.Some? ==> (p.value == 100.0 <==> forall i | 0 <= i < |pnl| :: pnl[i] > 0.0)
    ensures p.Some? ==> (p.value == 0.0 <==> forall i | 0 <= i < |pnl| :: pnl[i] <= 0.0)
  {
    if |pnl| == 0 then None
    else
      PercentBounds(Wins(pnl), |pnl|);
      Some(Wins(pnl) as real / |pnl| as real * 100.0)
  }

  /** A count out of a positive total is between 0 and 100 percent, reaching
      each end only at the matching count. */
  lemma PercentBounds(w: nat, n: nat)
    requires 0 < n && w <= n
    ensures 0.0 <= w as real / n as real * 100.0 <= 100.0
    ensures w as real / n as real * 100.0 == 100.0 <==> w == n
    ensures w as real / n as real * 100.0 == 0.0 <==> w == 0
  {
  }

  /** Arithmetic mean of a column; None (NaN) for an empty column. */
  function Mean(s: seq<real>): (m: Option<real>)
    ensures m.None? <==> |s| == 0
    ensures m.Some? ==> m.value * |s| as real == Sum(s)
    ensures m.Some? ==> (m.value < 0.0 <==> Sum(s) < 0.0)
  {
    if |s| == 0 then None else Some(Sum(s) / |s| as real)
  }

  /** The advisory message: cautionary when the average trade loses. */
  datatype Insight = Cautionary | Encouraging

  /** `mean < 0` is false for NaN, so an empty table is told it trades profitably. */
  function InsightOf(pnl: seq<real>): (m: Insight)
    ensures m == Cautionary <==> |pnl| > 0 && Sum(pnl) < 0.0
  {
    match Mean(pnl)
    case Some(avg) => if avg < 0.0 then Cautionary else Encouraging
    case None => Encouraging
  }

  /** A table whose every trade loses gets the cautionary message. */
  lemma AllLosingIsCautionary(pnl: seq<real>)
    requires |pnl| > 0
    requires forall i | 0 <= i < |pnl| :: pnl[i] < 0.0
    ensures InsightOf(pnl) == Cautionary
  {
  }

  /** The four numbers of the trade summary. */
  datatype Summary = Summary(
    totalTrades: nat,
    winningPercent: Option<real>,
    totalPnL: real,
    avgHoldingMinutes: Option<real>)

  /** The summary of a table whose `PnL` and holding-time columns are given. */
  function Summarize(pnl: seq<real>, holding: seq<real>): (s: Summary)
    requires |holding| == |pnl|
    ensures s.totalTrades == |pnl|
    ensures s.totalTrades > 0 <==> s.winningPercent.Some? && s.avgHoldingMinutes.Some?
    ensures s.winningPercent.Some? ==> 0.0 <= s.winningPercent.value <= 100.0
    ensures s.totalPnL == Sum(pnl)
    ensures s.avgHoldingMinutes == Mean(holding)
  {
    Summary(|pnl|, WinningPercent(pnl), Sum(pnl), Mean(holding))
  }

  /** Two trades, one winning 100 and one losing 50: total 50, half of them winning. */
  lemma TwoTradeExample()
    ensures
      var ts := [Trade(None, "A", 100.0, 110.0, 10.0, 0, 60), Trade(None, "B", 50.0, 40.0, 5.0, 0, 120)];
      && PnLColumn(ts) == [100.0, -50.0]
      && Sum(PnLColumn(ts)) == 50.0
      && WinningPercent(PnLColumn(ts)) == Some(50.0)
      && InsightOf(PnLColumn(ts)) == Encouraging
  {
  }
}
