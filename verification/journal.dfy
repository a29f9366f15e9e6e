/** The journal's pipeline: the uploaded table is cleaned and given its derived
    columns in place, then the summary tiles, the charts' series and the insight
    are read off the finished table. */
module Journal {
  import opened Wrappers
  import opened Trades
  import opened Metrics
  import opened Symbols

  /** The uploaded data frame, changed step by step. */
  class Frame {
    var hasDate: bool
    var dateError: bool
    var rows: seq<RawRow>
    var pnl: seq<real>
    var holding: seq<real>
    var cumulative: seq<real>

    /** The frame as read from the upload, before any step. */
    constructor (t: RawTable)
      ensures hasDate == t.hasDate && rows == t.rows && !dateError
      ensures pnl == [] && holding == [] && cumulative == []
    {
      hasDate, rows, dateError := t.hasDate, t.rows, false;
      pnl, holding, cumulative := [], [], [];
    }

    /** No row has a missing cell. */
    ghost predicate Cleaned()
      reads this`rows, this`hasDate
    {
      forall i | 0 <= i < |rows| :: Complete(rows[i], hasDate)
    }

    /** The rows, typed; defined once no cell is missing. */
    function Table(): seq<Trade>
      reads this`rows, this`hasDate
      requires Cleaned()
    {
      ToTrades(rows, hasDate)
    }

    /** `df.dropna(inplace=True)`. */
    method DropNA()
      modifies this`rows
      ensures rows == DropIncomplete(old(rows), hasDate)
      ensures Cleaned()
    {
      rows := DropIncomplete(rows, hasDate);
    }

    /** The `Date` check. The dates arrive already parsed, so a file with a
        `Date` column passes unchanged; a file without one has the error
        recorded, and the later steps still run. */
    method CheckDate()
      modifies this`dateError
      ensures dateError <==> !hasDate
    {
      dateError := !hasDate;
    }

    /** Adds the three derived columns, in the order the script adds them. */
    method AddColumns()
      requires Cleaned()
      modifies this`pnl, this`holding, this`cumulative
      ensures pnl == PnLColumn(Table())
      ensures holding == HoldingColumn(Table())
      ensures cumulative == RunningTotals(pnl)
    {
      AddPnL();
      AddHoldingTime();
      AddCumulativePnL();
    }

    /** Adds the `PnL` column. */
    method AddPnL()
      requires Cleaned()
      modifies this`pnl
      ensures pnl == PnLColumn(Table())
      ensures |pnl| == |rows|
    {
      pnl := PnLColumn(Table());
    }

    /** Adds the `Holding_Time(min)` column. */
    method AddHoldingTime()
      requires Cleaned()
      modifies this`holding
      ensures holding == HoldingColumn(Table())
      ensures |holding| == |rows|
    {
      holding := HoldingColumn(Table());
    }

    /** Adds the `Cumulative_PnL` column, in row order. */
    method AddCumulativePnL()
      modifies this`cumulative
      ensures cumulative == RunningTotals(pnl)
      ensures |pnl| > 0 ==> cumulative[|pnl| - 1] == Sum(pnl)
    {
      cumulative := CumulativeSum(pnl);
    }
  }

  /** The series behind the three charts, and the insight below them. */
  datatype Charts = Charts(
    dates: seq<int>,
    equity: seq<real>,
    bySymbol: seq<SymbolPnL>,
    holding: seq<real>,
    insight: Insight)

  /** What the page shows for one upload. Without a `Date` column the error is
      shown with the summary tiles, and drawing the equity curve then stops the
      page, so there are no charts. */
  datatype Dashboard = Dashboard(dateError: bool, summary: Summary, charts: Option<Charts>)

  /** The trade dates, in row order. */
  function Dates(ts: seq<Trade>): (ds: seq<int>)
    requires forall i | 0 <= i < |ts| :: ts[i].date.Some?
    ensures |ds| == |ts|
    ensures forall i | 0 <= i < |ts| :: Some(ds[i]) == ts[i].date
  {
    if ts == [] then [] else [ts[0].date.value] + Dates(ts[1..])
  }

  /** The page for an upload, as a function of the uploaded table. */
  function Report(t: RawTable): (d: Dashboard)
    ensures d.dateError <==> !t.hasDate
    ensures d.charts.Some? <==> t.hasDate
    ensures d.summary.totalTrades == |DropIncomplete(t.rows, t.hasDate)|
  {
    var ts := Clean(t);
    var pnl := PnLColumn(ts);
    var summary := Summarize(pnl, HoldingColumn(ts));
    if !t.hasDate then Dashboard(true, summary, None)
    else Dashboard(false, summary,
                   Some(Charts(Dates(ts), RunningTotals(pnl), SymbolBreakdown(ts), HoldingColumn(ts), InsightOf(pnl))))
  }

  /** Loads the upload into a fresh frame, cleans it and checks for the `Date`
      column. */
  method Load(t: RawTable) returns (df: Frame)
    ensures fresh(df)
    ensures df.hasDate == t.hasDate && (df.dateError <==> !t.hasDate)
    ensures df.Cleaned() && df.Table() == Clean(t)
  {
    df := new Frame(t);
    df.DropNA();
    df.CheckDate();
  }

  /** Runs the pipeline on a fresh frame, then reads the page off it. */
  method Analyse(t: RawTable) returns (d: Dashboard)
    ensures d == Report(t)
  {
    var df := Load(t);
    df.AddColumns();
    var summary := Summarize(df.pnl, df.holding);
    if df.dateError {
      d := Dashboard(true, summary, None);
    } else {
      var table := df.Table();
      d := Dashboard(false, summary,
                     Some(Charts(Dates(table), df.cumulative, SymbolBreakdown(table), df.holding, InsightOf(df.pnl))));
    }
  }

  /** The numbers on the page agree with each other: the trade count is the
      number of cleaned rows; the equity curve has one point per trade and ends
      at the total PnL; the symbol bars are ascending and add up to the total
      PnL; the insight is cautionary exactly when there are trades and their
      total is a loss. */
  lemma ReportConsistent(t: RawTable)
    ensures Report(t).summary.totalTrades == |DropIncomplete(t.rows, t.hasDate)|
    ensures Report(t).dateError <==> !t.hasDate
    ensures Report(t).charts.Some? <==> t.hasDate
    ensures Report(t).summary.winningPercent.Some? ==> 0.0 <= Report(t).summary.winningPercent.value <= 100.0
    ensures Report(t).charts.Some? ==>
      var s, c := Report(t).summary, Report(t).charts.value;
      && |c.dates| == |c.equity| == |c.holding| == s.totalTrades
      && (s.totalTrades > 0 ==> c.equity[s.totalTrades - 1] == s.totalPnL)
      && TotalOf(c.bySymbol) == s.totalPnL
      && Ascending(c.bySymbol)
      && (c.insight == Cautionary <==> s.totalTrades > 0 && s.totalPnL < 0.0)
  {
  }
}
