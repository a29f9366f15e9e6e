# Maverick trade journal: a verified model of its trade-metrics pipeline

Maverick is a one-page Streamlit dashboard. A trader uploads a CSV of trades. The script
cleans the table, adds per-trade columns and shows four summary tiles. It then draws an
equity curve, a PnL-by-symbol bar chart and a holding-time histogram, and ends with a
one-line "AI insight". This project models that data pipeline in Dafny and proves that the
numbers the page shows are consistent with each other.

Modules:

- `Wrappers` (`wrappers.dfy`): `Option`. It is used for missing cells and for statistics
  that pandas reports as NaN.
- `Trades` (`trades.dfy`): the raw row and table, `dropna`, the typed `Trade`, and the
  `PnL`, `Holding_Time(min)` and `Cumulative_PnL` columns. `CumulativeSum` is the
  running-accumulator loop behind `cumsum`, proved against `RunningTotals`.
- `Metrics` (`metrics.dfy`): total trades, winning percent, total PnL, mean holding time,
  and the insight rule.
- `Symbols` (`symbols.dfy`): `groupby("Symbol")["PnL"].sum().sort_values()`, built as a
  list of distinct keys, one bar per key, and an insertion sort by total.
- `Journal` (`journal.dfy`): the pipeline itself.
  - The class `Frame` is the data frame that the script changes in place: `dropna`, the
    `Date` check and the three added columns.
  - `Report` is the resulting page as a function of the upload.
  - `Analyse` runs the steps on a fresh `Frame` and is proved to produce `Report`.
  - `ReportConsistent` states how the page's numbers agree.

Representation choices:

- Prices and quantities are `real` and the arithmetic is exact. pandas uses floats.
- Timestamps and dates are already parsed. They are integer seconds (timestamps) and
  integers (dates).
- Holding time is `(exit - entry) / 60` as a `real`. It is negative when the exit comes
  before the entry, and the source does not reject that.
- Cleaning removes a row when any of its cells is missing. This includes cells of columns
  the pipeline never reads (`RawRow.others`). The `Date` cell counts only when the file has
  a `Date` column.
- `Cumulative_PnL` is the prefix sum in upload order. The rows are never sorted by date.
- For an empty cleaned table, pandas gives NaN for the winning percent and for the mean
  holding time, and the model gives `None`.
  - The insight compares the mean PnL with 0, and `NaN < 0` is false, so an empty table
    gets the encouraging message. `InsightOf` states exactly this: the message is
    cautionary iff there is at least one trade and the total PnL is negative.
- When the file has no `Date` column, the script reports the error and carries on. It
  shows the four tiles, then stops with an exception where it draws the equity curve
  against the missing column. `Report` gives `dateError` set, the summary, and no charts.

## Model

| member | source | states |
|---|---|---|
| `Trades.DropIncomplete` | maverick_app.py:18 | a row is kept iff it was in the input and has no missing cell; never more rows than the input |
| `Trades.DropIncompleteAppend` | maverick_app.py:18 | cleaning a concatenation is the concatenation of the cleaned parts, so the kept rows keep their relative order |
| `Trades.DropIncompleteKeepsOrder` | maverick_app.py:18 | there are strictly increasing source positions picking out the cleaned rows, and a position is picked iff its row is complete |
| `Trades.MissingQtyDropped` | maverick_app.py:18 | a row missing only its `Qty` is removed, whatever its other cells hold |
| `Trades.Clean` | maverick_app.py:18-22 | the cleaned table has one trade per row kept by `dropna`, never more than the upload; dates are present iff the file has a `Date` column |
| `Trades.CleanComesFromUpload` | maverick_app.py:18 | every cleaned trade is the typed form of some complete row of the upload |
| `Trades.PnLColumn` | maverick_app.py:25 | the PnL column has one entry per cleaned row, each `(Sell_Price - Buy_Price) * Qty` of that row |
| `Trades.HoldingMinutes` | maverick_app.py:26-28 | holding minutes times 60 is the exit-minus-entry seconds; negative exactly when the exit precedes the entry |
| `Trades.HoldingColumn` | maverick_app.py:26-28 | one holding time per cleaned row, each the row's elapsed seconds over 60 |
| `Trades.Sum` | maverick_app.py:36 | the total of a column with no negative entry is not negative, and of a column with no positive entry is not positive; an empty column sums to 0 |
| `Trades.RunningTotals` | maverick_app.py:29 | `cumsum` has one entry per value; for a non-empty column it starts at the first value and ends at the total |
| `Trades.RunningTotalsStep` | maverick_app.py:29 | each cumulative value is the previous one plus this row's PnL |
| `Trades.RunningTotalsMonotone` | maverick_app.py:29 | when no PnL is negative the cumulative column never decreases |
| `Trades.CumulativeSum` | maverick_app.py:29 | the accumulator loop yields entry i = sum of the first i + 1 PnL values in row order, and its last entry is the total |
| `Metrics.Wins` | maverick_app.py:35 | the number of winning trades is at most the trade count; 0 iff no PnL is positive; the full count iff every PnL is positive |
| `Metrics.WinningPercent` | maverick_app.py:35 | undefined (NaN) iff the table is empty; otherwise in [0, 100], 100 iff every trade wins, 0 iff none does |
| `Metrics.Mean` | maverick_app.py:37 | undefined iff empty; otherwise mean times count is the sum, and the mean is negative iff the sum is |
| `Metrics.Summarize` | maverick_app.py:34-37 | total trades is the row count; total PnL is the column sum; winning percent and average holding time are defined iff there is a trade; the percent is in [0, 100]; the average holding time is the mean of the holding column |
| `Metrics.InsightOf` | maverick_app.py:68-71 | cautionary iff there is a trade and the total PnL is negative (the same as mean PnL < 0); encouraging otherwise, including for an empty table |
| `Metrics.AllLosingIsCautionary` | maverick_app.py:68-69 | a non-empty table in which every trade loses gets the cautionary message |
| `Metrics.TwoTradeExample` | maverick_app.py:25-36 | trades (100 to 110, qty 10) and (50 to 40, qty 5) give PnL [100, -50], total 50, winning percent 50 and the encouraging message |
| `Symbols.SymbolTotal` | maverick_app.py:48 | a symbol that is never traded sums to 0; in a table where every row has that symbol, it sums to the total PnL |
| `Symbols.GroupKeys` | maverick_app.py:48 | the group keys are distinct and are exactly the symbols traded in the table |
| `Symbols.Bars` | maverick_app.py:48 | one bar per key, holding the sum of PnL over that key's rows |
| `Symbols.SortByTotal` | maverick_app.py:48 | the sorted bars are a permutation of the input, ascending by total, with the same sum and the same per-symbol counts |
| `Symbols.BarsOccurrences` | maverick_app.py:48 | over distinct keys, each key has exactly one bar and no other symbol has any |
| `Symbols.GroupConservesTotal` | maverick_app.py:48 | the per-symbol sums add up to the total PnL |
| `Symbols.SymbolBreakdown` | maverick_app.py:48 | each traded symbol appears exactly once, each bar holds its symbol's PnL sum, the bars sum to the total PnL, and they are ascending |
| `Journal.Frame.constructor` | maverick_app.py:15 | the frame holds the uploaded rows and no derived column yet |
| `Journal.Frame.DropNA` | maverick_app.py:18 | in place, the rows become the cleaned rows and none has a missing cell |
| `Journal.Frame.CheckDate` | maverick_app.py:19-22 | records the date error in the frame, set exactly when the file has no `Date` column; rows and columns are left as they are, so the later steps still run |
| `Journal.Frame.AddColumns` | maverick_app.py:25-29 | the frame gains the `PnL`, holding-time and `Cumulative_PnL` columns of the cleaned rows, the last being the running total of the first |
| `Journal.Frame.AddPnL` | maverick_app.py:25 | the new `PnL` column is the PnL of the cleaned rows, one per row |
| `Journal.Frame.AddHoldingTime` | maverick_app.py:26-28 | the new holding-time column is the cleaned rows' holding minutes, one per row |
| `Journal.Frame.AddCumulativePnL` | maverick_app.py:29 | the new `Cumulative_PnL` column is the running total of `PnL` in row order, ending at the total |
| `Journal.Load` | maverick_app.py:15-22 | a fresh frame holds the cleaned upload, with the date error set exactly when there is no `Date` column |
| `Journal.Dates` | maverick_app.py:43 | the equity curve's x values are the trades' dates, one per row, in row order |
| `Journal.Report` | maverick_app.py:14-71 | the page carries the date error iff the file has no `Date` column, has charts iff it has one (the page stops at the equity curve otherwise), and counts the rows kept by cleaning |
| `Journal.Analyse` | maverick_app.py:14-71 | running the in-place steps on the upload produces exactly the page `Report` describes |
| `Journal.ReportConsistent` | maverick_app.py:18-71 | the trade count is the number of cleaned rows; there are charts iff there is a `Date` column; when there are, the equity curve has one point per trade and ends at the total PnL, the symbol bars are ascending and sum to the total PnL, and the insight is cautionary iff there are trades with a negative total |

## Left out

- The Streamlit page: page config, logo, title, subheaders, metric tiles, dividers and the
  notes form with its "not persistent" message (maverick_app.py:6-9, 31-33, 39, 56-64).
  These are user-interface calls with no computation.
- The upload widget and `pd.read_csv` (maverick_app.py:11-15, 73-74). The model starts
  from a parsed table.
- Text parsing of dates and timestamps by `pd.to_datetime` (maverick_app.py:20, 27), and
  of numbers. Cells are already typed, so an unparsable cell, which would make the script
  raise, is not represented.
- A file missing one of the other required columns. The row type always carries them;
  only the `Date` column may be absent. In the source:
  - a missing `Buy_Price`, `Sell_Price` or `Qty` raises a KeyError at line 25, and a missing
    `Entry_Time` or `Exit_Time` at line 27, before any tile is shown;
  - a missing `Symbol` raises a KeyError at line 48, after the four tiles and, when there is
    a `Date` column, the equity curve have been shown.
- Chart rendering by Plotly, including the 30 histogram bins, which Plotly computes from
  floating-point bounds (maverick_app.py:43-54). The model gives the series handed to each
  chart.
- Display formatting: the rupee sign, thousands separators and rounding to 2 or 1
  decimals (maverick_app.py:35-37). The model keeps the exact numbers.
- IEEE floating point and NaN propagation. Arithmetic is exact over `real`, and NaN
  appears only as `None` for the statistics of an empty table.
- `Symbols.SortByTotal`: symbols with equal totals are ordered by the model's insertion
  sort, not by pandas' unstable default sort, so the order among ties is not modelled.
- `Symbols.GroupKeys`: pandas lists group keys alphabetically before sorting by value;
  the model's key order differs, which changes only the order among equal totals.
