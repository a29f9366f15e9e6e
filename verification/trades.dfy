/** The trade table as the journal reads it, the `dropna` cleaning step and the
    per-row columns derived from it (PnL, holding time, cumulative PnL). */
module Trades {
  import opened Wrappers

  /** A timestamp, already parsed, as whole seconds since an epoch. */
  type Seconds = int

  /** One row of the uploaded file. Every cell may be missing. `others` holds
      the cells of the columns the journal does not use. */
  datatype RawRow = RawRow(
    date: Option<int>,
    symbol: Option<string>,
    buyPrice: Option<real>,
    sellPrice: Option<real>,
    qty: Option<real>,
    entryTime: Option<Seconds>,
    exitTime: Option<Seconds>,
    others: seq<Option<string>>)

  /** The uploaded table. `hasDate` says whether the file has a `Date` column;
      when it has none, the `date` cells of its rows are not part of the table. */
  datatype RawTable = RawTable(hasDate: bool, rows: seq<RawRow>)

  /** A row with no missing cell. `date` is None exactly when the table has no
      `Date` column. */
  datatype Trade = Trade(
    date: Option<int>,
    symbol: string,
    buyPrice: real,
    sellPrice: real,
    qty: real,
    entryTime: Seconds,
    exitTime: Seconds)

  /** A row has no missing cell in any column of its table. */
  predicate Complete(r: RawRow, hasDate: bool) {
    && (hasDate ==> r.date.Some?)
    && r.symbol.Some?
    && r.buyPrice.Some?
    && r.sellPrice.Some?
    && r.qty.Some?
    && r.entryTime.Some?
    && r.exitTime.Some?
    && AllPresent(r.others)
  }

  /** No cell of the unused columns is missing. */
  predicate AllPresent(cells: seq<Option<string>>) {
    forall i | 0 <= i < |cells| :: cells[i].Some?
  }

  /** `df.dropna()`: removes every row that has a missing cell in any column. */
  function DropIncomplete(rows: seq<RawRow>, hasDate: bool): (r: seq<RawRow>)
    ensures |r| <= |rows|
    ensures forall x :: x in r <==> x in rows && Complete(x, hasDate)
  {
    if rows == [] then []
    else (if Complete(rows[0], hasDate) then [rows[0]] else []) + DropIncomplete(rows[1..], hasDate)
  }

  /** Cleaning commutes with splitting the table: the kept rows stay in their
      original relative order. */
  lemma {:induction false} DropIncompleteAppend(a: seq<RawRow>, b: seq<RawRow>, hasDate: bool)
    ensures DropIncomplete(a + b, hasDate) == DropIncomplete(a, hasDate) + DropIncomplete(b, hasDate)
  {
    if a == [] {
      assert a + b == b;
    } else {
      assert (a + b)[1..] == a[1..] + b;
      DropIncompleteAppend(a[1..], b, hasDate);
    }
  }

  /** `ks` lists, in increasing order, the positions of `rows` that `kept` is made
      of, and a position is listed exactly when its row is complete. */
  ghost predicate PicksOut(rows: seq<RawRow>, hasDate: bool, ks: seq<nat>, kept: seq<RawRow>) {
    && |ks| == |kept|
    && (forall k | 0 <= k < |ks| :: ks[k] < |rows| && kept[k] == rows[ks[k]])
    && (forall k, l | 0 <= k < l < |ks| :: ks[k] < ks[l])
    && (forall i | 0 <= i < |rows| :: i in ks <==> Complete(rows[i], hasDate))
  }

  /** The kept rows are exactly the complete rows, in their original order. */
  lemma {:induction false} DropIncompleteKeepsOrder(rows: seq<RawRow>, hasDate: bool)
    returns (ks: seq<nat>)
    ensures PicksOut(rows, hasDate, ks, DropIncomplete(rows, hasDate))
  {
    if rows == [] {
      ks := [];
    } else {
      var keptTail := DropIncomplete(rows[1..], hasDate);
      var tail := DropIncompleteKeepsOrder(rows[1..], hasDate);
      var shifted := Shift(tail);
      ShiftIndexes(rows, tail, keptTail);
      ShiftMembership(rows, hasDate, tail);
      if Complete(rows[0], hasDate) {
        ks := [0] + shifted;
        assert DropIncomplete(rows, hasDate) == [rows[0]] + keptTail;
        ConsPositions(rows, hasDate, shifted, keptTail);
      } else {
        ks := shifted;
        assert DropIncomplete(rows, hasDate) == keptTail;
        SkipPositions(rows, hasDate, shifted, keptTail);
      }
    }
  }

  /** Positions moved one place up. */
  function Shift(tail: seq<nat>): (shifted: seq<nat>)
    ensures |shifted| == |tail|
    ensures forall k | 0 <= k < |tail| :: shifted[k] == tail[k] + 1
  {
    seq(|tail|, k requires 0 <= k < |tail| => tail[k] + 1)
  }

  /** Shifted positions point at the same rows of `rows` as the originals did in `rows[1..]`. */
  lemma ShiftIndexes(rows: seq<RawRow>, tail: seq<nat>, keptTail: seq<RawRow>)
    requires rows != [] && |tail| == |keptTail|
    requires forall k | 0 <= k < |tail| :: tail[k] < |rows[1..]| && keptTail[k] == rows[1..][tail[k]]
    requires forall k, l | 0 <= k < l < |tail| :: tail[k] < tail[l]
    ensures forall k | 0 <= k < |tail| :: 1 <= Shift(tail)[k] < |rows| && keptTail[k] == rows[Shift(tail)[k]]
    ensures forall k, l | 0 <= k < l < |tail| :: Shift(tail)[k] < Shift(tail)[l]
  {
  }

  /** A position of `rows` from 1 on is shifted iff its row is complete. */
  lemma ShiftMembership(rows: seq<RawRow>, hasDate: bool, tail: seq<nat>)
    requires rows != []
    requires forall i | 0 <= i < |rows[1..]| :: i in tail <==> Complete(rows[1..][i], hasDate)
    ensures forall i | 1 <= i < |rows| :: i in Shift(tail) <==> Complete(rows[i], hasDate)
  {
    var shifted := Shift(tail);
    forall i | 1 <= i < |rows| ensures i in shifted <==> Complete(rows[i], hasDate) {
      if i - 1 in tail {
        var k :| 0 <= k < |tail| && tail[k] == i - 1;
        assert shifted[k] == i;
      }
      assert rows[1..][i - 1] == rows[i];
    }
  }

  /** When the first row is incomplete, the shifted positions alone pick out the kept rows. */
  lemma SkipPositions(rows: seq<RawRow>, hasDate: bool, shifted: seq<nat>, keptTail: seq<RawRow>)
    requires rows != [] && !Complete(rows[0], hasDate)
    requires |shifted| == |keptTail|
    requires forall k | 0 <= k < |shifted| :: 1 <= shifted[k]
    requires forall k | 0 <= k < |shifted| :: shifted[k] < |rows| && keptTail[k] == rows[shifted[k]]
    requires forall k, l | 0 <= k < l < |shifted| :: shifted[k] < shifted[l]
    requires forall i | 1 <= i < |rows| :: i in shifted <==> Complete(rows[i], hasDate)
    ensures PicksOut(rows, hasDate, shifted, keptTail)
  {
  }

  /** Putting position 0 in front of the shifted positions picks out a complete first row. */
  lemma ConsPositions(rows: seq<RawRow>, hasDate: bool, shifted: seq<nat>, keptTail: seq<RawRow>)
    requires rows != [] && Complete(rows[0], hasDate)
    requires |shifted| == |keptTail|
    requires forall k | 0 <= k < |shifted| :: 1 <= shifted[k]
    requires forall k | 0 <= k < |shifted| :: shifted[k] < |rows| && keptTail[k] == rows[shifted[k]]
    requires forall k, l | 0 <= k < l < |shifted| :: shifted[k] < shifted[l]
    requires forall i | 1 <= i < |rows| :: i in shifted <==> Complete(rows[i], hasDate)
    ensures PicksOut(rows, hasDate, [0] + shifted, [rows[0]] + keptTail)
  {
  }

  /** A row with a missing `Qty` is dropped even when every other cell is present. */
  lemma MissingQtyDropped(before: seq<RawRow>, row: RawRow, after: seq<RawRow>, hasDate: bool)
    requires row.qty.None?
    ensures DropIncomplete(before + [row] + after, hasDate)
         == DropIncomplete(before, hasDate) + DropIncomplete(after, hasDate)
  {
    DropIncompleteAppend(before + [row], after, hasDate);
    DropIncompleteAppend(before, [row], hasDate);
  }

  /** The typed trade of a complete row. */
  function ToTrade(r: RawRow, hasDate: bool): Trade
    requires Complete(r, hasDate)
  {
    Trade(if hasDate then r.date else None, r.symbol.value, r.buyPrice.value, r.sellPrice.value,
          r.qty.value, r.entryTime.value, r.exitTime.value)
  }

  /** The table of trades read from rows that have all been cleaned. */
  function ToTrades(rows: seq<RawRow>, hasDate: bool): (ts: seq<Trade>)
    requires forall i | 0 <= i < |rows| :: Complete(rows[i], hasDate)
    ensures |ts| == |rows|
    ensures forall i | 0 <= i < |rows| :: ts[i] == ToTrade(rows[i], hasDate)
  {
    if rows == [] then [] else [ToTrade(rows[0], hasDate)] + ToTrades(rows[1..], hasDate)
  }

  /** The cleaned table: the complete rows of the upload, typed. */
  function Clean(t: RawTable): (ts: seq<Trade>)
    ensures |ts| == |DropIncomplete(t.rows, t.hasDate)| <= |t.rows|
    ensures forall k | 0 <= k < |ts| :: ts[k].date.Some? <==> t.hasDate
  {
    ToTrades(DropIncomplete(t.rows, t.hasDate), t.hasDate)
  }

  /** The trade is the typed form of some complete row of the upload. */
  ghost predicate FromUpload(t: RawTable, x: Trade) {
    exists i | 0 <= i < |t.rows| :: Complete(t.rows[i], t.hasDate) && x == ToTrade(t.rows[i], t.hasDate)
  }

  /** Every cleaned trade is the typed form of a complete row of the upload. */
  lemma CleanComesFromUpload(t: RawTable)
    ensures forall k | 0 <= k < |Clean(t)| :: FromUpload(t, Clean(t)[k])
  {
    var kept := DropIncomplete(t.rows, t.hasDate);
    forall k | 0 <= k < |Clean(t)| ensures FromUpload(t, Clean(t)[k]) {
      assert Clean(t)[k] == ToTrade(kept[k], t.hasDate);
      assert kept[k] in t.rows && Complete(kept[k], t.hasDate);
      var i :| 0 <= i < |t.rows| && t.rows[i] == kept[k];
      assert Complete(t.rows[i], t.hasDate) && Clean(t)[k] == ToTrade(t.rows[i], t.hasDate);
    }
  }

  /** Profit or loss of one trade. */
  function PnL(t: Trade): real {
    (t.sellPrice - t.buyPrice) * t.qty
  }

  /** The `PnL` column. */
  function PnLColumn(ts: seq<Trade>): (r: seq<real>)
    ensures |r| == |ts|
    ensures forall i | 0 <= i < |ts| :: r[i] == (ts[i].sellPrice - ts[i].buyPrice) * ts[i].qty
  {
    if ts == [] then [] else [PnL(ts[0])] + PnLColumn(ts[1..])
  }

  /** Holding time of one trade in minutes; negative when the exit precedes the entry. */
  function HoldingMinutes(t: Trade): (m: real)
    ensures m * 60.0 == (t.exitTime - t.entryTime) as real
    ensures m < 0.0 <==> t.exitTime < t.entryTime
  {
    (t.exitTime - t.entryTime) as real / 60.0
  }

  /** The `Holding_Time(min)` column. */
  function HoldingColumn(ts: seq<Trade>): (r: seq<real>)
    ensures |r| == |ts|
    ensures forall i | 0 <= i < |ts| :: r[i] * 60.0 == (ts[i].exitTime - ts[i].entryTime) as real
  {
    if ts == [] then [] else [HoldingMinutes(ts[0])] + HoldingColumn(ts[1..])
  }

  /** Sum of a column; 0 for an empty column, as pandas gives. */
  function Sum(s: seq<real>): (total: real)
    ensures (forall i | 0 <= i < |s| :: s[i] >= 0.0) ==> total >= 0.0
    ensures (forall i | 0 <= i < |s| :: s[i] <= 0.0) ==> total <= 0.0
  {
    if s == [] then 0.0
    else
      assert forall i | 0 <= i < |s| - 1 :: s[1..][i] == s[i + 1];
      s[0] + Sum(s[1..])
  }

  /** Adding one value at the end adds it to the sum. */
  lemma {:induction false} SumSnoc(s: seq<real>, x: real)
    ensures Sum(s + [x]) == Sum(s) + x
  {
    if s != [] {
      assert (s + [x])[1..] == s[1..] + [x];
      SumSnoc(s[1..], x);
    }
  }

  /** `cumsum`: entry i is the sum of the first i + 1 values, in row order. It
      has one entry per value, starts at the first value and ends at the total. */
  function RunningTotals(s: seq<real>): (r: seq<real>)
    ensures |r| == |s|
    ensures |s| > 0 ==> r[0] == s[0] && r[|s| - 1] == Sum(s)
  {
    assert |s| > 0 ==> s[..1] == [s[0]] && s[..|s|] == s;
    seq(|s|, i requires 0 <= i < |s| => Sum(s[..i + 1]))
  }

  /** Each running total is the previous one plus the row's value. */
  lemma RunningTotalsStep(s: seq<real>, i: nat)
    requires 0 < i < |s|
    ensures RunningTotals(s)[i] == RunningTotals(s)[i - 1] + s[i]
  {
    assert s[..i + 1] == s[..i] + [s[i]];
    SumSnoc(s[..i], s[i]);
  }

  /** With no losing row, the running totals never decrease. */
  lemma {:induction false} RunningTotalsMonotone(s: seq<real>)
    requires forall i | 0 <= i < |s| :: s[i] >= 0.0
    ensures forall j, k | 0 <= j <= k < |s| :: RunningTotals(s)[j] <= RunningTotals(s)[k]
  {
    forall j, k | 0 <= j <= k < |s| ensures RunningTotals(s)[j] <= RunningTotals(s)[k] {
      var m := j;
      while m < k
        invariant j <= m <= k
        invariant RunningTotals(s)[j] <= RunningTotals(s)[m]
      {
        RunningTotalsStep(s, m + 1);
        m := m + 1;
      }
    }
  }

  /** The running-accumulator loop behind `cumsum`. */
  method CumulativeSum(pnl: seq<real>) returns (cum: seq<real>)
    ensures cum == RunningTotals(pnl)
    ensures |pnl| > 0 ==> cum[|pnl| - 1] == Sum(pnl)
  {
    cum := [];
    var acc := 0.0;
    var i := 0;
    while i < |pnl|
      invariant 0 <= i <= |pnl|
      invariant acc == Sum(pnl[..i])
      invariant |cum| == i
      invariant forall k | 0 <= k < i :: cum[k] == Sum(pnl[..k + 1])
    {
      assert pnl[..i + 1] == pnl[..i] + [pnl[i]];
      SumSnoc(pnl[..i], pnl[i]);
      acc := acc + pnl[i];
      cum := cum + [acc];
      i := i + 1;
    }
  }
}
