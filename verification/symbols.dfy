/** The "PnL by Symbol" series: PnL summed per symbol, ordered by that sum,
    smallest first (`groupby("Symbol")["PnL"].sum().sort_values()`). */
module Symbols {
  import opened Trades

  /** One bar of the chart: a symbol and its summed PnL. */
  datatype SymbolPnL = SymbolPnL(symbol: string, total: real)

  /** The symbol is traded in some row of the table. */
  predicate Traded(ts: seq<Trade>, s: string) {
    exists i | 0 <= i < |ts| :: ts[i].symbol == s
  }

  /** Sum of PnL over the rows of one symbol. */
  function SymbolTotal(ts: seq<Trade>, s: string): (total: real)
    ensures !Traded(ts, s) ==> total == 0.0
    ensures (forall i | 0 <= i < |ts| :: ts[i].symbol == s) ==> total == Sum(PnLColumn(ts))
  {
    if ts == [] then 0.0
    else
      assert forall i | 0 <= i < |ts| - 1 :: ts[1..][i] == ts[i + 1];
      assert PnLColumn(ts)[1..] == PnLColumn(ts[1..]);
      (if ts[0].symbol == s then PnL(ts[0]) else 0.0) + SymbolTotal(ts[1..], s)
  }

  /** No key occurs twice. */
  predicate Distinct(keys: seq<string>) {
    forall i, j | 0 <= i < j < |keys| :: keys[i] != keys[j]
  }

  /** The group keys: every traded symbol, once each. */
  function GroupKeys(ts: seq<Trade>): (keys: seq<string>)
    ensures Distinct(keys)
    ensures forall s :: s in keys <==> Traded(ts, s)
  {
    if ts == [] then []
    else
      var rest := GroupKeys(ts[1..]);
      assert forall s :: Traded(ts, s) <==> s == ts[0].symbol || Traded(ts[1..], s) by {
        forall s ensures Traded(ts, s) <==> s == ts[0].symbol || Traded(ts[1..], s) {
          if Traded(ts, s) && s != ts[0].symbol {
            var i :| 0 <= i < |ts| && ts[i].symbol == s;
            assert ts[1..][i - 1].symbol == s;
          }
          if Traded(ts[1..], s) {
            var i :| 0 <= i < |ts[1..]| && ts[1..][i].symbol == s;
            assert ts[i + 1].symbol == s;
          }
        }
      }
      if ts[0].symbol in rest then rest else [ts[0].symbol] + rest
  }

  /** One bar per key, holding that key's summed PnL. */
  function Bars(keys: seq<string>, ts: seq<Trade>): (bars: seq<SymbolPnL>)
    ensures |bars| == |keys|
    ensures forall i | 0 <= i < |keys| :: bars[i] == SymbolPnL(keys[i], SymbolTotal(ts, keys[i]))
  {
    if keys == [] then [] else [SymbolPnL(keys[0], SymbolTotal(ts, keys[0]))] + Bars(keys[1..], ts)
  }

  /** Sum of the bars' totals. */
  function TotalOf(bars: seq<SymbolPnL>): real {
    if bars == [] then 0.0 else bars[0].total + TotalOf(bars[1..])
  }

  /** How many bars carry the symbol. */
  function Occurrences(bars: seq<SymbolPnL>, s: string): nat {
    if bars == [] then 0 else (if bars[0].symbol == s then 1 else 0) + Occurrences(bars[1..], s)
  }

  /** Bars are in ascending order of total. */
  predicate Ascending(bars: seq<SymbolPnL>) {
    forall i, j | 0 <= i < j < |bars| :: bars[i].total <= bars[j].total
  }

  /** Places a bar before the first bar whose total is not smaller. */
  function Insert(b: SymbolPnL, bars: seq<SymbolPnL>): (r: seq<SymbolPnL>)
    ensures multiset(r) == multiset(bars) + multiset{b}
  {
    if bars == [] || b.total <= bars[0].total then
      [b] + bars
    else
      assert bars == [bars[0]] + bars[1..];
      [bars[0]] + Insert(b, bars[1..])
  }

  /** Inserting into ascending bars keeps them ascending. */
  lemma {:induction false} InsertAscending(b: SymbolPnL, bars: seq<SymbolPnL>)
    requires Ascending(bars)
    ensures Ascending(Insert(b, bars))
  {
    if bars != [] && b.total > bars[0].total {
      var rest := Insert(b, bars[1..]);
      InsertAscending(b, bars[1..]);
      forall j | 0 <= j < |rest| ensures bars[0].total <= rest[j].total {
        assert rest[j] in multiset(rest);
        assert rest[j] == b || rest[j] in bars[1..];
      }
    }
  }

  /** Inserting a bar adds its total. */
  lemma {:induction false} InsertTotal(b: SymbolPnL, bars: seq<SymbolPnL>)
    ensures TotalOf(Insert(b, bars)) == TotalOf(bars) + b.total
  {
    if bars == [] || b.total <= bars[0].total {
      assert Insert(b, bars)[1..] == bars;
    } else {
      assert Insert(b, bars)[1..] == Insert(b, bars[1..]);
      InsertTotal(b, bars[1..]);
    }
  }

  /** Inserting a bar adds one occurrence of its symbol and none of any other. */
  lemma {:induction false} InsertOccurrences(b: SymbolPnL, bars: seq<SymbolPnL>, s: string)
    ensures Occurrences(Insert(b, bars), s) == Occurrences(bars, s) + (if b.symbol == s then 1 else 0)
  {
    if bars == [] || b.total <= bars[0].total {
      assert Insert(b, bars)[1..] == bars;
    } else {
      assert Insert(b, bars)[1..] == Insert(b, bars[1..]);
      InsertOccurrences(b, bars[1..], s);
    }
  }

  /** Orders the bars by total, smallest first, keeping every bar. */
  function SortByTotal(bars: seq<SymbolPnL>): (r: seq<SymbolPnL>)
    ensures multiset(r) == multiset(bars)
    ensures Ascending(r)
    ensures TotalOf(r) == TotalOf(bars)
    ensures forall s :: Occurrences(r, s) == Occurrences(bars, s)
  {
    if bars == [] then []
    else
      var rest := SortByTotal(bars[1..]);
      assert bars == [bars[0]] + bars[1..];
      InsertAscending(bars[0], rest);
      InsertTotal(bars[0], rest);
      assert forall s :: Occurrences(Insert(bars[0], rest), s) == Occurrences(bars, s) by {
        forall s ensures Occurrences(Insert(bars[0], rest), s) == Occurrences(bars, s) {
          InsertOccurrences(bars[0], rest, s);
        }
      }
      Insert(bars[0], rest)
  }

  /** Bars over distinct keys carry each key once and no other symbol. */
  lemma {:induction false} BarsOccurrences(keys: seq<string>, ts: seq<Trade>, s: string)
    requires Distinct(keys)
    ensures Occurrences(Bars(keys, ts), s) == if s in keys then 1 else 0
  {
    if keys != [] {
      assert Bars(keys, ts)[1..] == Bars(keys[1..], ts);
      assert s in keys <==> s == keys[0] || s in keys[1..];
      assert keys[0] !in keys[1..];
      BarsOccurrences(keys[1..], ts, s);
    }
  }

  /** Counting one more row adds its PnL to the bar of its symbol, when that
      symbol is among the keys. */
  lemma {:induction false} BarsCons(keys: seq<string>, t: Trade, rest: seq<Trade>)
    requires Distinct(keys)
    ensures TotalOf(Bars(keys, [t] + rest))
         == TotalOf(Bars(keys, rest)) + (if t.symbol in keys then PnL(t) else 0.0)
  {
    if keys != [] {
      assert ([t] + rest)[1..] == rest;
      assert Bars(keys, [t] + rest)[1..] == Bars(keys[1..], [t] + rest);
      assert Bars(keys, rest)[1..] == Bars(keys[1..], rest);
      assert keys[0] !in keys[1..];
      BarsCons(keys[1..], t, rest);
    }
  }

  /** The per-symbol totals add up to the table's total PnL. */
  lemma {:induction false} GroupConservesTotal(ts: seq<Trade>)
    ensures TotalOf(Bars(GroupKeys(ts), ts)) == Sum(PnLColumn(ts))
  {
    if ts != [] {
      var t, rest := ts[0], ts[1..];
      assert ts == [t] + rest;
      assert PnLColumn(ts)[1..] == PnLColumn(rest);
      GroupConservesTotal(rest);
      var keys := GroupKeys(rest);
      BarsCons(GroupKeys(ts), t, rest);
      if t.symbol !in keys {
        assert !Traded(rest, t.symbol);
        assert Bars(GroupKeys(ts), rest)[1..] == Bars(keys, rest);
      }
    }
  }

  /** The series shown in the "PnL by Symbol" chart: one bar per traded symbol
      and no other, each bar holding the sum of its symbol's PnL, the bars adding
      up to the table's total PnL, in ascending order. */
  function SymbolBreakdown(ts: seq<Trade>): (bars: seq<SymbolPnL>)
    ensures forall s :: Occurrences(bars, s) == if Traded(ts, s) then 1 else 0
    ensures forall b | b in bars :: b.total == SymbolTotal(ts, b.symbol)
    ensures TotalOf(bars) == Sum(PnLColumn(ts))
    ensures Ascending(bars)
  {
    var keys := GroupKeys(ts);
    var grouped := Bars(keys, ts);
    var bars := SortByTotal(grouped);
    assert forall s :: Occurrences(bars, s) == if Traded(ts, s) then 1 else 0 by {
      forall s ensures Occurrences(bars, s) == if Traded(ts, s) then 1 else 0 {
        BarsOccurrences(keys, ts, s);
      }
    }
    assert forall b | b in bars :: b.total == SymbolTotal(ts, b.symbol) by {
      forall b | b in bars ensures b.total == SymbolTotal(ts, b.symbol) {
        assert b in multiset(grouped);
      }
    }
    GroupConservesTotal(ts);
    bars
  }
}
