// Performance metrics: one-pass loops against what their names promise.

module Metrics {
  import opened Wrappers
  import opened RealMath
  import opened Engine

  function PortfolioValues(curve: seq<EquityPoint>, initialCapital: real): (values: seq<real>)
    ensures |values| > 0
  {
    if curve == [] then [initialCapital]
    else seq(|curve|, i requires 0 <= i < |curve| => initialCapital + curve[i].equity)
  }

  // ----- drawdown

  /** The highest value seen up to and including bar `j`. */
  function Peak(v: seq<real>, j: nat): real
    requires j < |v|
  {
    if j == 0 then v[0] else Max(Peak(v, j - 1), v[j])
  }

  lemma {:induction false} PeakIsHighest(v: seq<real>, j: nat)
    requires j < |v|
    ensures forall i :: 0 <= i <= j ==> v[i] <= Peak(v, j)
    ensures exists i :: 0 <= i <= j && v[i] == Peak(v, j)
  {
    if j == 0 {
      assert v[0] == Peak(v, 0);
    } else {
      PeakIsHighest(v, j - 1);
      var i :| 0 <= i <= j - 1 && v[i] == Peak(v, j - 1);
      assert v[i] == Peak(v, j) || v[j] == Peak(v, j);
    }
  }

  /** How far bar `j` lies below the running peak. */
  function Drop(v: seq<real>, j: nat): real
    requires j < |v|
  {
    Peak(v, j) - v[j]
  }

  function DrawdownFraction(v: seq<real>, j: nat): real
    requires j < |v|
  {
    if Peak(v, j) > 0.0 then Drop(v, j) / Peak(v, j) else 0.0
  }

  lemma DropSign(v: seq<real>, j: nat)
    requires j < |v|
    ensures Drop(v, j) >= 0.0 && DrawdownFraction(v, j) >= 0.0
    ensures Drop(v, j) == 0.0 ==> DrawdownFraction(v, j) == 0.0
  {
    PeakIsHighest(v, j);
    var d, p := Drop(v, j), Peak(v, j);
    assert DrawdownFraction(v, j) == if p > 0.0 then d / p else 0.0;
    assert d >= 0.0;
    hide *;
    if p > 0.0 {
      QuotientSign(d, p);
    }
  }

  lemma QuotientSign(a: real, b: real)
    requires a >= 0.0 && b > 0.0
    ensures a / b >= 0.0 && (a == 0.0 ==> a / b == 0.0)
  {
  }

  /** The bar on which the reported drawdown percentage is taken: the first one
      to fall furthest, in absolute terms, below the running peak. */
  predicate FirstDeepest(v: seq<real>, j: nat)
    requires j < |v|
  {
    && (forall k :: 0 <= k < |v| ==> Drop(v, k) <= Drop(v, j))
    && (forall k :: 0 <= k < j ==> Drop(v, k) < Drop(v, j))
  }

  /** The deepest drop below the running peak is the largest fall between any
      two bars taken in order. */
  lemma DeepestIsLargestFall(v: seq<real>, deepest: nat)
    requires deepest < |v| && FirstDeepest(v, deepest)
    ensures forall i, j :: 0 <= i <= j < |v| ==> v[i] - v[j] <= Drop(v, deepest)
    ensures exists i, j :: 0 <= i <= j < |v| && v[i] - v[j] == Drop(v, deepest)
  {
    forall i, j | 0 <= i <= j < |v|
      ensures v[i] - v[j] <= Drop(v, deepest)
    {
      PeakIsHighest(v, j);
      assert Drop(v, j) <= Drop(v, deepest);
    }
    PeakIsHighest(v, deepest);
    var i :| 0 <= i <= deepest && v[i] == Peak(v, deepest);
    assert v[i] - v[deepest] == Drop(v, deepest);
  }

  /** `maxDd` is the largest fall between any two bars taken in order, and `pct` the
      percentage at the bar that first falls that far below the running peak. */
  ghost predicate IsMaxDrawdown(v: seq<real>, maxDd: real, pct: real) {
    && (forall i, j :: 0 <= i <= j < |v| ==> v[i] - v[j] <= maxDd)
    && (exists i, j :: 0 <= i <= j < |v| && v[i] - v[j] == maxDd)
    && (exists j :: 0 <= j < |v| && FirstDeepest(v, j) && pct == DrawdownFraction(v, j) * 100.0)
  }

  /** The underwater curve: how far each value lies below the running peak. */
  ghost predicate IsUnderwater(v: seq<real>, series: seq<real>) {
    |series| == |v| && forall j :: 0 <= j < |v| ==> series[j] == -(DrawdownFraction(v, j) * 100.0) <= 0.0
  }

  /** The one-pass drawdown is the largest fall between any two ordered bars. */
  method MaxDrawdown(curve: seq<EquityPoint>, initialCapital: real) returns (maxDd: real, maxDdPct: real)
    ensures IsMaxDrawdown(PortfolioValues(curve, initialCapital), maxDd, maxDdPct)
  {
    var v := PortfolioValues(curve, initialCapital);
    hide PortfolioValues;
    var peak := v[0];
    maxDd, maxDdPct := 0.0, 0.0;
    ghost var deepest := 0;
    for n := 0 to |v|
      invariant peak == if n == 0 then v[0] else Peak(v, n - 1)
      invariant 0 <= deepest < |v| && deepest <= n
      invariant maxDd == Drop(v, deepest) && maxDd >= 0.0
      invariant forall k :: 0 <= k < n ==> Drop(v, k) <= maxDd
      invariant forall k :: 0 <= k < deepest ==> Drop(v, k) < maxDd
      invariant maxDdPct == DrawdownFraction(v, deepest)
    {
      if v[n] > peak {
        peak := v[n];
      }
      var drawdown := peak - v[n];
      assert peak == Peak(v, n) && drawdown == Drop(v, n);
      if drawdown > maxDd {
        maxDd := drawdown;
        maxDdPct := if peak > 0.0 then drawdown / peak else 0.0;
        deepest := n;
      }
    }
    maxDdPct := maxDdPct * 100.0;
    DeepestIsLargestFall(v, deepest);
  }

  /** On the curve itself: the drawdown is the largest loss of profit between two bars
      taken in order, whatever the capital; the percentage is of the portfolio's value,
      capital included, at a peak that it was lost from. */
  lemma DrawdownOfCurve(curve: seq<EquityPoint>, initialCapital: real, maxDd: real, pct: real)
    requires IsMaxDrawdown(PortfolioValues(curve, initialCapital), maxDd, pct)
    ensures curve == [] ==> maxDd == 0.0 && pct == 0.0
    ensures forall i, j :: 0 <= i <= j < |curve| ==> curve[i].equity - curve[j].equity <= maxDd
    ensures curve != [] ==> exists i, j :: 0 <= i <= j < |curve| && LostFrom(curve, initialCapital, i, j, maxDd, pct)
  {
    var v := PortfolioValues(curve, initialCapital);
    var i, j := LostBetween(v, maxDd, pct);
    hide IsMaxDrawdown;
    if curve != [] {
      assert forall k :: 0 <= k < |v| ==> v[k] == initialCapital + curve[k].equity;
      assert LostFrom(curve, initialCapital, i, j, maxDd, pct);
      forall a, b | 0 <= a <= b < |curve| ensures curve[a].equity - curve[b].equity <= maxDd {
        assert v[a] - v[b] <= maxDd;
      }
    }
  }

  lemma LostBetween(v: seq<real>, maxDd: real, pct: real) returns (i: int, j: int)
    requires v != [] && IsMaxDrawdown(v, maxDd, pct)
    ensures 0 <= i <= j < |v| && v[i] - v[j] == maxDd && (forall k :: 0 <= k <= j ==> v[k] <= v[i]) && IsPercent(v[i], maxDd, pct)
    ensures forall a, b :: 0 <= a <= b < |v| ==> v[a] - v[b] <= maxDd
    ensures |v| == 1 ==> maxDd == 0.0 && pct == 0.0
  {
    j :| 0 <= j < |v| && FirstDeepest(v, j) && pct == DrawdownFraction(v, j) * 100.0;
    DeepestIsLargestFall(v, j);
    PeakIsHighest(v, j);
    i :| 0 <= i <= j && v[i] == Peak(v, j);
    var peak, drop := Peak(v, j), Drop(v, j);
    assert drop == v[i] - v[j] == maxDd;
    DropSign(v, j);
    assert pct == (if peak > 0.0 then drop / peak else 0.0) * 100.0;
    hide Peak, Drop, DrawdownFraction, FirstDeepest;
    PercentOfPeak(peak, drop, pct);
  }

  /** Between bar `i`, the highest so far, and bar `j` this much was lost. */
  predicate LostFrom(curve: seq<EquityPoint>, initialCapital: real, i: int, j: int, lost: real, pct: real)
    requires 0 <= i <= j < |curve|
  {
    && curve[i].equity - curve[j].equity == lost && (forall k :: 0 <= k <= j ==> curve[k].equity <= curve[i].equity)
    && IsPercent(initialCapital + curve[i].equity, lost, pct)
  }

  predicate IsPercent(of: real, part: real, pct: real) {
    if of > 0.0 then pct * of == part * 100.0 else pct == 0.0
  }

  lemma PercentOfPeak(peak: real, drop: real, pct: real)
    requires pct == (if peak > 0.0 then drop / peak else 0.0) * 100.0
    ensures IsPercent(peak, drop, pct)
  {
    if peak > 0.0 {
      var q := drop / peak;
      assert q * peak == drop;
      assert pct * peak == q * peak * 100.0;
    }
  }

  /** The underwater curve, entry by entry. */
  method DrawdownSeries(curve: seq<EquityPoint>, initialCapital: real) returns (out: seq<real>)
    ensures IsUnderwater(PortfolioValues(curve, initialCapital), out)
  {
    var v := PortfolioValues(curve, initialCapital);
    hide PortfolioValues;
    out := [];
    var peak := v[0];
    for n := 0 to |v|
      invariant peak == if n == 0 then v[0] else Peak(v, n - 1)
      invariant |out| == n
      invariant forall j :: 0 <= j < n ==> out[j] == -(DrawdownFraction(v, j) * 100.0) <= 0.0
    {
      if v[n] > peak {
        peak := v[n];
      }
      var dd := if peak > 0.0 then (peak - v[n]) / peak * 100.0 else 0.0;
      assert dd == DrawdownFraction(v, n) * 100.0;
      DropSign(v, n);
      out := out + [-dd];
    }
  }

  /** What the two metrics return agrees: the reported percentage is one entry of
      the underwater curve, so never beyond its worst; and it is that worst entry if
      and only if the deepest bar in money is also the deepest in proportion. */
  lemma ReportedPctIsWorstExactlyWhen(v: seq<real>, maxDd: real, pct: real, series: seq<real>, deepest: nat)
    requires IsMaxDrawdown(v, maxDd, pct) && IsUnderwater(v, series)
    requires deepest < |v| && FirstDeepest(v, deepest)
    ensures series[deepest] == -pct
    ensures (forall k :: 0 <= k < |series| ==> -pct <= series[k])
            <==> (forall k :: 0 <= k < |v| ==> DrawdownFraction(v, k) <= DrawdownFraction(v, deepest))
  {
    var j :| 0 <= j < |v| && FirstDeepest(v, j) && pct == DrawdownFraction(v, j) * 100.0;
    FirstDeepestUnique(v, j, deepest);
    hide DrawdownFraction, FirstDeepest;
    if forall k :: 0 <= k < |series| ==> -pct <= series[k] {
      forall k | 0 <= k < |v| ensures DrawdownFraction(v, k) <= DrawdownFraction(v, deepest) { assert -pct <= series[k]; }
    }
  }

  lemma FirstDeepestUnique(v: seq<real>, j1: nat, j2: nat)
    requires j1 < |v| && j2 < |v| && FirstDeepest(v, j1) && FirstDeepest(v, j2)
    ensures j1 == j2
  {
    hide Drop;
    assert Drop(v, j1) <= Drop(v, j2) && Drop(v, j2) <= Drop(v, j1);
  }

  /** It can be smaller: a 50% fall of a small account is outweighed, in absolute
      terms, by a 10% fall of a large one. */
  lemma ReportedPctCanUnderstate(v: seq<real>)
    requires v == [100.0, 50.0, 1000.0, 900.0]
    ensures FirstDeepest(v, 3) && DrawdownFraction(v, 3) == 0.1 && DrawdownFraction(v, 1) == 0.5
  {
    assert Peak(v, 0) == 100.0;
    assert Peak(v, 1) == 100.0;
    assert Peak(v, 2) == 1000.0;
    assert Peak(v, 3) == 1000.0;
    hide Peak;
  }

  // ----- longest runs

  predicate AllSet(flags: seq<bool>, from: nat, len: nat)
    requires from + len <= |flags|
  {
    forall k :: from <= k < from + len ==> flags[k]
  }

  predicate HasRun(flags: seq<bool>, len: nat) {
    exists from: nat :: from + len <= |flags| && AllSet(flags, from, len)
  }

  /** `len` is the length of the longest stretch of consecutive set flags. */
  ghost predicate IsLongestRun(flags: seq<bool>, len: nat) {
    HasRun(flags, len) && forall more: nat :: HasRun(flags, more) ==> more <= len
  }

  predicate EndsWithRun(flags: seq<bool>, len: nat) {
    && len <= |flags| && AllSet(flags, |flags| - len, len)
    && (len < |flags| ==> !flags[|flags| - len - 1])
  }

  /** One more flag extends the current run or ends it. */
  lemma ExtendLongest(flags: seq<bool>, current: nat, longest: nat, flag: bool)
    requires EndsWithRun(flags, current) && IsLongestRun(flags, longest)
    ensures var now := if flag then current + 1 else 0;
            EndsWithRun(flags + [flag], now) && IsLongestRun(flags + [flag], if now > longest then now else longest)
  {
    var more := flags + [flag];
    var now := if flag then current + 1 else 0;
    var best := if now > longest then now else longest;
    assert EndsWithRun(more, now);
    if now > longest {
      assert AllSet(more, |more| - now, now);
    } else {
      var from: nat :| from + longest <= |flags| && AllSet(flags, from, longest);
      assert AllSet(more, from, longest);
    }
    forall len: nat | HasRun(more, len)
      ensures len <= best
    {
      var from: nat :| from + len <= |more| && AllSet(more, from, len);
      if from + len <= |flags| {
        assert forall k :: from <= k < from + len ==> flags[k] == more[k];
        assert AllSet(flags, from, len);
        assert HasRun(flags, len);
      }
    }
  }

  lemma NoRunYet()
    ensures EndsWithRun([], 0) && IsLongestRun([], 0)
  {
    assert AllSet([], 0, 0);
  }

  function Underwater(v: seq<real>): seq<bool> {
    seq(|v|, j requires 0 <= j < |v| => v[j] < Peak(v, j))
  }

  method LongestDrawdownBars(curve: seq<EquityPoint>, initialCapital: real) returns (longest: nat)
    ensures IsLongestRun(Underwater(PortfolioValues(curve, initialCapital)), longest)
  {
    var v := PortfolioValues(curve, initialCapital);
    hide PortfolioValues, IsLongestRun, EndsWithRun;
    ghost var flags := Underwater(v);
    var peak := v[0];
    longest := 0;
    var current := 0;
    NoRunYet();
    for n := 0 to |v|
      invariant peak == if n == 0 then v[0] else Peak(v, n - 1)
      invariant EndsWithRun(flags[..n], current) && IsLongestRun(flags[..n], longest)
    {
      ExtendLongest(flags[..n], current, longest, flags[n]);
      assert flags[..n] + [flags[n]] == flags[..n + 1];
      if v[n] >= peak {
        peak := v[n];
        current := 0;
      } else {
        current := current + 1;
        longest := if current > longest then current else longest;
      }
    }
    assert flags[..|v|] == flags;
  }

  predicate Matches(t: ClosedTrade, winning: bool) {
    if winning then t.pnl > 0.0 else t.pnl < 0.0
  }

  function MatchFlags(trades: seq<ClosedTrade>, winning: bool): seq<bool> {
    seq(|trades|, i requires 0 <= i < |trades| => Matches(trades[i], winning))
  }

  /** Every trade of the stretch made money, or every one lost some. */
  predicate Streak(trades: seq<ClosedTrade>, winning: bool, from: nat, len: nat)
    requires from + len <= |trades|
  {
    forall k :: from <= k < from + len ==> if winning then trades[k].pnl > 0.0 else trades[k].pnl < 0.0
  }

  lemma StreakIsSet(trades: seq<ClosedTrade>, winning: bool, from: nat, len: nat)
    requires from + len <= |trades|
    ensures Streak(trades, winning, from, len) <==> AllSet(MatchFlags(trades, winning), from, len)
  {
    var flags := MatchFlags(trades, winning);
    assert forall k :: from <= k < from + len ==> flags[k] == Matches(trades[k], winning);
  }

  /** On the trades: there is a streak of that length, and no longer one. */
  lemma StreakOfTrades(trades: seq<ClosedTrade>, winning: bool, best: nat)
    requires IsLongestRun(MatchFlags(trades, winning), best)
    ensures exists from: nat :: from + best <= |trades| && Streak(trades, winning, from, best)
    ensures forall from: nat, len: nat :: from + len <= |trades| && Streak(trades, winning, from, len) ==> len <= best
  {
    var flags := MatchFlags(trades, winning);
    var at: nat :| at + best <= |flags| && AllSet(flags, at, best);
    hide Streak, AllSet, MatchFlags;
    assert |flags| == |trades|;
    StreakIsSet(trades, winning, at, best);
    forall from: nat, len: nat | from + len <= |trades| && Streak(trades, winning, from, len)
      ensures len <= best
    {
      StreakIsSet(trades, winning, from, len);
      assert HasRun(flags, len);
    }
  }

  method MaxConsecutive(trades: seq<ClosedTrade>, winning: bool) returns (best: nat)
    ensures IsLongestRun(MatchFlags(trades, winning), best)
  {
    ghost var flags := MatchFlags(trades, winning);
    best := 0;
    var current := 0;
    NoRunYet();
    for n := 0 to |trades|
      invariant EndsWithRun(flags[..n], current) && IsLongestRun(flags[..n], best)
    {
      ExtendLongest(flags[..n], current, best, flags[n]);
      assert flags[..n] + [flags[n]] == flags[..n + 1];
      if Matches(trades[n], winning) {
        current := current + 1;
        best := if current > best then current else best;
      } else {
        current := 0;
      }
    }
    assert flags[..|trades|] == flags;
  }

  // ----- expectancy

  function Wins(trades: seq<ClosedTrade>): seq<real> {
    if trades == [] then []
    else
      var t := trades[|trades| - 1];
      Wins(trades[..|trades| - 1]) + if t.pnl > 0.0 then [t.pnl] else []
  }

  function Losses(trades: seq<ClosedTrade>): seq<real> {
    if trades == [] then []
    else
      var t := trades[|trades| - 1];
      Losses(trades[..|trades| - 1]) + if t.pnl < 0.0 then [t.pnl] else []
  }

  function GrossProfit(trades: seq<ClosedTrade>): real { Sum(Wins(trades)) }

  function GrossLoss(trades: seq<ClosedTrade>): real { Abs(Sum(Losses(trades))) }

  function Mean(s: seq<real>): real {
    if s == [] then 0.0 else Sum(s) / (|s| as real)
  }

  /** The share of `n` trades that fall in `s`, times their mean. */
  function PerTrade(s: seq<real>, n: real): real
    requires n > 0.0
  {
    (|s| as real) / n * Mean(s)
  }

  function Expectancy(trades: seq<ClosedTrade>): real {
    if trades == [] then 0.0
    else
      var n := |trades| as real;
      PerTrade(Wins(trades), n) + PerTrade(Losses(trades), n)
  }

  lemma {:induction false} SplitByOutcome(trades: seq<ClosedTrade>)
    ensures Sum(Wins(trades)) + Sum(Losses(trades)) == SumPnl(trades)
    ensures Sum(Wins(trades)) >= 0.0 >= Sum(Losses(trades))
  {
    if trades != [] {
      var init, t := trades[..|trades| - 1], trades[|trades| - 1];
      hide Sum;
      SplitByOutcome(init);
      SumNext(Wins(init), t.pnl);
      SumNext(Losses(init), t.pnl);
      assert Wins(init) + [] == Wins(init) && Losses(init) + [] == Losses(init);
    } else {
      SumNothing();
    }
  }

  lemma SumNext(s: seq<real>, x: real)
    ensures Sum(s + [x]) == Sum(s) + x
  {
    assert (s + [x])[..|s|] == s;
  }

  lemma SumNothing()
    ensures Sum([]) == 0.0
  {
  }

  /** A rate times a mean over `k` of `n` trades is the sum over those, per trade. */
  lemma PerTradeTimesCount(s: seq<real>, n: real)
    requires n > 0.0
    ensures PerTrade(s, n) * n == Sum(s)
  {
    var k, total := |s| as real, Sum(s);
    assert Mean(s) == if s == [] then 0.0 else total / k;
    assert s == [] ==> total == 0.0;
    assert PerTrade(s, n) == k / n * Mean(s);
    hide *;
    if s != [] {
      CancelOut(k, n, total);
    }
  }

  lemma CancelOut(k: real, n: real, total: real)
    requires k > 0.0 && n > 0.0
    ensures k / n * (total / k) * n == total
  {
    var q, r := total / k, k / n;
    assert q * k == total;
    assert r * n == k;
    assert r * q * n == (r * n) * q;
  }

  lemma Distribute(a: real, b: real, n: real)
    ensures (a + b) * n == a * n + b * n
  {
  }

  /** Expectancy per trade, times the number of trades, is the profit made. */
  lemma ExpectancyIsProfitPerTrade(trades: seq<ClosedTrade>)
    ensures Expectancy(trades) * (|trades| as real) == GrossProfit(trades) - GrossLoss(trades)
    ensures GrossProfit(trades) - GrossLoss(trades) == BuildSummary(trades).totalPnl
  {
    hide Sum, Wins, Losses, SumPnl, Mean, CountTrades, PerTrade;
    SplitByOutcome(trades);
    if trades == [] {
      NothingTraded();
    } else {
      var n := |trades| as real;
      PerTradeTimesCount(Wins(trades), n);
      PerTradeTimesCount(Losses(trades), n);
      Distribute(PerTrade(Wins(trades), n), PerTrade(Losses(trades), n), n);
    }
  }

  /** Gross profit adds up the trades that made money, gross loss, without its sign,
      those that lost some. */
  lemma GrossNext(trades: seq<ClosedTrade>, t: ClosedTrade)
    ensures GrossProfit([]) == GrossLoss([]) == 0.0
    ensures GrossProfit(trades + [t]) == GrossProfit(trades) + Max(t.pnl, 0.0)
    ensures GrossLoss(trades + [t]) == GrossLoss(trades) + Max(-t.pnl, 0.0)
  {
    assert (trades + [t])[..|trades|] == trades;
    SplitByOutcome(trades);
    SumNothing();
    SumNext(Wins(trades), t.pnl);
    SumNext(Losses(trades), t.pnl);
    assert Wins(trades) + [] == Wins(trades) && Losses(trades) + [] == Losses(trades);
    hide Sum;
  }

  lemma NothingTraded()
    ensures SumPnl([]) == 0.0
  {
  }

  // ----- exposure

  function Held(trades: seq<ClosedTrade>): int {
    if trades == [] then 0
    else
      var t := trades[|trades| - 1];
      Held(trades[..|trades| - 1]) + (if t.exitBar - t.entryBar > 0 then t.exitBar - t.entryBar else 0) + 1
  }

  function ExposurePct(trades: seq<ClosedTrade>, totalBars: int): real {
    if totalBars <= 0 || trades == [] then 0.0
    else Min(100.0, (Held(trades) as real) / (totalBars as real) * 100.0)
  }
}
