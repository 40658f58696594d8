// Calendar-month returns: each month-end against the previous one.

module MonthlyReturns {
  import opened Wrappers
  import opened RealMath
  import opened Signals
  import opened Costs
  import opened Engine

  datatype MonthReturn = MonthReturn(month: int, returnPct: real)

  /** A calendar: the month number (year * 12 + month) of a timestamp. */
  type Calendar = int -> int

  /** The last portfolio value recorded in each month, as the dictionary holds it. */
  function MonthEnds(curve: seq<EquityPoint>, initialCapital: real, monthOf: Calendar): map<int, real> {
    if curve == [] then map[]
    else
      var point := curve[|curve| - 1];
      MonthEnds(curve[..|curve| - 1], initialCapital, monthOf)[monthOf(point.timestamp) := initialCapital + point.equity]
  }

  predicate StrictlyIncreasing(keys: seq<int>) {
    forall i, j :: 0 <= i < j < |keys| ==> keys[i] < keys[j]
  }

  predicate Lists(keys: seq<int>, s: set<int>) {
    && StrictlyIncreasing(keys)
    && (forall i :: 0 <= i < |keys| ==> keys[i] in s)
    && (forall k <- s :: k in keys)
  }

  lemma {:induction false} LeastExists(s: set<int>)
    requires s != {}
    ensures exists least :: least in s && forall k :: k in s ==> least <= k
  {
    var x := AnyElement(s);
    if s == {x} {
      assert forall k :: k in s ==> x <= k;
    } else {
      LeastExists(s - {x});
      var least :| least in s - {x} && forall k :: k in s - {x} ==> least <= k;
      assert forall k :: k in s ==> k == x || k in s - {x};
      assert if x <= least then forall k :: k in s ==> x <= k else forall k :: k in s ==> least <= k;
    }
  }

  method Sorted(s: set<int>) returns (keys: seq<int>)
    ensures Lists(keys, s)
  {
    keys := [];
    var left := s;
    while left != {}
      invariant left <= s
      invariant StrictlyIncreasing(keys)
      invariant forall k :: k in keys <==> k in s && k !in left
      invariant forall k, l :: k in keys && l in left ==> k < l
      decreases |left|
    {
      LeastExists(left);
      var least :| least in left && forall k :: k in left ==> least <= k;
      assert forall i :: 0 <= i < |keys| ==> keys[i] in keys;
      keys := keys + [least];
      left := left - {least};
    }
  }

  function StepReturn(prev: real, end: real): real {
    if prev != 0.0 then (end - prev) / prev * 100.0 else 0.0
  }

  /** Month-by-month returns over `ends`, the first measured against `prev`. */
  function Returns(ends: seq<real>, prev: real): (r: seq<real>)
    ensures |r| == |ends|
  {
    if ends == [] then [] else [StepReturn(prev, ends[0])] + Returns(ends[1..], ends[0])
  }

  function Values(keys: seq<int>, m: map<int, real>): seq<real>
    requires forall i :: 0 <= i < |keys| ==> keys[i] in m
  {
    seq(|keys|, i requires 0 <= i < |keys| => m[keys[i]])
  }

  lemma {:induction false} ReturnAt(ends: seq<real>, prev: real, i: nat)
    requires i < |ends|
    ensures Returns(ends, prev)[i] == StepReturn(if i == 0 then prev else ends[i - 1], ends[i])
  {
    if i > 0 {
      ReturnAt(ends[1..], ends[0], i - 1);
    }
  }

  function Months(out: seq<MonthReturn>): seq<int> {
    seq(|out|, i requires 0 <= i < |out| => out[i].month)
  }

  function Percentages(out: seq<MonthReturn>): seq<real> {
    seq(|out|, i requires 0 <= i < |out| => out[i].returnPct)
  }

  /** One entry per month of the curve, in order, each return taken from one
      month-end value to the next. */
  predicate Reports(out: seq<MonthReturn>, curve: seq<EquityPoint>, initialCapital: real, monthOf: Calendar) {
    var ends := MonthEnds(curve, initialCapital, monthOf);
    Lists(Months(out), ends.Keys) && Percentages(out) == Returns(Values(Months(out), ends), initialCapital)
  }

  method MonthlyReturns(curve: seq<EquityPoint>, initialCapital: real, monthOf: Calendar) returns (out: seq<MonthReturn>)
    ensures Reports(out, curve, initialCapital, monthOf)
  {
    var monthEnd: map<int, real> := map[];
    for n := 0 to |curve|
      invariant monthEnd == MonthEnds(curve[..n], initialCapital, monthOf)
    {
      assert curve[..n + 1][..n] == curve[..n];
      monthEnd := monthEnd[monthOf(curve[n].timestamp) := initialCapital + curve[n].equity];
    }
    assert curve[..|curve|] == curve;
    var months := Sorted(monthEnd.Keys);
    ghost var ends := Values(months, monthEnd);
    out := [];
    var prevValue := initialCapital;
    for n := 0 to |months|
      invariant |out| == n
      invariant prevValue == if n == 0 then initialCapital else ends[n - 1]
      invariant forall i :: 0 <= i < n ==> out[i] == MonthReturn(months[i], Returns(ends, initialCapital)[i])
    {
      var endValue := monthEnd[months[n]];
      ReturnAt(ends, initialCapital, n);
      out := out + [MonthReturn(months[n], StepReturn(prevValue, endValue))];
      prevValue := endValue;
    }
    assert Months(out) == months;
  }

  /** The `j`-th point is the last of its month on the curve. */
  predicate EndsMonth(curve: seq<EquityPoint>, monthOf: Calendar, month: int, j: int) {
    && 0 <= j < |curve| && monthOf(curve[j].timestamp) == month
    && forall k :: j < k < |curve| ==> monthOf(curve[k].timestamp) != month
  }

  /** The percentage from one value to the next, and none from nothing. */
  predicate IsReturn(prev: real, end: real, pct: real) {
    if prev != 0.0 then pct * prev == (end - prev) * 100.0 else pct == 0.0
  }

  lemma {:induction false} MonthEndAt(curve: seq<EquityPoint>, initialCapital: real, monthOf: Calendar, month: int) returns (j: int)
    requires month in MonthEnds(curve, initialCapital, monthOf)
    ensures EndsMonth(curve, monthOf, month, j)
    ensures MonthEnds(curve, initialCapital, monthOf)[month] == initialCapital + curve[j].equity
  {
    j := |curve| - 1;
    if monthOf(curve[j].timestamp) != month {
      j := MonthEndAt(curve[..|curve| - 1], initialCapital, monthOf, month);
    }
  }

  lemma StepIsReturn(prev: real, end: real)
    ensures IsReturn(prev, end, StepReturn(prev, end))
  {
    if prev != 0.0 {
      var q := (end - prev) / prev;
      assert q * prev == end - prev;
      assert q * 100.0 * prev == q * prev * 100.0;
    }
  }

  /** Each entry of the report, on the curve: from the value at the last point of the
      month before, or the initial capital, to that at the last point of its own. */
  lemma EachMonthIs(out: seq<MonthReturn>, curve: seq<EquityPoint>, initialCapital: real, monthOf: Calendar, i: nat)
    returns (before: int, at: int)
    requires Reports(out, curve, initialCapital, monthOf) && i < |out|
    ensures EndsMonth(curve, monthOf, out[i].month, at) && (i > 0 ==> EndsMonth(curve, monthOf, out[i - 1].month, before))
    ensures IsReturn(if i > 0 then initialCapital + curve[before].equity else initialCapital,
                     initialCapital + curve[at].equity, out[i].returnPct)
  {
    var m, keys := MonthEnds(curve, initialCapital, monthOf), Months(out);
    var ends := Values(keys, m);
    assert keys[i] in m && (i > 0 ==> keys[i - 1] in m);
    at := MonthEndAt(curve, initialCapital, monthOf, keys[i]);
    before := 0;
    if i > 0 {
      before := MonthEndAt(curve, initialCapital, monthOf, keys[i - 1]);
    }
    ReturnAt(ends, initialCapital, i);
    StepIsReturn(if i > 0 then ends[i - 1] else initialCapital, ends[i]);
    assert Percentages(out)[i] == out[i].returnPct;
  }

  // ----- compounding

  /** The growth factor that a series of percentage returns compounds to. */
  function Growth(steps: seq<real>): real {
    if steps == [] then 1.0 else (1.0 + steps[0] / 100.0) * Growth(steps[1..])
  }

  predicate NeverWipedOutEarly(ends: seq<real>) {
    forall i :: 0 <= i < |ends| - 1 ==> ends[i] != 0.0
  }

  lemma Chain(prev: real, v: real, rest: real, last: real)
    requires prev != 0.0 && v != 0.0
    ensures v / prev * rest == last / prev <==> rest == last / v
  {
    var a, c, d := v / prev, last / prev, last / v;
    assert a * prev == v && c * prev == last && d * v == last;
    assert a * rest * prev == (a * prev) * rest;
    if rest == d {
      Cancel(a * rest, c, prev);
    }
    if a * rest == c {
      Cancel(rest, d, v);
    }
  }

  lemma StepFactor(prev: real, v: real)
    requires prev != 0.0
    ensures 1.0 + StepReturn(prev, v) / 100.0 == v / prev
  {
    var q, r := v / prev, (v - prev) / prev;
    assert q * prev == v && r * prev == v - prev;
    assert StepReturn(prev, v) == r * 100.0;
    hide *;
    Cancel(q - 1.0, r, prev);
  }

  /** The returns compound to the total return exactly when no month-end before
      the last is zero, or the account ends at zero anyway. */
  lemma {:induction false} ReturnsCompound(ends: seq<real>, prev: real)
    requires ends != [] && prev != 0.0
    ensures Growth(Returns(ends, prev)) == ends[|ends| - 1] / prev
            <==> NeverWipedOutEarly(ends) || ends[|ends| - 1] == 0.0
    decreases |ends|
  {
    var v, rest, last := ends[0], ends[1..], ends[|ends| - 1];
    StepFactor(prev, v);
    assert Returns(ends, prev)[1..] == Returns(rest, v);
    var g := Growth(Returns(rest, v));
    assert Growth(Returns(ends, prev)) == v / prev * g;
    assert rest != [] ==> rest[|rest| - 1] == last && (NeverWipedOutEarly(ends) <==> v != 0.0 && NeverWipedOutEarly(rest)) by {
      if rest != [] {
        assert forall i :: 0 < i < |ends| ==> ends[i] == rest[i - 1];
        assert NeverWipedOutEarly(ends) ==> ends[0] != 0.0;
      }
    }
    if rest == [] {
      assert g == 1.0;
    } else if v != 0.0 {
      ReturnsCompound(rest, v);
      hide Growth, Returns, StepReturn, NeverWipedOutEarly;
      Chain(prev, v, g, last);
    } else {
      hide Growth, Returns, StepReturn, NeverWipedOutEarly;
      ZeroQuotient(prev, last);
      assert v / prev * g == 0.0;
    }
  }

  lemma ZeroQuotient(prev: real, last: real)
    requires prev != 0.0
    ensures 0.0 / prev == 0.0 && (last / prev == 0.0 <==> last == 0.0)
  {
    assert last / prev * prev == last;
  }

  predicate Chronological(curve: seq<EquityPoint>, monthOf: Calendar) {
    forall i, j :: 0 <= i < j < |curve| ==> monthOf(curve[i].timestamp) <= monthOf(curve[j].timestamp)
  }

  lemma {:induction false} MonthEndsFromPoints(curve: seq<EquityPoint>, initialCapital: real, monthOf: Calendar, k: int)
    requires k in MonthEnds(curve, initialCapital, monthOf)
    ensures exists i :: 0 <= i < |curve| && monthOf(curve[i].timestamp) == k
  {
    var init, point := curve[..|curve| - 1], curve[|curve| - 1];
    if monthOf(point.timestamp) != k {
      MonthEndsFromPoints(init, initialCapital, monthOf, k);
      var i :| 0 <= i < |init| && monthOf(init[i].timestamp) == k;
      assert curve[i] == init[i];
    }
  }

  /** For a chronological equity curve the reported series compounds back to
      final value over initial capital, under exactly the same condition. */
  lemma MonthsCompoundToTotal(curve: seq<EquityPoint>, initialCapital: real, monthOf: Calendar, out: seq<MonthReturn>)
    requires curve != [] && initialCapital != 0.0 && Chronological(curve, monthOf)
    requires Reports(out, curve, initialCapital, monthOf)
    ensures var ends := Values(Months(out), MonthEnds(curve, initialCapital, monthOf));
            var final := initialCapital + curve[|curve| - 1].equity;
            Growth(Percentages(out)) == final / initialCapital <==> NeverWipedOutEarly(ends) || final == 0.0
  {
    var m, keys := MonthEnds(curve, initialCapital, monthOf), Months(out);
    var lastMonth := monthOf(curve[|curve| - 1].timestamp);
    assert m[lastMonth] == initialCapital + curve[|curve| - 1].equity;
    assert lastMonth in keys;
    var top := keys[|keys| - 1];
    assert top in m;
    MonthEndsFromPoints(curve, initialCapital, monthOf, top);
    assert top == lastMonth;
    ReturnsCompound(Values(keys, m), initialCapital);
  }

  // ----- a run that shows the failing side

  /** A month that ends with nothing left, followed by one that ends with half the
      initial capital: the reported series does not compound to the total. */
  lemma WipedOutMonth(curve: seq<EquityPoint>, monthOf: Calendar, out: seq<MonthReturn>)
    requires |curve| == 3 && curve[1].equity == -100.0 && curve[2].equity == -50.0
    requires monthOf(curve[0].timestamp) == monthOf(curve[1].timestamp) == 0 && monthOf(curve[2].timestamp) == 1
    requires Reports(out, curve, 100.0, monthOf)
    ensures Growth(Percentages(out)) != (100.0 + curve[2].equity) / 100.0
  {
    MonthsCompoundToTotal(curve, 100.0, monthOf, out);
    var m := MonthEnds(curve, 100.0, monthOf);
    TwoMonths(curve, monthOf);
    hide MonthEnds, Growth, Returns, Percentages;
    var keys := Months(out);
    assert 0 in keys && 1 in keys;
    var i :| 0 <= i < |keys| && keys[i] == 0;
    var j :| 0 <= j < |keys| && keys[j] == 1;
    assert i < j;
    assert Values(keys, m)[i] == 0.0;
  }

  lemma TwoMonths(curve: seq<EquityPoint>, monthOf: Calendar)
    requires |curve| == 3 && curve[1].equity == -100.0 && curve[2].equity == -50.0
    requires monthOf(curve[0].timestamp) == monthOf(curve[1].timestamp) == 0 && monthOf(curve[2].timestamp) == 1
    ensures var m := MonthEnds(curve, 100.0, monthOf);
            0 in m && 1 in m && m[0] == 0.0 && m[1] == 50.0
  {
    var c2, c1 := curve[..2], curve[..2][..1];
    assert c2[1] == curve[1] && c1[0] == curve[0] && c1[..0] == [];
    assert MonthEnds(c2, 100.0, monthOf)[0] == 0.0;
  }

  /** Bought at 150 and stopped out at 50 in the first month, bought again at 50
      and out at 100 in the second; one unit, no costs, capital of 100. */
  lemma WipedOutRun(b: Backtest, s1: Signal, s2: Signal, out: seq<MonthReturn>)
    requires b.cost == CostModel(0.0, 0.0) && b.qty == 1 && s1.qty == s2.qty == None
    requires s1.side == Buy && s1.stopLoss == 50.0 && s1.target == 500.0
    requires s2.side == Buy && s2.stopLoss == 20.0 && s2.target == 100.0
    requires b.bars == [Bar(0, 150.0, 150.0, 150.0, 150.0), Bar(1, 150.0, 150.0, 50.0, 50.0), Bar(31, 50.0, 100.0, 50.0, 100.0)]
    requires b.strategy(b.bars, 0) == Emitted([s1]) && b.strategy(b.bars, 1) == Emitted([s2]) && b.strategy(b.bars, 2) == Emitted([])
    requires Reports(out, StateAfter(b, 3).curve, 100.0, t => t / 31)
    ensures |StateAfter(b, 3).curve| == 3
    ensures Growth(Percentages(out)) != (100.0 + StateAfter(b, 3).curve[2].equity) / 100.0
  {
    RunOfThree(b, s1, s2);
    hide StateAfter, Reports, Growth, Percentages;
    WipedOutMonth(StateAfter(b, 3).curve, t => t / 31, out);
  }

  lemma RunOfThree(b: Backtest, s1: Signal, s2: Signal)
    requires b.cost == CostModel(0.0, 0.0) && b.qty == 1 && s1.qty == s2.qty == None
    requires s1.side == Buy && s1.stopLoss == 50.0 && s1.target == 500.0
    requires s2.side == Buy && s2.stopLoss == 20.0 && s2.target == 100.0
    requires b.bars == [Bar(0, 150.0, 150.0, 150.0, 150.0), Bar(1, 150.0, 150.0, 50.0, 50.0), Bar(31, 50.0, 100.0, 50.0, 100.0)]
    requires b.strategy(b.bars, 0) == Emitted([s1]) && b.strategy(b.bars, 1) == Emitted([s2]) && b.strategy(b.bars, 2) == Emitted([])
    ensures StateAfter(b, 3).curve == [EquityPoint(0, 0, 0.0), EquityPoint(1, 1, -100.0), EquityPoint(2, 31, -50.0)]
  {
    var st1, st2 := StateAfter(b, 1), StateAfter(b, 2);
    assert StateAfter(b, 0) == INITIAL;
    NextState(b, 0);
    assert st1 == EngineState(None, Some(PendingEntry(s1, 0)), 0.0, [], [EquityPoint(0, 0, 0.0)]);
    NextState(b, 1);
    assert st2.position == None && st2.pending == Some(PendingEntry(s2, 1)) && st2.realized == -100.0;
    assert st2.curve == [EquityPoint(0, 0, 0.0), EquityPoint(1, 1, -100.0)];
    NextState(b, 2);
    hide StateAfter;
  }
}
