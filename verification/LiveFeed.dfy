// Live tick aggregation: one open bucket per symbol, closed by the first tick
// of another bucket.

module LiveFeed {
  import opened IntMath
  import opened Wrappers
  import opened RealMath

  const MICROS_PER_MINUTE := 60_000_000
  const MICROS_PER_HOUR := 3_600_000_000

  /** A tick: timestamps are microseconds of local (IST) time, absent when they
      could not be read as a time at all. */
  datatype Tick = Tick(
    token: Option<int>, timestamp: Option<int>, lastPrice: real,
    lastTradedQuantity: real, cumulativeVolume: Option<real>)

  datatype Bar = Bar(timestamp: int, open: real, high: real, low: real, close: real, volume: real) {
    /** The bar model's own validators. */
    predicate Valid() {
      open > 0.0 && high > 0.0 && low > 0.0 && close > 0.0 && volume >= 0.0 && high >= low
    }
  }

  datatype PartialBar = PartialBar(
    startTs: int, endTs: int, open: real, high: real, low: real, close: real, volume: real)
  {
    function ToBar(): Bar { Bar(startTs, open, high, low, close, volume) }
  }

  /** The start of the bucket: the minute of the hour floored to the width. */
  function BucketStart(ts: int, minutes: int): int
    requires minutes > 0
  {
    var hour := ts / MICROS_PER_HOUR;
    var minute := ts % MICROS_PER_HOUR / MICROS_PER_MINUTE;
    hour * MICROS_PER_HOUR + minute / minutes * minutes * MICROS_PER_MINUTE
  }

  predicate SupportedWidth(minutes: int) { minutes == 1 || minutes == 5 || minutes == 15 }

  predicate IsFloor(start: int, ts: int, width: int)
    requires width > 0
  {
    start % width == 0 && start <= ts < start + width
  }

  lemma FloorOfPart(hour: int, q: int, minutes: int, perHour: int, ts: int)
    requires minutes > 0 && perHour * minutes == 60
    requires var part := ts - hour * MICROS_PER_HOUR; q * minutes * MICROS_PER_MINUTE <= part < (q + 1) * minutes * MICROS_PER_MINUTE
    ensures minutes * MICROS_PER_MINUTE > 0
    ensures IsFloor(hour * MICROS_PER_HOUR + q * minutes * MICROS_PER_MINUTE, ts, minutes * MICROS_PER_MINUTE)
  {
    var width := minutes * MICROS_PER_MINUTE;
    assert perHour * width == MICROS_PER_HOUR;
    assert q * minutes * MICROS_PER_MINUTE == q * width && (q + 1) * minutes * MICROS_PER_MINUTE == q * width + width;
    assert hour * MICROS_PER_HOUR == hour * perHour * width by {
      assert hour * (perHour * width) == hour * perHour * width;
    }
    assert hour * perHour * width + q * width == (hour * perHour + q) * width;
    ZeroRemainder(hour * perHour + q, width);
  }

  lemma MinuteOfHour(ts: int, minutes: int)
    requires SupportedWidth(minutes)
    ensures var hour, minute := ts / MICROS_PER_HOUR, ts % MICROS_PER_HOUR / MICROS_PER_MINUTE;
            var part, q := ts - hour * MICROS_PER_HOUR, minute / minutes;
            && q * minutes * MICROS_PER_MINUTE <= part < (q + 1) * minutes * MICROS_PER_MINUTE
            && BucketStart(ts, minutes) == hour * MICROS_PER_HOUR + q * minutes * MICROS_PER_MINUTE
  {
    var minute := ts % MICROS_PER_HOUR / MICROS_PER_MINUTE;
    if minutes == 1 {
      assert minute / 1 == minute;
    } else if minutes == 5 {
      assert minute / 5 * 5 <= minute < minute / 5 * 5 + 5;
    } else {
      assert minute / 15 * 15 <= minute < minute / 15 * 15 + 15;
    }
  }

  /** For the supported widths, a bucket is the interval of that width which the
      timestamp falls in, and buckets are multiples of the width. */
  lemma BucketIsFloor(ts: int, minutes: int)
    requires SupportedWidth(minutes)
    ensures IsFloor(BucketStart(ts, minutes), ts, minutes * 60_000_000)
  {
    MinuteOfHour(ts, minutes);
    hide BucketStart, IsFloor;
    var hour, minute := ts / MICROS_PER_HOUR, ts % MICROS_PER_HOUR / MICROS_PER_MINUTE;
    FloorOfPart(hour, minute / minutes, minutes, if minutes == 1 then 60 else if minutes == 5 then 12 else 4, ts);
  }

  lemma BucketMonotone(ts1: int, ts2: int, minutes: int)
    requires SupportedWidth(minutes) && ts1 <= ts2
    ensures BucketStart(ts1, minutes) <= BucketStart(ts2, minutes)
  {
    BucketIsFloor(ts1, minutes);
    BucketIsFloor(ts2, minutes);
    hide BucketStart;
    MultiplesInOrder(BucketStart(ts1, minutes), BucketStart(ts2, minutes), minutes * MICROS_PER_MINUTE);
  }

  lemma MultiplesInOrder(a: int, b: int, width: int)
    requires width > 0 && a % width == 0 && b % width == 0 && a < b + width
    ensures a <= b
  {
    var p, q := a / width, b / width;
    assert a == p * width && b == q * width;
    hide *;
    assert (p - q) * width == a - b;
    MulBounds(p - q, width);
    MulBounds(q - p, width);
  }

  // ----- one accepted tick

  /** What the aggregator reads off an accepted tick. */
  datatype Trade = Trade(bucket: int, price: real, quantity: real, cumulative: Option<real>)

  function FirstVolume(t: Trade): real {
    if t.quantity > 0.0 then t.quantity else if t.cumulative.Some? then t.cumulative.value else 0.0
  }

  function NextVolume(volume: real, t: Trade): real {
    if t.quantity > 0.0 then volume + t.quantity
    else if t.cumulative.Some? then t.cumulative.value
    else volume
  }

  /** The symbol and trade of a tick, or nothing when the tick is dropped. */
  function Accept(tick: Tick, symbols: map<int, string>, minutes: int): Option<(string, Trade)>
    requires minutes > 0
  {
    if tick.token.None? || tick.token.value !in symbols || tick.timestamp.None? || tick.lastPrice <= 0.0 then None
    else Some((symbols[tick.token.value],
               Trade(BucketStart(tick.timestamp.value, minutes), tick.lastPrice, tick.lastTradedQuantity, tick.cumulativeVolume)))
  }

  /** The accepted trades of one symbol, in arrival order. */
  function TradesOf(ticks: seq<Tick>, symbols: map<int, string>, minutes: int, symbol: string): seq<Trade>
    requires minutes > 0
  {
    if ticks == [] then []
    else
      var a := Accept(ticks[|ticks| - 1], symbols, minutes);
      TradesOf(ticks[..|ticks| - 1], symbols, minutes, symbol) +
      if a.Some? && a.value.0 == symbol then [a.value.1] else []
  }

  lemma TradesOfNext(ticks: seq<Tick>, tick: Tick, symbols: map<int, string>, minutes: int, symbol: string)
    requires minutes > 0
    ensures var a := Accept(tick, symbols, minutes);
            TradesOf(ticks + [tick], symbols, minutes, symbol) ==
            if a.Some? && a.value.0 == symbol then TradesOf(ticks, symbols, minutes, symbol) + [a.value.1]
            else TradesOf(ticks, symbols, minutes, symbol)
  {
    assert (ticks + [tick])[..|ticks|] == ticks;
  }

  // ----- the specification: cut the trades into maximal runs of equal bucket

  /** A further trade joins the last run if it falls in the same bucket. */
  function Cut(runs: seq<seq<Trade>>, t: Trade): (next: seq<seq<Trade>>)
    ensures next != []
  {
    if runs != [] && Bucket(runs[|runs| - 1]) == t.bucket then
      runs[..|runs| - 1] + [runs[|runs| - 1] + [t]]
    else runs + [[t]]
  }

  function Runs(trades: seq<Trade>): (runs: seq<seq<Trade>>)
    ensures trades == [] <==> runs == []
  {
    if trades == [] then [] else Cut(Runs(trades[..|trades| - 1]), trades[|trades| - 1])
  }

  function Flatten(runs: seq<seq<Trade>>): seq<Trade> {
    if runs == [] then [] else Flatten(runs[..|runs| - 1]) + runs[|runs| - 1]
  }

  function Bucket(run: seq<Trade>): int {
    if run == [] then 0 else run[0].bucket
  }

  predicate InOneBucket(run: seq<Trade>) {
    run != [] && forall j :: 0 <= j < |run| ==> run[j].bucket == run[0].bucket
  }

  /** Every run is nonempty and stays in one bucket; neighbours differ. */
  predicate AreRuns(runs: seq<seq<Trade>>) {
    runs != [] ==>
    (var init, last := runs[..|runs| - 1], runs[|runs| - 1];
     InOneBucket(last) && AreRuns(init) && (init != [] ==> Bucket(init[|init| - 1]) != Bucket(last)))
  }

  lemma {:induction false} EveryRunInOneBucket(runs: seq<seq<Trade>>, i: nat)
    requires AreRuns(runs) && i < |runs|
    ensures InOneBucket(runs[i])
    ensures i + 1 < |runs| ==> Bucket(runs[i]) != Bucket(runs[i + 1])
  {
    var init := runs[..|runs| - 1];
    if i < |init| {
      EveryRunInOneBucket(init, i);
    }
  }

  lemma FlattenNext(runs: seq<seq<Trade>>, run: seq<Trade>)
    ensures Flatten(runs + [run]) == Flatten(runs) + run
  {
    assert (runs + [run])[..|runs|] == runs;
  }

  lemma AreRunsNext(runs: seq<seq<Trade>>, run: seq<Trade>)
    ensures AreRuns(runs + [run]) <==>
            InOneBucket(run) && AreRuns(runs) && (runs != [] ==> Bucket(runs[|runs| - 1]) != Bucket(run))
  {
    assert (runs + [run])[..|runs|] == runs;
  }

  lemma RunsNext(trades: seq<Trade>, t: Trade)
    ensures Runs(trades + [t]) == Cut(Runs(trades), t)
  {
    assert (trades + [t])[..|trades|] == trades;
  }

  lemma CutKeepsRuns(runs: seq<seq<Trade>>, t: Trade)
    requires AreRuns(runs)
    ensures AreRuns(Cut(runs, t)) && Flatten(Cut(runs, t)) == Flatten(runs) + [t]
  {
    hide AreRuns, Flatten;
    if runs != [] && Bucket(runs[|runs| - 1]) == t.bucket {
      var front, last := runs[..|runs| - 1], runs[|runs| - 1];
      assert runs == front + [last];
      AreRunsNext(front, last);
      AreRunsNext(front, last + [t]);
      FlattenNext(front, last);
      FlattenNext(front, last + [t]);
    } else {
      FlattenNext(runs, [t]);
      AreRunsNext(runs, [t]);
    }
  }

  /** The runs are runs, and put back together they are the trades. */
  lemma {:induction false} RunsAreRuns(trades: seq<Trade>)
    ensures AreRuns(Runs(trades)) && Flatten(Runs(trades)) == trades
  {
    if trades != [] {
      var init, t := trades[..|trades| - 1], trades[|trades| - 1];
      assert trades == init + [t];
      hide AreRuns, Flatten, Cut;
      RunsAreRuns(init);
      RunsNext(init, t);
      CutKeepsRuns(Runs(init), t);
    }
  }

  /** Taking the last trade away leaves runs that it is cut onto. */
  lemma UncutLast(runs: seq<seq<Trade>>) returns (shorter: seq<seq<Trade>>, t: Trade)
    requires AreRuns(runs) && runs != []
    ensures AreRuns(shorter) && Cut(shorter, t) == runs && Flatten(runs) == Flatten(shorter) + [t]
  {
    var init, last := runs[..|runs| - 1], runs[|runs| - 1];
    assert runs == init + [last];
    AreRunsNext(init, last);
    hide AreRuns, Flatten;
    FlattenNext(init, last);
    t := last[|last| - 1];
    if |last| == 1 {
      assert last == [t];
      shorter := init;
    } else {
      var part := last[..|last| - 1];
      assert last == part + [t];
      AreRunsNext(init, part);
      FlattenNext(init, part);
      shorter := init + [part];
      assert shorter[..|init|] == init;
    }
  }

  /** There is only one way to cut the trades like that. */
  lemma {:induction false} RunsAreUnique(runs: seq<seq<Trade>>)
    requires AreRuns(runs)
    ensures Runs(Flatten(runs)) == runs
    decreases |Flatten(runs)|
  {
    if runs != [] {
      var shorter, t := UncutLast(runs);
      hide AreRuns, Cut;
      RunsAreUnique(shorter);
      RunsNext(Flatten(shorter), t);
    }
  }

  lemma {:induction false} NoEmptyRun(runs: seq<seq<Trade>>)
    requires AreRuns(runs)
    ensures forall i :: 0 <= i < |runs| ==> runs[i] != []
  {
    forall i | 0 <= i < |runs| ensures runs[i] != [] { EveryRunInOneBucket(runs, i); }
  }

  // ----- the bar of one run

  function RunHigh(run: seq<Trade>): real
    requires run != []
  {
    if |run| == 1 then run[0].price else Max(RunHigh(run[..|run| - 1]), run[|run| - 1].price)
  }

  function RunLow(run: seq<Trade>): real
    requires run != []
  {
    if |run| == 1 then run[0].price else Min(RunLow(run[..|run| - 1]), run[|run| - 1].price)
  }

  function RunVolume(run: seq<Trade>): real
    requires run != []
  {
    if |run| == 1 then FirstVolume(run[0]) else NextVolume(RunVolume(run[..|run| - 1]), run[|run| - 1])
  }

  /** First price, highest, lowest, last, and the accumulated volume. */
  function BarOf(run: seq<Trade>): Bar
    requires run != []
  {
    Bar(run[0].bucket, run[0].price, RunHigh(run), RunLow(run), run[|run| - 1].price, RunVolume(run))
  }

  function BarsOf(runs: seq<seq<Trade>>): seq<Bar>
    requires forall i :: 0 <= i < |runs| ==> runs[i] != []
  {
    seq(|runs|, i requires 0 <= i < |runs| => BarOf(runs[i]))
  }

  /** High and low are the extreme prices of the run, and are reached in it. */
  lemma {:induction false} BarBoundsRun(run: seq<Trade>)
    requires run != []
    ensures forall j :: 0 <= j < |run| ==> BarOf(run).low <= run[j].price <= BarOf(run).high
    ensures exists j :: 0 <= j < |run| && run[j].price == BarOf(run).high
    ensures exists j :: 0 <= j < |run| && run[j].price == BarOf(run).low
  {
    if |run| == 1 {
      assert run[0].price == BarOf(run).high == BarOf(run).low;
    } else {
      var init := run[..|run| - 1];
      BarBoundsRun(init);
      var h :| 0 <= h < |init| && init[h].price == BarOf(init).high;
      var l :| 0 <= l < |init| && init[l].price == BarOf(init).low;
      assert run[h] == init[h] && run[l] == init[l];
      assert run[|run| - 1].price == BarOf(run).high || run[h].price == BarOf(run).high;
      assert run[|run| - 1].price == BarOf(run).low || run[l].price == BarOf(run).low;
      assert forall j :: 0 <= j < |init| ==> run[j] == init[j];
    }
  }

  /** The tick states the day's volume so far, and no quantity of its own. */
  predicate Restates(t: Trade) { t.quantity <= 0.0 && t.cumulative.Some? }

  function Traded(run: seq<Trade>): real {
    if run == [] then 0.0
    else Traded(run[..|run| - 1]) + if run[|run| - 1].quantity > 0.0 then run[|run| - 1].quantity else 0.0
  }

  lemma TradedNext(run: seq<Trade>, t: Trade)
    ensures Traded(run + [t]) == Traded(run) + if t.quantity > 0.0 then t.quantity else 0.0
  {
    assert (run + [t])[..|run|] == run;
  }

  lemma RunVolumeNext(run: seq<Trade>, t: Trade)
    ensures RunVolume(run + [t]) == if run == [] then FirstVolume(t) else NextVolume(RunVolume(run), t)
  {
    if run != [] {
      assert (run + [t])[..|run|] == run;
    }
  }

  lemma AddsQuantity(volume: real, t: Trade)
    requires !Restates(t)
    ensures NextVolume(volume, t) == volume + if t.quantity > 0.0 then t.quantity else 0.0
  {
  }

  predicate NoneRestates(run: seq<Trade>) { forall i :: 0 <= i < |run| ==> !Restates(run[i]) }

  lemma NoneRestatesNext(run: seq<Trade>, t: Trade)
    requires NoneRestates(run + [t])
    ensures NoneRestates(run) && !Restates(t)
  {
    var all := run + [t];
    assert all[|run|] == t && forall i :: 0 <= i < |run| ==> all[i] == run[i];
  }

  /** After a tick that only states the day's cumulative volume, the volume of a run is
      what that one stated and the quantities traded since, whatever came before. */
  lemma {:induction false} VolumeSinceStated(before: seq<Trade>, t: Trade, after: seq<Trade>)
    requires Restates(t) && NoneRestates(after)
    ensures RunVolume(before + [t] + after) == t.cumulative.value + Traded(after)
  {
    if after == [] {
      assert before + [t] + after == before + [t];
      RunVolumeNext(before, t);
    } else {
      var init, last := after[..|after| - 1], after[|after| - 1];
      assert after == init + [last];
      assert before + [t] + after == (before + [t] + init) + [last];
      hide RunVolume, Traded, Restates, NoneRestates, NextVolume;
      NoneRestatesNext(init, last);
      VolumeSinceStated(before, t, init);
      RunVolumeNext(before + [t] + init, last);
      AddsQuantity(RunVolume(before + [t] + init), last);
      TradedNext(init, last);
    }
  }

  /** Without such a tick it is all the quantities traded. */
  lemma {:induction false} VolumeOfQuantities(run: seq<Trade>)
    requires run != [] && NoneRestates(run)
    ensures RunVolume(run) == Traded(run)
  {
    var init, last := run[..|run| - 1], run[|run| - 1];
    assert run == init + [last];
    NothingTraded();
    hide RunVolume, Traded, NoneRestates;
    NoneRestatesNext(init, last);
    RunVolumeNext(init, last);
    TradedNext(init, last);
    if init != [] {
      VolumeOfQuantities(init);
      AddsQuantity(RunVolume(init), last);
    }
  }

  lemma NothingTraded()
    ensures Traded([]) == 0.0
  {
  }

  // ----- what the specification gives

  predicate AllPriced(trades: seq<Trade>) { forall t <- trades :: t.price > 0.0 }

  lemma {:induction false} PricedInOrder(run: seq<Trade>)
    requires run != [] && AllPriced(run)
    ensures 0.0 < RunLow(run) <= RunHigh(run) && run[0].price > 0.0 && run[|run| - 1].price > 0.0
  {
    assert run[0] in run && run[|run| - 1] in run;
    if |run| > 1 {
      assert forall t <- run[..|run| - 1] :: t in run;
      PricedInOrder(run[..|run| - 1]);
    }
  }

  /** The bar of a run passes the bar model's validators if and only if the volume
      it ends with is not negative. */
  lemma RunBarValidExactlyWhen(run: seq<Trade>)
    requires run != [] && AllPriced(run)
    ensures BarOf(run).Valid() <==> RunVolume(run) >= 0.0
  {
    PricedInOrder(run);
  }

  predicate NoNegativeVolume(trades: seq<Trade>) {
    forall t <- trades :: t.cumulative.Some? ==> t.cumulative.value >= 0.0
  }

  lemma {:induction false} VolumeNotNegative(run: seq<Trade>)
    requires run != [] && NoNegativeVolume(run)
    ensures RunVolume(run) >= 0.0
  {
    assert run[|run| - 1] in run;
    if |run| > 1 {
      assert forall t <- run[..|run| - 1] :: t in run;
      VolumeNotNegative(run[..|run| - 1]);
    }
  }

  lemma {:induction false} AcceptedArePriced(ticks: seq<Tick>, symbols: map<int, string>, minutes: int, symbol: string)
    requires minutes > 0
    ensures AllPriced(TradesOf(ticks, symbols, minutes, symbol))
  {
    if ticks != [] {
      AcceptedArePriced(ticks[..|ticks| - 1], symbols, minutes, symbol);
    }
  }

  lemma {:induction false} RunsHoldTheTrades(runs: seq<seq<Trade>>, i: nat)
    requires i < |runs|
    ensures forall t <- runs[i] :: t in Flatten(runs)
  {
    if i < |runs| - 1 {
      RunsHoldTheTrades(runs[..|runs| - 1], i);
    }
  }

  /** Every bar the feed builds, from whatever ticks, passes the validators if and
      only if the volume of its run is not negative; so all do unless some tick
      reports a negative cumulative volume. */
  lemma BarValidExactlyWhen(ticks: seq<Tick>, symbols: map<int, string>, minutes: int, symbol: string, i: nat)
    requires minutes > 0 && i < |Runs(TradesOf(ticks, symbols, minutes, symbol))|
    ensures var trades := TradesOf(ticks, symbols, minutes, symbol);
            var run := Runs(trades)[i];
            && run != []
            && (BarOf(run).Valid() <==> RunVolume(run) >= 0.0)
            && (NoNegativeVolume(trades) ==> BarOf(run).Valid())
  {
    var trades := TradesOf(ticks, symbols, minutes, symbol);
    hide TradesOf, Runs, Flatten, BarOf, RunVolume;
    AcceptedArePriced(ticks, symbols, minutes, symbol);
    RunsAreRuns(trades);
    EveryRunInOneBucket(Runs(trades), i);
    RunsHoldTheTrades(Runs(trades), i);
    RunBarValidExactlyWhen(Runs(trades)[i]);
    if NoNegativeVolume(trades) {
      VolumeNotNegative(Runs(trades)[i]);
    }
  }

  function TotalQuantity(trades: seq<Trade>): real {
    if trades == [] then 0.0 else TotalQuantity(trades[..|trades| - 1]) + trades[|trades| - 1].quantity
  }

  function TotalVolume(bars: seq<Bar>): real {
    if bars == [] then 0.0 else TotalVolume(bars[..|bars| - 1]) + bars[|bars| - 1].volume
  }

  predicate AllQuantified(trades: seq<Trade>) { forall t <- trades :: t.quantity > 0.0 }

  lemma {:induction false} RunVolumeIsQuantity(run: seq<Trade>)
    requires run != [] && AllQuantified(run)
    ensures RunVolume(run) == TotalQuantity(run)
  {
    assert run[|run| - 1] in run;
    if |run| == 1 {
      assert run[..0] == [];
    } else {
      assert forall t <- run[..|run| - 1] :: t in run;
      RunVolumeIsQuantity(run[..|run| - 1]);
    }
  }

  lemma {:induction false} TotalQuantityConcat(a: seq<Trade>, b: seq<Trade>)
    ensures TotalQuantity(a + b) == TotalQuantity(a) + TotalQuantity(b)
  {
    if b == [] {
      assert a + b == a;
    } else {
      assert (a + b)[..|a + b| - 1] == a + b[..|b| - 1];
      TotalQuantityConcat(a, b[..|b| - 1]);
    }
  }

  /** With a quantity on every trade, no volume is lost or counted twice. */
  lemma {:induction false} VolumeConserved(runs: seq<seq<Trade>>)
    requires AreRuns(runs) && AllQuantified(Flatten(runs))
    ensures forall i :: 0 <= i < |runs| ==> runs[i] != []
    ensures TotalVolume(BarsOf(runs)) == TotalQuantity(Flatten(runs))
  {
    NoEmptyRun(runs);
    if runs != [] {
      var init, last := runs[..|runs| - 1], runs[|runs| - 1];
      assert forall t <- Flatten(init) :: t in Flatten(runs);
      assert forall t <- last :: t in Flatten(runs);
      VolumeConserved(init);
      RunVolumeIsQuantity(last);
      TotalQuantityConcat(Flatten(init), last);
      assert BarsOf(runs)[..|runs| - 1] == BarsOf(init);
    }
  }

  predicate BucketsInOrder(trades: seq<Trade>) {
    forall i, j :: 0 <= i < j < |trades| ==> trades[i].bucket <= trades[j].bucket
  }

  predicate StartsIncrease(bars: seq<Bar>) {
    forall i, j :: 0 <= i < j < |bars| ==> bars[i].timestamp < bars[j].timestamp
  }

  lemma InOrderConcat(a: seq<Trade>, b: seq<Trade>)
    ensures BucketsInOrder(a + b) <==>
            BucketsInOrder(a) && BucketsInOrder(b) && (a != [] && b != [] ==> a[|a| - 1].bucket <= b[0].bucket)
  {
    var all := a + b;
    assert forall i :: 0 <= i < |a| ==> all[i] == a[i];
    assert forall j :: 0 <= j < |b| ==> all[|a| + j] == b[j];
  }

  lemma IncreaseNext(bars: seq<Bar>, bar: Bar)
    ensures StartsIncrease(bars + [bar]) <==>
            StartsIncrease(bars) && (bars != [] ==> bars[|bars| - 1].timestamp < bar.timestamp)
  {
    var all := bars + [bar];
    assert forall i :: 0 <= i < |bars| ==> all[i] == bars[i];
    assert all[|bars|] == bar;
    if bars != [] && StartsIncrease(bars) && bars[|bars| - 1].timestamp < bar.timestamp {
      assert forall i :: 0 <= i < |bars| ==> bars[i].timestamp <= bars[|bars| - 1].timestamp;
    }
  }

  lemma LastOfFlatten(runs: seq<seq<Trade>>)
    requires AreRuns(runs) && runs != []
    ensures Flatten(runs) != [] && Flatten(runs)[|Flatten(runs)| - 1].bucket == Bucket(runs[|runs| - 1])
  {
  }

  /** The bars of a symbol start at strictly increasing times exactly when its
      ticks never fall back into an earlier bucket. */
  lemma {:induction false} StartsIncreaseExactlyWhen(runs: seq<seq<Trade>>)
    requires AreRuns(runs)
    ensures forall i :: 0 <= i < |runs| ==> runs[i] != []
    ensures StartsIncrease(BarsOf(runs)) <==> BucketsInOrder(Flatten(runs))
  {
    NoEmptyRun(runs);
    if runs != [] {
      var init, last := runs[..|runs| - 1], runs[|runs| - 1];
      StartsIncreaseExactlyWhen(init);
      assert BarsOf(runs) == BarsOf(init) + [BarOf(last)];
      IncreaseNext(BarsOf(init), BarOf(last));
      InOrderConcat(Flatten(init), last);
      if init != [] {
        LastOfFlatten(init);
      }
      hide StartsIncrease, RunHigh, RunLow, RunVolume;
    }
  }

  /** Ticks that arrive in time order keep their buckets in order. */
  lemma {:induction false} TimeOrderGivesBucketOrder(ticks: seq<Tick>, symbols: map<int, string>, minutes: int, symbol: string)
    requires SupportedWidth(minutes)
    requires forall i, j :: 0 <= i < j < |ticks| && ticks[i].timestamp.Some? && ticks[j].timestamp.Some? ==>
               ticks[i].timestamp.value <= ticks[j].timestamp.value
    ensures BucketsInOrder(TradesOf(ticks, symbols, minutes, symbol))
    ensures forall t, now :: t in TradesOf(ticks, symbols, minutes, symbol) && LatestBy(ticks, now) ==>
              t.bucket <= BucketStart(now, minutes)
  {
    hide BucketStart;
    if ticks != [] {
      var init, tick := ticks[..|ticks| - 1], ticks[|ticks| - 1];
      TimeOrderGivesBucketOrder(init, symbols, minutes, symbol);
      var a := Accept(tick, symbols, minutes);
      if a.Some? && a.value.0 == symbol {
        var before, ts := TradesOf(init, symbols, minutes, symbol), tick.timestamp.value;
        assert LatestBy(init, ts);
        InOrderConcat(before, [a.value.1]);
        assert before != [] ==> before[|before| - 1] in before;
        forall now | LatestBy(ticks, now)
          ensures BucketStart(ts, minutes) <= BucketStart(now, minutes)
        {
          BucketMonotone(ts, now, minutes);
        }
      }
      assert forall now :: LatestBy(ticks, now) ==> LatestBy(init, now);
    }
  }

  /** No timestamp among the ticks is later than `now`. */
  predicate LatestBy(ticks: seq<Tick>, now: int) {
    forall i :: 0 <= i < |ticks| && ticks[i].timestamp.Some? ==> ticks[i].timestamp.value <= now
  }

  // ----- one symbol, one trade

  function OpenBucket(run: seq<Trade>, minutes: int): PartialBar
    requires run != []
  {
    var bar := BarOf(run);
    PartialBar(bar.timestamp, bar.timestamp + minutes * MICROS_PER_MINUTE, bar.open, bar.high, bar.low, bar.close, bar.volume)
  }

  /** The state of one symbol matches its trades: completed bars followed by the
      open bucket are the bars of the runs. */
  ghost predicate Matches(trades: seq<Trade>, done: seq<Bar>, partial: Option<PartialBar>, minutes: int) {
    var runs := Runs(trades);
    && (forall i :: 0 <= i < |runs| ==> runs[i] != [])
    && (if runs == [] then done == [] && partial == None
        else done == BarsOf(runs[..|runs| - 1]) && partial == Some(OpenBucket(runs[|runs| - 1], minutes)))
  }

  function Opened(t: Trade, minutes: int): PartialBar {
    PartialBar(t.bucket, t.bucket + minutes * MICROS_PER_MINUTE, t.price, t.price, t.price, t.price, FirstVolume(t))
  }

  function Extended(p: PartialBar, t: Trade): PartialBar {
    p.(high := Max(p.high, t.price), low := Min(p.low, t.price), close := t.price, volume := NextVolume(p.volume, t))
  }

  /** How a trade changes its symbol's open bucket, and the bar it closes. */
  function Absorb(partial: Option<PartialBar>, t: Trade, minutes: int): (PartialBar, Option<Bar>) {
    match partial
    case None => (Opened(t, minutes), None)
    case Some(p) => if t.bucket != p.startTs then (Opened(t, minutes), Some(p.ToBar())) else (Extended(p, t), None)
  }

  lemma {:induction false} AbsorbMatches(trades: seq<Trade>, done: seq<Bar>, partial: Option<PartialBar>, t: Trade, minutes: int)
    requires Matches(trades, done, partial, minutes)
    ensures var (next, closed) := Absorb(partial, t, minutes);
            Matches(trades + [t], done + ToSeq(closed), Some(next), minutes)
  {
    var before := Runs(trades);
    RunsNext(trades, t);
    hide Runs;
    if before == [] {
      assert [] + [[t]] == [[t]];
      assert BarsOf([[t]][..0]) == [];
    } else {
      var front, last := before[..|before| - 1], before[|before| - 1];
      if Bucket(last) == t.bucket {
        var grown := front + [last + [t]];
        assert grown[..|grown| - 1] == front;
        GrownBucket(last, t, minutes);
        assert done + [] == done;
      } else {
        var more := before + [[t]];
        assert more[..|more| - 1] == before;
        assert BarsOf(before) == BarsOf(front) + [BarOf(last)];
      }
    }
  }

  lemma GrownBucket(run: seq<Trade>, t: Trade, minutes: int)
    requires run != []
    ensures OpenBucket(run + [t], minutes) == Extended(OpenBucket(run, minutes), t)
  {
    assert (run + [t])[..|run|] == run;
  }

  // ----- the feed

  /** The bars of one symbol among all completed ones, in order. */
  function BarsFor(done: seq<(string, Bar)>, symbol: string): seq<Bar> {
    if done == [] then []
    else BarsFor(done[..|done| - 1], symbol) + if done[|done| - 1].0 == symbol then [done[|done| - 1].1] else []
  }

  lemma BarsForNext(done: seq<(string, Bar)>, closed: Option<(string, Bar)>, symbol: string)
    ensures BarsFor(done + ToSeq(closed), symbol) ==
            if closed.Some? && closed.value.0 == symbol then BarsFor(done, symbol) + [closed.value.1] else BarsFor(done, symbol)
  {
    if closed.Some? {
      assert (done + [closed.value])[..|done|] == done;
    } else {
      assert done + [] == done;
    }
  }

  /** Closing a bucket validates its bar, and a bar that fails raises. */
  datatype FeedError = InvalidBar

  /** What taking a tick would raise on: it closes a bucket of negative volume. */
  predicate Raises(partials: map<string, PartialBar>, tick: Tick, symbols: map<int, string>, minutes: int)
    requires minutes > 0
  {
    var a := Accept(tick, symbols, minutes);
    && a.Some? && a.value.0 in partials
    && partials[a.value.0].startTs != a.value.1.bucket && partials[a.value.0].volume < 0.0
  }

  /** The open bucket of a symbol is invalid only by its volume. */
  lemma OpenBucketValidExactlyWhen(ticks: seq<Tick>, symbols: map<int, string>, minutes: int, symbol: string,
                                   done: seq<Bar>, p: PartialBar)
    requires minutes > 0 && Matches(TradesOf(ticks, symbols, minutes, symbol), done, Some(p), minutes)
    ensures p.ToBar().Valid() <==> p.volume >= 0.0
    ensures NoNegativeVolume(TradesOf(ticks, symbols, minutes, symbol)) ==> p.volume >= 0.0
  {
    var runs := Runs(TradesOf(ticks, symbols, minutes, symbol));
    BarValidExactlyWhen(ticks, symbols, minutes, symbol, |runs| - 1);
    hide TradesOf, Runs, BarsOf, RunVolume, RunHigh, RunLow;
  }

  predicate TicksNotNegative(ticks: seq<Tick>) {
    forall t <- ticks :: t.cumulativeVolume.Some? ==> t.cumulativeVolume.value >= 0.0
  }

  lemma {:induction false} TradesNotNegative(ticks: seq<Tick>, symbols: map<int, string>, minutes: int, symbol: string)
    requires minutes > 0 && TicksNotNegative(ticks)
    ensures NoNegativeVolume(TradesOf(ticks, symbols, minutes, symbol))
  {
    if ticks != [] {
      assert forall t <- ticks[..|ticks| - 1] :: t in ticks;
      assert ticks[|ticks| - 1] in ticks;
      TradesNotNegative(ticks[..|ticks| - 1], symbols, minutes, symbol);
    }
  }

  class LiveKiteFeed {
    const symbolMap: map<int, string>
    const bucketMinutes: int
    var partials: map<string, PartialBar>
    var completed: seq<(string, Bar)>
    ghost var ticks: seq<Tick>

    ghost function PartialOf(symbol: string): Option<PartialBar>
      reads this
    {
      if symbol in partials then Some(partials[symbol]) else None
    }

    ghost predicate Refines(symbol: string)
      requires bucketMinutes > 0
      reads this
    {
      Matches(TradesOf(ticks, symbolMap, bucketMinutes, symbol), BarsFor(completed, symbol), PartialOf(symbol), bucketMinutes)
    }

    /** Every symbol's bars are the bars of the ticks taken so far, and every
        completed bar is a valid one. */
    ghost predicate Valid()
      reads this
    {
      && SupportedWidth(bucketMinutes) && (forall symbol :: Refines(symbol))
      && forall i :: 0 <= i < |completed| ==> completed[i].1.Valid()
    }

    constructor (symbolMap: map<int, string>, bucketMinutes: int)
      requires SupportedWidth(bucketMinutes)
      ensures Valid() && ticks == [] && completed == [] && partials == map[]
      ensures this.symbolMap == symbolMap && this.bucketMinutes == bucketMinutes
    {
      this.symbolMap := symbolMap;
      this.bucketMinutes := bucketMinutes;
      partials := map[];
      completed := [];
      ticks := [];
    }

    /** A tick that is not taken, dropped or raised on, leaves everything as it was. */
    method HandleTick(tick: Tick) returns (result: Result<Option<(string, Bar)>, FeedError>)
      requires Valid()
      modifies this
      ensures Valid()
      ensures result.Err? <==> old(Raises(partials, tick, symbolMap, bucketMinutes))
      ensures result.Err? ==> ticks == old(ticks) && completed == old(completed) && partials == old(partials)
      ensures result.Ok? ==> ticks == old(ticks) + [tick] && completed == old(completed) + ToSeq(result.value)
      ensures Accept(tick, symbolMap, bucketMinutes).None? ==> result == Ok(None) && partials == old(partials)
    {
      hide Matches, TradesOf, BarsFor, BucketStart;
      ghost var ticksBefore, completedBefore, partialsBefore := ticks, completed, partials;
      if tick.token.None? || tick.token.value !in symbolMap || tick.timestamp.None? || tick.lastPrice <= 0.0 {
        ticks := ticks + [tick];
        forall symbol ensures Refines(symbol) {
          assert old(Refines(symbol));
          TradesOfNext(ticksBefore, tick, symbolMap, bucketMinutes, symbol);
        }
        return Ok(None);
      }
      var closed: Option<(string, Bar)> := None;
      var symbol := symbolMap[tick.token.value];
      var t := Trade(BucketStart(tick.timestamp.value, bucketMinutes), tick.lastPrice,
                     tick.lastTradedQuantity, tick.cumulativeVolume);
      assert Accept(tick, symbolMap, bucketMinutes) == Some((symbol, t));
      assert Refines(symbol);
      if symbol !in partials {
        partials := partials[symbol := Opened(t, bucketMinutes)];
      } else if t.bucket != partials[symbol].startTs {
        var bar := partials[symbol].ToBar();
        OpenBucketValidExactlyWhen(ticks, symbolMap, bucketMinutes, symbol, BarsFor(completed, symbol), partials[symbol]);
        if !bar.Valid() {
          return Err(InvalidBar);
        }
        closed := Some((symbol, bar));
        completed := completed + [closed.value];
        partials := partials[symbol := Opened(t, bucketMinutes)];
      } else {
        partials := partials[symbol := Extended(partials[symbol], t)];
      }
      ticks := ticks + [tick];
      result := Ok(closed);
      assert completed == completedBefore + ToSeq(closed);
      ghost var (next, bar) := Absorb(old(PartialOf(symbol)), t, bucketMinutes);
      assert PartialOf(symbol) == Some(next) && closed == if bar.Some? then Some((symbol, bar.value)) else None;
      forall other ensures Refines(other) {
        assert old(Refines(other));
        assert other != symbol ==> PartialOf(other) == old(PartialOf(other));
        TradesOfNext(ticksBefore, tick, symbolMap, bucketMinutes, other);
        BarsForNext(completedBefore, closed, other);
        if other == symbol {
          AbsorbMatches(TradesOf(ticksBefore, symbolMap, bucketMinutes, symbol), BarsFor(completedBefore, symbol),
                        old(PartialOf(symbol)), t, bucketMinutes);
          assert bar.None? ==> BarsFor(completedBefore, symbol) + [] == BarsFor(completedBefore, symbol);
        }
      }
    }

    /** Ticks are taken one after the other, up to the first that raises; the bars
        they close are returned, or lost to the caller with the exception.  Without
        negative volumes nothing raises. */
    method IngestTicks(batch: seq<Tick>) returns (result: Result<seq<(string, Bar)>, FeedError>, ghost taken: nat)
      requires Valid()
      modifies this
      ensures Valid() && taken <= |batch| && ticks == old(ticks) + batch[..taken]
      ensures result.Ok? ==> taken == |batch| && completed == old(completed) + result.value
      ensures result.Err? ==> taken < |batch| && Raises(partials, batch[taken], symbolMap, bucketMinutes)
      ensures old(completed) <= completed
      ensures TicksNotNegative(old(ticks)) && TicksNotNegative(batch) ==> result.Ok?
    {
      var emitted: seq<(string, Bar)> := [];
      taken := 0;
      for n := 0 to |batch|
        invariant taken == n && Valid() && ticks == old(ticks) + batch[..n]
        invariant completed == old(completed) + emitted
      {
        var closed := HandleTick(batch[n]);
        if closed.Err? {
          if TicksNotNegative(old(ticks)) && TicksNotNegative(batch) {
            NeverRaises(batch[n]);
          }
          return Err(closed.error), taken;
        }
        if closed.value.Some? {
          emitted := emitted + [closed.value.value];
        }
        taken := n + 1;
      }
      return Ok(emitted), taken;
    }

    lemma NeverRaises(tick: Tick)
      requires Valid() && TicksNotNegative(ticks)
      ensures !Raises(partials, tick, symbolMap, bucketMinutes)
    {
      var a := Accept(tick, symbolMap, bucketMinutes);
      if a.Some? && a.value.0 in partials {
        var symbol := a.value.0;
        assert Refines(symbol);
        TradesNotNegative(ticks, symbolMap, bucketMinutes, symbol);
        OpenBucketValidExactlyWhen(ticks, symbolMap, bucketMinutes, symbol, BarsFor(completed, symbol), partials[symbol]);
      }
      hide Matches, TradesOf, BarsFor, BucketStart;
    }
  }
}
