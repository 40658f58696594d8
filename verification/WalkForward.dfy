// Rolling train/test windows over a date range, and the bars they select.

module WalkForward {
  import opened IntMath
  import opened Wrappers

  /** Timestamps are seconds; the exchange's time zone has no clock changes. */
  const SECONDS_PER_DAY := 86400

  datatype Window = Window(trainStart: int, trainEnd: int, testStart: int, testEnd: int)

  datatype Range = Range(start: int, end: int, trainDays: int, testDays: int, stepDays: Option<int>) {
    function Step(): int { if stepDays.Some? then stepDays.value else testDays }

    /** The window whose training starts at `cursor`. */
    function WindowFrom(cursor: int): Window {
      var trainEnd := cursor + trainDays * SECONDS_PER_DAY;
      Window(cursor, trainEnd, trainEnd, trainEnd + testDays * SECONDS_PER_DAY)
    }

    /** The k-th window the splitter looks at. */
    function WindowAt(k: nat): Window { WindowFrom(start + k * Step() * SECONDS_PER_DAY) }

    predicate DaysOk() { trainDays >= 1 && testDays >= 1 }
  }

  datatype SplitError = DaysTooFew

  /** Exactly the windows that end in time, from the first one on, with no gap. */
  ghost predicate AreWindows(r: Range, windows: seq<Window>) {
    && (forall k :: 0 <= k < |windows| ==> windows[k] == r.WindowAt(k) && windows[k].testEnd <= r.end)
    && r.WindowAt(|windows|).testEnd > r.end
  }

  /** The splitter comes to an end when it moves forward, or has nothing to do. */
  method SplitWindows(r: Range) returns (result: Result<seq<Window>, SplitError>)
    requires r.DaysOk() ==> r.Step() >= 1 || r.WindowAt(0).testEnd > r.end
    ensures result == Err(DaysTooFew) <==> !r.DaysOk()
    ensures result.Ok? ==> AreWindows(r, result.value)
  {
    if r.trainDays < 1 || r.testDays < 1 {
      return Err(DaysTooFew);
    }
    var step := if r.stepDays.Some? then r.stepDays.value else r.testDays;
    var windows: seq<Window> := [];
    var cursor := r.start;
    while true
      invariant cursor == r.start + |windows| * step * SECONDS_PER_DAY
      invariant forall k :: 0 <= k < |windows| ==> windows[k] == r.WindowAt(k) && windows[k].testEnd <= r.end
      decreases r.end - cursor
    {
      var trainStart := cursor;
      var trainEnd := trainStart + r.trainDays * SECONDS_PER_DAY;
      var testStart := trainEnd;
      var testEnd := testStart + r.testDays * SECONDS_PER_DAY;
      if testEnd > r.end {
        break;
      }
      windows := windows + [Window(trainStart, trainEnd, testStart, testEnd)];
      cursor := cursor + step * SECONDS_PER_DAY;
    }
    return Ok(windows);
  }

  /** Otherwise it would never stop: every window it looks at still fits. */
  lemma NeverStopsOtherwise(r: Range, k: nat)
    requires r.DaysOk() && !(r.Step() >= 1 || r.WindowAt(0).testEnd > r.end)
    ensures r.WindowAt(k).testEnd <= r.end
  {
    assert k * r.Step() <= 0;
  }

  /** The windows are determined by the range. */
  lemma WindowsUnique(r: Range, a: seq<Window>, b: seq<Window>)
    requires AreWindows(r, a) && AreWindows(r, b)
    ensures a == b
  {
    assert |a| < |b| ==> b[|a|].testEnd <= r.end;
    assert |b| < |a| ==> a[|b|].testEnd <= r.end;
  }

  /** Every window lies in the range, its test right behind its training. */
  lemma WindowsInRange(r: Range, windows: seq<Window>, k: nat)
    requires r.DaysOk() && r.Step() >= 1 && AreWindows(r, windows) && k < |windows|
    ensures var w := windows[k];
            r.start <= w.trainStart < w.trainEnd == w.testStart < w.testEnd <= r.end
  {
    assert k * r.Step() >= 0;
  }

  /** In seconds: the windows' first training starts with the range, each trains and
      tests for its own days, and the next one starts a step, or failing that one
      test period, later. */
  lemma WindowsInSeconds(r: Range, windows: seq<Window>, k: nat)
    requires AreWindows(r, windows) && k < |windows|
    ensures windows[0].trainStart == r.start
    ensures var w := windows[k];
            && w.trainEnd - w.trainStart == r.trainDays * 86400
            && w.testStart == w.trainEnd && w.testEnd - w.testStart == r.testDays * 86400
            && (k + 1 < |windows| ==>
                  windows[k + 1].trainStart - w.trainStart
                  == 86400 * match r.stepDays { case Some(days) => days case None => r.testDays })
  {
    if k + 1 < |windows| {
      assert windows[k + 1] == r.WindowAt(k + 1) && windows[k] == r.WindowAt(k);
      DistanceBetween(r, k, k + 1);
    }
  }

  lemma DistanceBetween(r: Range, i: nat, j: nat)
    requires i < j
    ensures r.WindowAt(j).testStart - r.WindowAt(i).testStart == (j - i) * (r.Step() * SECONDS_PER_DAY)
  {
    var d := r.Step() * SECONDS_PER_DAY;
    assert i * r.Step() * SECONDS_PER_DAY == i * d;
    assert j * r.Step() * SECONDS_PER_DAY == j * d;
  }

  /** With at least two windows, no two test periods overlap exactly when the
      step is no shorter than the test period. */
  lemma TestsDisjointExactlyWhen(r: Range, windows: seq<Window>)
    requires r.DaysOk() && r.Step() >= 1 && AreWindows(r, windows) && |windows| >= 2
    ensures (forall i, j :: 0 <= i < j < |windows| ==> windows[i].testEnd <= windows[j].testStart) <==> r.Step() >= r.testDays
  {
    DistanceBetween(r, 0, 1);
    assert windows[0] == r.WindowAt(0) && windows[1] == r.WindowAt(1);
    if r.Step() >= r.testDays {
      forall i, j | 0 <= i < j < |windows|
        ensures windows[i].testEnd <= windows[j].testStart
      {
        DistanceBetween(r, i, j);
        MulBounds(j - i, r.Step() * SECONDS_PER_DAY);
      }
    }
  }

  // ----- the bars of a window

  datatype BarRow = BarRow(timestamp: int, close: real)

  datatype Phase = Train | Test

  /** The bars of a half-open interval, in their order. */
  function Between(bars: seq<BarRow>, from: int, to: int): seq<BarRow> {
    if bars == [] then []
    else
      var last := bars[|bars| - 1];
      Between(bars[..|bars| - 1], from, to) + if from <= last.timestamp < to then [last] else []
  }

  function SliceBars(bars: seq<BarRow>, w: Window, phase: Phase): seq<BarRow> {
    if phase == Train then Between(bars, w.trainStart, w.trainEnd) else Between(bars, w.testStart, w.testEnd)
  }

  lemma {:induction false} BetweenConcat(a: seq<BarRow>, b: seq<BarRow>, from: int, to: int)
    ensures Between(a + b, from, to) == Between(a, from, to) + Between(b, from, to)
  {
    if b == [] {
      assert a + b == a;
    } else {
      assert (a + b)[..|a + b| - 1] == a + b[..|b| - 1];
      BetweenConcat(a, b[..|b| - 1], from, to);
    }
  }

  /** A slice keeps, in order and as often as they come, the bars from the start of
      its period up to but without its end: whatever two parts of the frame give,
      put together, is what the frame gives, and one bar gives itself or nothing. */
  lemma SliceExactly(a: seq<BarRow>, bar: BarRow, b: seq<BarRow>, w: Window, phase: Phase)
    ensures var inside := match phase
                          case Train => w.trainStart <= bar.timestamp < w.trainEnd
                          case Test => w.testStart <= bar.timestamp < w.testEnd;
            SliceBars(a + [bar] + b, w, phase) ==
            SliceBars(a, w, phase) + (if inside then [bar] else []) + SliceBars(b, w, phase)
    ensures SliceBars([], w, phase) == []
  {
    var from, to := if phase == Train then w.trainStart else w.testStart, if phase == Train then w.trainEnd else w.testEnd;
    BetweenConcat(a + [bar], b, from, to);
    BetweenConcat(a, [bar], from, to);
    assert [bar][..0] == [];
  }

  function AllTestSlices(bars: seq<BarRow>, windows: seq<Window>): seq<BarRow> {
    if windows == [] then []
    else AllTestSlices(bars, windows[..|windows| - 1]) + SliceBars(bars, windows[|windows| - 1], Test)
  }

  lemma {:induction false} BetweenJoins(bars: seq<BarRow>, a: int, m: int, b: int)
    requires a <= m <= b
    ensures multiset(Between(bars, a, m)) + multiset(Between(bars, m, b)) == multiset(Between(bars, a, b))
  {
    if bars != [] {
      BetweenJoins(bars[..|bars| - 1], a, m, b);
    }
  }

  /** Stepping by one test period, the test slices partition the bars between the
      first test's start and the last test's end: each bar once, none missing. */
  lemma {:induction false} TestSlicesPartition(r: Range, windows: seq<Window>, bars: seq<BarRow>, n: nat)
    requires r.DaysOk() && r.Step() == r.testDays && AreWindows(r, windows) && 1 <= n <= |windows|
    ensures windows[0].testStart <= windows[n - 1].testEnd
    ensures multiset(AllTestSlices(bars, windows[..n])) ==
            multiset(Between(bars, windows[0].testStart, windows[n - 1].testEnd))
  {
    assert windows[..n][..n - 1] == windows[..n - 1] && windows[..n][n - 1] == windows[n - 1];
    WindowsInRange(r, windows, n - 1);
    if n == 1 {
      assert windows[..0] == [];
      hide AreWindows, Between;
    } else {
      TestSlicesPartition(r, windows, bars, n - 1);
      TestsAdjoin(r, windows, n - 1);
      hide AreWindows, Between;
      BetweenJoins(bars, windows[0].testStart, windows[n - 1].testStart, windows[n - 1].testEnd);
    }
  }

  lemma TestsAdjoin(r: Range, windows: seq<Window>, k: nat)
    requires r.DaysOk() && r.Step() == r.testDays && AreWindows(r, windows) && 0 < k < |windows|
    ensures windows[k - 1].testEnd == windows[k].testStart
  {
    assert windows[k - 1] == r.WindowAt(k - 1) && windows[k] == r.WindowAt(k);
    DistanceBetween(r, k - 1, k);
  }

  lemma {:induction false} OnlyBetween(bars: seq<BarRow>, from: int, to: int, bar: BarRow)
    requires bar in Between(bars, from, to)
    ensures from <= bar.timestamp < to
  {
    if bars != [] && bar in Between(bars[..|bars| - 1], from, to) {
      OnlyBetween(bars[..|bars| - 1], from, to, bar);
    }
  }

  /** The range ends at the newest bar, and slices leave their end out: no bar as
      new as that is in any slice. */
  lemma NewestBarInNoSlice(r: Range, windows: seq<Window>, bars: seq<BarRow>, k: nat, phase: Phase, bar: BarRow)
    requires r.DaysOk() && r.Step() >= 1 && AreWindows(r, windows) && k < |windows|
    requires bar.timestamp == r.end
    ensures bar !in SliceBars(bars, windows[k], phase)
  {
    WindowsInRange(r, windows, k);
    hide AreWindows;
    var w := windows[k];
    if bar in Between(bars, w.trainStart, w.trainEnd) {
      OnlyBetween(bars, w.trainStart, w.trainEnd, bar);
    }
    if bar in Between(bars, w.testStart, w.testEnd) {
      OnlyBetween(bars, w.testStart, w.testEnd, bar);
    }
  }
}
