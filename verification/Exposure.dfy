// How much of a run is spent holding a position.  The exposure metric adds up
// the bars of each closed trade: a reversal makes two trades share a bar, which
// that sum counts twice, and a position still open at the end is not in it.

module Exposure {
  import opened Wrappers
  import opened RealMath
  import opened Costs
  import opened Signals
  import opened Engine
  import opened EngineTheorems
  import opened Metrics

  predicate OpenOn(trades: seq<ClosedTrade>, j: int) {
    exists i :: 0 <= i < |trades| && trades[i].entryBar <= j <= trades[i].exitBar
  }

  /** The number of bars before `n` that some closed trade covers. */
  function BarsHeld(trades: seq<ClosedTrade>, n: nat): nat {
    if n == 0 then 0 else BarsHeld(trades, n - 1) + if OpenOn(trades, n - 1) then 1 else 0
  }

  /** Trades that were reversed out and followed by another closed trade. */
  function Handovers(trades: seq<ClosedTrade>): nat {
    if |trades| <= 1 then 0
    else
      Handovers(trades[..|trades| - 1]) + if trades[|trades| - 2].reason == SignalReverse then 1 else 0
  }

  lemma {:induction false} SameBarsHeld(a: seq<ClosedTrade>, c: seq<ClosedTrade>, n: nat)
    requires forall j :: 0 <= j < n ==> OpenOn(a, j) == OpenOn(c, j)
    ensures BarsHeld(a, n) == BarsHeld(c, n)
  {
    if n > 0 {
      SameBarsHeld(a, c, n - 1);
    }
  }

  lemma {:induction false} HeldThroughout(trades: seq<ClosedTrade>, from: nat, to: nat, held: bool)
    requires from <= to && forall j :: from <= j < to ==> OpenOn(trades, j) == held
    ensures BarsHeld(trades, to) == BarsHeld(trades, from) + if held then to - from else 0
  {
    if from < to {
      HeldThroughout(trades, from, to - 1, held);
    }
  }

  lemma PrefixInOrder(trades: seq<ClosedTrade>)
    requires InOrder(trades) && trades != []
    ensures InOrder(trades[..|trades| - 1])
  {
    var init := trades[..|trades| - 1];
    forall i: nat | 0 < i < |init|
      ensures NeighboursInOrder(init, i)
    {
      assert NeighboursInOrder(trades, i);
    }
  }

  lemma {:induction false} OpenOnlyUntilLastExit(trades: seq<ClosedTrade>, j: int)
    requires InOrder(trades) && OpenOn(trades, j)
    ensures 1 <= j <= trades[|trades| - 1].exitBar
  {
    var i :| 0 <= i < |trades| && trades[i].entryBar <= j <= trades[i].exitBar;
    assert trades[i] in trades;
    if i < |trades| - 1 {
      var init := trades[..|trades| - 1];
      PrefixInOrder(trades);
      assert init[i] == trades[i];
      OpenOnlyUntilLastExit(init, j);
      assert NeighboursInOrder(trades, |trades| - 1);
      assert trades[|trades| - 1] in trades;
    }
  }

  lemma OpenWithNext(init: seq<ClosedTrade>, t: ClosedTrade, j: int)
    ensures OpenOn(init + [t], j) <==> OpenOn(init, j) || t.entryBar <= j <= t.exitBar
  {
    var trades := init + [t];
    if OpenOn(init, j) {
      var i :| 0 <= i < |init| && init[i].entryBar <= j <= init[i].exitBar;
      assert trades[i] == init[i];
    }
    assert trades[|init|] == t;
  }

  lemma NotHeldAfter(trades: seq<ClosedTrade>, from: nat, to: nat)
    requires InOrder(trades) && trades != [] && trades[|trades| - 1].exitBar < from <= to
    ensures BarsHeld(trades, to) == BarsHeld(trades, from)
  {
    forall j | from <= j < to
      ensures !OpenOn(trades, j)
    {
      if OpenOn(trades, j) {
        OpenOnlyUntilLastExit(trades, j);
      }
    }
    HeldThroughout(trades, from, to, false);
  }

  /** Up to the entry of the next trade, the earlier ones held all their bars,
      except that a reversal leaves its exit bar to the next trade. */
  lemma HeldBeforeEntry(init: seq<ClosedTrade>, entryBar: nat)
    requires InOrder(init) && init != []
    requires var prev := init[|init| - 1];
             prev.exitBar <= entryBar && (prev.exitBar == entryBar <==> prev.reason == SignalReverse)
    ensures var prev := init[|init| - 1];
            prev.exitBar >= 0 && BarsHeld(init, prev.exitBar + 1) ==
                                 BarsHeld(init, entryBar) + if prev.reason == SignalReverse then 1 else 0
  {
    var prev := init[|init| - 1];
    assert prev in init;
    assert OpenOn(init, prev.exitBar);
    if prev.exitBar < entryBar {
      NotHeldAfter(init, prev.exitBar + 1, entryBar);
    }
  }

  lemma {:induction false} NeverHeldWithoutTrades(trades: seq<ClosedTrade>, n: nat)
    requires trades == []
    ensures BarsHeld(trades, n) == 0
  {
    if n > 0 {
      NeverHeldWithoutTrades(trades, n - 1);
    }
  }

  /** A further trade adds its own bars to those held before its entry. */
  lemma NextTradeAdds(init: seq<ClosedTrade>, t: ClosedTrade)
    requires InOrder(init) && 0 <= t.entryBar <= t.exitBar
    requires init != [] ==> init[|init| - 1].exitBar <= t.entryBar
    ensures BarsHeld(init + [t], t.exitBar + 1) == BarsHeld(init, t.entryBar) + t.exitBar - t.entryBar + 1
  {
    var trades := init + [t];
    forall j | 0 <= j <= t.exitBar
      ensures OpenOn(trades, j) <==> OpenOn(init, j) || t.entryBar <= j
    {
      OpenWithNext(init, t, j);
    }
    hide OpenOn;
    HeldThroughout(trades, t.entryBar, t.exitBar + 1, true);
    SameBarsHeld(trades, init, t.entryBar);
  }

  /** Bars held up to the last exit. */
  function HeldToExit(trades: seq<ClosedTrade>): nat {
    if trades == [] || trades[|trades| - 1].exitBar < 0 then 0
    else BarsHeld(trades, trades[|trades| - 1].exitBar + 1)
  }

  lemma NextHeldToExit(init: seq<ClosedTrade>, t: ClosedTrade)
    requires InOrder(init) && 0 <= t.entryBar <= t.exitBar
    requires init != [] ==> var prev := init[|init| - 1];
               prev.exitBar <= t.entryBar && (prev.exitBar == t.entryBar <==> prev.reason == SignalReverse)
    ensures HeldToExit(init + [t]) == HeldToExit(init) + t.exitBar - t.entryBar + 1
              - if init != [] && init[|init| - 1].reason == SignalReverse then 1 else 0
  {
    NextTradeAdds(init, t);
    if init == [] {
      NeverHeldWithoutTrades(init, t.entryBar);
    } else {
      HeldBeforeEntry(init, t.entryBar);
    }
    hide BarsHeld;
  }

  /** The sum of the holding times counts every held bar once, plus once more
      for each handover. */
  lemma {:induction false} HeldCountsHandoversTwice(trades: seq<ClosedTrade>)
    requires InOrder(trades)
    ensures Held(trades) == HeldToExit(trades) + Handovers(trades)
  {
    if trades == [] {
      NothingHeld();
    } else {
      var n := |trades|;
      var init, t := trades[..n - 1], trades[n - 1];
      LastInOrder(trades);
      PrefixInOrder(trades);
      HeldStep(trades);
      hide Held, HeldToExit, Handovers, InOrder;
      HeldCountsHandoversTwice(init);
      NextHeldToExit(init, t);
      assert trades == init + [t];
    }
  }

  lemma NothingHeld()
    ensures Held([]) == HeldToExit([]) == Handovers([]) == 0
  {
  }

  lemma LastInOrder(trades: seq<ClosedTrade>)
    requires InOrder(trades) && trades != []
    ensures var init, t := trades[..|trades| - 1], trades[|trades| - 1];
            && 1 <= t.entryBar <= t.exitBar
            && (init != [] ==>
                  var prev := init[|init| - 1];
                  && prev == trades[|trades| - 2] && prev.exitBar <= t.entryBar
                  && (prev.exitBar == t.entryBar <==> prev.reason == SignalReverse))
  {
    assert trades[|trades| - 1] in trades;
    if |trades| > 1 {
      assert NeighboursInOrder(trades, |trades| - 1);
    }
  }

  lemma HeldStep(trades: seq<ClosedTrade>)
    requires trades != [] && trades[|trades| - 1].entryBar <= trades[|trades| - 1].exitBar
    ensures var init, t := trades[..|trades| - 1], trades[|trades| - 1];
            && Held(trades) == Held(init) + t.exitBar - t.entryBar + 1
            && (init == [] ==> Held(init) == 0 && Handovers(trades) == 0)
            && (init != [] ==>
                  Handovers(trades) == Handovers(init) + if trades[|trades| - 2].reason == SignalReverse then 1 else 0)
  {
  }

  lemma Fraction(part: int, whole: int, n: int)
    requires 0 <= part < n && 0 <= whole
    ensures Min(100.0, (whole as real) / (n as real) * 100.0) == (part as real) / (n as real) * 100.0 <==> whole == part
  {
    var p, w, m := part as real, whole as real, n as real;
    assert p / m < 1.0;
    if part < whole {
      assert p / m < w / m;
    } else if whole < part {
      assert w / m < p / m;
    }
  }

  // ----- the bars on which the engine itself holds a position

  /** A position is open on bar `j` once that bar's pending entry is filled. */
  predicate HeldOn(b: Backtest, j: nat)
    requires j < |b.bars|
  {
    FillPhase(b, StateAfter(b, j), j).position.Some?
  }

  function HeldBars(b: Backtest, n: nat): nat
    requires n <= |b.bars|
  {
    if n == 0 then 0 else HeldBars(b, n - 1) + if HeldOn(b, n - 1) then 1 else 0
  }

  /** What the books and the open position say about bar `j`. */
  predicate Covers(st: EngineState, j: int) {
    OpenOn(st.closed, j) || (st.position.Some? && st.position.value.entryBar <= j)
  }

  lemma NothingOpenLater(trades: seq<ClosedTrade>, k: nat)
    requires ExitsWithin(trades, 0, k)
    ensures !OpenOn(trades, k)
  {
    assert forall i :: 0 <= i < |trades| ==> trades[i] in trades && trades[i].exitBar < k;
  }

  lemma FillCovers(b: Backtest, st: EngineState, k: nat, j: int)
    requires k < |b.bars| && ExitsWithin(st.closed, 0, k) && j <= k
    requires st.position.Some? ==> st.position.value.entryBar < k
    ensures j < k ==> (Covers(FillPhase(b, st, k), j) <==> Covers(st, j))
    ensures Covers(FillPhase(b, st, k), k) <==> FillPhase(b, st, k).position.Some?
  {
    NothingOpenLater(st.closed, k);
    if st.position.Some? {
      var t := ClosePosition(st.position.value, b.bars[k].open, k, SignalReverse, b.cost);
      OpenWithNext(st.closed, t, j);
      OpenWithNext(st.closed, t, k);
    }
    hide OpenOn, EntryFillPrice, ExitFillPrice, Commission, Gross;
  }

  lemma ExitCovers(b: Backtest, st: EngineState, k: nat, j: int)
    requires k < |b.bars| && j <= k
    ensures Covers(ExitPhase(b, st, k), j) <==> Covers(st, j)
  {
    if st.position.Some? && CheckExit(st.position.value, b.bars[k], k, b.cost).1.Some? {
      OpenWithNext(st.closed, CheckExit(st.position.value, b.bars[k], k, b.cost).1.value, j);
    }
    hide OpenOn, CheckExit;
  }

  lemma BarCovers(b: Backtest, k: nat, j: nat)
    requires j <= k < |b.bars|
    ensures j < k ==> (Covers(StateAfter(b, k + 1), j) <==> Covers(StateAfter(b, k), j))
    ensures Covers(StateAfter(b, k + 1), k) <==> HeldOn(b, k)
  {
    var st := StateAfter(b, k);
    var filled := FillPhase(b, st, k);
    NextState(b, k);
    hide FillPhase, ExitPhase, OpenOn, StateAfter;
    PendingIsLastSignal(b, k);
    ExitsBefore(b, k);
    FillCovers(b, st, k, j);
    ExitCovers(b, filled, k, j);
    ExitCovers(b, filled, k, k);
  }

  /** At any moment of a run, the books and the open position account for exactly
      the bars on which a position was held. */
  lemma {:induction false} CoveredIsHeld(b: Backtest, k: nat, j: nat)
    requires j < k <= |b.bars|
    ensures Covers(StateAfter(b, k), j) <==> HeldOn(b, j)
  {
    hide HeldOn, Covers, StateAfter;
    BarCovers(b, k - 1, j);
    if j < k - 1 {
      CoveredIsHeld(b, k - 1, j);
    }
  }

  /** Bars held by a position left open at the end, less the one it shares with
      the trade it reversed. */
  function OpenTail(st: EngineState, n: nat): int {
    if st.position.None? then 0
    else n - st.position.value.entryBar
         - if st.closed != [] && st.closed[|st.closed| - 1].reason == SignalReverse then 1 else 0
  }

  lemma {:induction false} CountHeld(b: Backtest, trades: seq<ClosedTrade>, n: nat)
    requires n <= |b.bars| && forall j :: 0 <= j < n ==> (HeldOn(b, j) <==> OpenOn(trades, j))
    ensures HeldBars(b, n) == BarsHeld(trades, n)
  {
    hide HeldOn, OpenOn;
    if n > 0 {
      CountHeld(b, trades, n - 1);
    }
  }

  lemma {:induction false} CountHeldFrom(b: Backtest, from: nat, n: nat)
    requires from <= n <= |b.bars| && forall j :: from <= j < n ==> HeldOn(b, j)
    ensures HeldBars(b, n) == HeldBars(b, from) + n - from
  {
    hide HeldOn;
    if from < n {
      CountHeldFrom(b, from, n - 1);
    }
  }

  /** The closed trades up to the entry of an open position, and beyond it. */
  lemma ClosedBeforeEntry(closed: seq<ClosedTrade>, entryBar: nat, n: nat)
    requires InOrder(closed) && Follows(closed, entryBar) && entryBar < n
    ensures BarsHeld(closed, n) == BarsHeld(closed, entryBar)
                                   + if closed != [] && closed[|closed| - 1].reason == SignalReverse then 1 else 0
  {
    if closed == [] {
      NeverHeldWithoutTrades(closed, n);
      NeverHeldWithoutTrades(closed, entryBar);
    } else {
      HeldBeforeEntry(closed, entryBar);
      NotHeldAfter(closed, closed[|closed| - 1].exitBar + 1, n);
    }
    hide BarsHeld;
  }

  /** On every run: the bars held are those the closed trades cover, plus those of
      a position left open at the end. */
  lemma HeldIsCoveredPlusTail(b: Backtest)
    ensures var st, n := StateAfter(b, |b.bars|), |b.bars|;
            HeldBars(b, n) == BarsHeld(st.closed, n) + OpenTail(st, n)
  {
    var st, n := StateAfter(b, |b.bars|), |b.bars|;
    forall j | 0 <= j < n
      ensures HeldOn(b, j) <==> Covers(st, j)
    {
      CoveredIsHeld(b, n, j);
    }
    TradesInOrder(b, n);
    PendingIsLastSignal(b, n);
    hide StateAfter, HeldOn, BarsHeld, HeldBars, InOrder, OpenOn;
    if st.position.None? {
      CountHeld(b, st.closed, n);
    } else {
      var entryBar := st.position.value.entryBar;
      CountHeldFrom(b, entryBar, n);
      CountHeld(b, st.closed, entryBar);
      ClosedBeforeEntry(st.closed, entryBar, n);
    }
  }

  lemma {:induction false} HeldAtMostAll(b: Backtest, n: nat)
    requires 0 < n <= |b.bars|
    ensures HeldBars(b, n) < n
  {
    if n > 1 {
      HeldAtMostAll(b, n - 1);
    } else {
      assert StateAfter(b, 0) == INITIAL;
    }
    hide HeldOn;
  }

  lemma HeldToTheEnd(closed: seq<ClosedTrade>, n: nat)
    requires InOrder(closed) && ExitsWithin(closed, 0, n)
    ensures HeldToExit(closed) == BarsHeld(closed, n)
  {
    if closed == [] {
      NeverHeldWithoutTrades(closed, n);
    } else {
      assert closed[|closed| - 1] in closed;
      NotHeldAfter(closed, closed[|closed| - 1].exitBar + 1, n);
    }
  }

  lemma ExposureIs(closed: seq<ClosedTrade>, n: nat)
    requires n > 0
    ensures ExposurePct(closed, n) == Min(100.0, (Held(closed) as real) / (n as real) * 100.0)
  {
    assert closed == [] ==> Held(closed) == 0;
  }

  lemma ExposureIsShareWhen(closed: seq<ClosedTrade>, n: nat, held: nat)
    requires held < n && Held(closed) >= 0
    ensures ExposurePct(closed, n) == (held as real) / (n as real) * 100.0 <==> Held(closed) == held
  {
    ExposureIs(closed, n);
    hide *;
    Fraction(held, Held(closed), n);
  }

  /** On every run: the reported exposure is the share of bars on which a position
      was held if and only if the handovers, each counted twice, make up exactly
      for the bars of a position left open at the end, not counted at all. */
  lemma ExposureExactlyWhen(b: Backtest)
    requires b.bars != []
    ensures var st, n := StateAfter(b, |b.bars|), |b.bars|;
            ExposurePct(st.closed, n) == (HeldBars(b, n) as real) / (n as real) * 100.0
            <==> Handovers(st.closed) == OpenTail(st, n)
  {
    var st, n := StateAfter(b, |b.bars|), |b.bars|;
    TradesInOrder(b, n);
    hide StateAfter, BarsHeld, HeldBars, InOrder, OpenOn, Held, Handovers, ExposurePct, OpenTail, HeldToExit, ExitsWithin;
    ExitsBefore(b, n);
    HeldIsCoveredPlusTail(b);
    HeldAtMostAll(b, n);
    HeldCountsHandoversTwice(st.closed);
    HeldToTheEnd(st.closed, n);
    ExposureIsShareWhen(st.closed, n, HeldBars(b, n));
  }

  // ----- three short runs

  const CALM := Bar(0, 100.0, 101.0, 99.0, 100.0)

  /** A bar that goes through the stop below. */
  const PLUNGE := Bar(0, 100.0, 101.0, 80.0, 85.0)

  predicate LongFrom100(s: Signal) { s.side == Buy && s.stopLoss == 90.0 && s.target == 200.0 }

  /** The signal `s` on the first `count` bars, nothing afterwards. */
  predicate EmitsFirst(b: Backtest, s: Signal, count: nat) {
    forall i: nat :: i < |b.bars| ==> b.strategy(b.bars, i) == if i < count then Emitted([s]) else Emitted([])
  }

  /** What a bar does to a long position with those levels, or to none: fill what
      is pending, then stop out on a plunge, then take up the bar's signal. */
  lemma ShortRunBar(b: Backtest, s: Signal, count: nat, k: nat)
    requires LongFrom100(s) && EmitsFirst(b, s, count) && k < |b.bars| && (b.bars[k] == CALM || b.bars[k] == PLUNGE)
    requires k == 0 ==> StateAfter(b, k) == INITIAL
    ensures var st, next := StateAfter(b, k), StateAfter(b, k + 1);
            var filled := FillPhase(b, st, k);
            && (st.pending == None ==> filled == st)
            && (st.pending == Some(PendingEntry(s, k - 1)) && k > 0 ==>
                  && filled.position == Some(OpenAt(s, 100.0, k, b.qty, b.cost)) && filled.pending == None
                  && filled.closed == st.closed +
                       if st.position.Some? then [ClosePosition(st.position.value, 100.0, k, SignalReverse, b.cost)] else [])
            && (filled.position.None? ==> next.position == None && next.closed == filled.closed)
            && (filled.position.Some? ==>
                  var p := filled.position.value;
                  p.side == Long && p.stopLoss == 90.0 && p.target == 200.0 ==>
                    if b.bars[k] == CALM then next.position == Some(p) && next.closed == filled.closed
                    else next.position == None && next.closed == filled.closed + [ClosePosition(p, 90.0, k, StopLoss, b.cost)])
            && (filled.pending == None ==>
                  next.pending == if k < count && k < |b.bars| - 1 then Some(PendingEntry(s, k)) else None)
  {
    NextState(b, k);
    assert forall c: seq<ClosedTrade> :: c + [] == c;
    hide StateAfter, EntryFillPrice, ExitFillPrice, Commission, Gross;
  }

  lemma FirstState(b: Backtest)
    ensures StateAfter(b, 0) == INITIAL
  {
  }

  lemma NotHeldFirst(b: Backtest)
    requires b.bars != []
    ensures HeldBars(b, 1) == 0
  {
    FirstState(b);
  }

  lemma HandoverRun(b: Backtest, s: Signal) returns (t1: ClosedTrade, t2: ClosedTrade)
    requires LongFrom100(s) && b.bars == [CALM, CALM, PLUNGE] && EmitsFirst(b, s, 2)
    ensures StateAfter(b, 3).closed == [t1, t2] && HeldOn(b, 1) && HeldOn(b, 2)
    ensures t1.entryBar == 1 && t1.exitBar == t2.entryBar == t2.exitBar == 2 && t1.reason == SignalReverse
  {
    hide StateAfter, FillPhase, ExitPhase, SignalPhase, BarStep, EmitsFirst, EntryFillPrice, ExitFillPrice, Commission, Gross;
    FirstState(b);
    ShortRunBar(b, s, 2, 0);
    assert StateAfter(b, 1).position == None && StateAfter(b, 1).closed == [] && StateAfter(b, 1).pending == Some(PendingEntry(s, 0));
    ShortRunBar(b, s, 2, 1);
    var p1, p2 := OpenAt(s, 100.0, 1, b.qty, b.cost), OpenAt(s, 100.0, 2, b.qty, b.cost);
    assert StateAfter(b, 2).position == Some(p1) && StateAfter(b, 2).closed == [] && StateAfter(b, 2).pending == Some(PendingEntry(s, 1));
    ShortRunBar(b, s, 2, 2);
    t1 := ClosePosition(p1, 100.0, 2, SignalReverse, b.cost);
    t2 := ClosePosition(p2, 90.0, 2, StopLoss, b.cost);
  }

  /** The metric's own description says overlapping bars are not counted twice.
      Here a trade is reversed out on the bar where the next one is stopped out:
      two of three bars are held, and the exposure is reported as 100%. */
  lemma HandoverCountedTwice(b: Backtest, s: Signal)
    requires LongFrom100(s) && b.bars == [CALM, CALM, PLUNGE] && EmitsFirst(b, s, 2)
    ensures var closed := StateAfter(b, 3).closed;
            Handovers(closed) == 1 && HeldBars(b, 3) == 2 && ExposurePct(closed, 3) == 100.0
  {
    var t1, t2 := HandoverRun(b, s);
    var closed := [t1, t2];
    assert closed[..1] == [t1] && [t1][..0] == [];
    NotHeldFirst(b);
    hide StateAfter, HeldOn, EmitsFirst;
    HeldStep(closed);
    HeldStep([t1]);
    CountHeldFrom(b, 1, 3);
  }

  lemma OpenEndRun(b: Backtest, s: Signal) returns (t: ClosedTrade)
    requires LongFrom100(s) && b.bars == [CALM, PLUNGE, CALM, CALM] && EmitsFirst(b, s, 2)
    ensures StateAfter(b, 4).closed == [t] && t.entryBar == t.exitBar == 1
    ensures HeldOn(b, 1) && HeldOn(b, 2) && HeldOn(b, 3)
  {
    hide StateAfter, FillPhase, ExitPhase, SignalPhase, BarStep, EmitsFirst, EntryFillPrice, ExitFillPrice, Commission, Gross;
    FirstState(b);
    ShortRunBar(b, s, 2, 0);
    assert StateAfter(b, 1).position == None && StateAfter(b, 1).closed == [] && StateAfter(b, 1).pending == Some(PendingEntry(s, 0));
    ShortRunBar(b, s, 2, 1);
    t := ClosePosition(OpenAt(s, 100.0, 1, b.qty, b.cost), 90.0, 1, StopLoss, b.cost);
    assert StateAfter(b, 2).position == None && StateAfter(b, 2).closed == [t] && StateAfter(b, 2).pending == Some(PendingEntry(s, 1));
    ShortRunBar(b, s, 2, 2);
    assert StateAfter(b, 3).position == Some(OpenAt(s, 100.0, 2, b.qty, b.cost)) && StateAfter(b, 3).closed == [t];
    ShortRunBar(b, s, 2, 3);
  }

  /** Here nothing is counted twice, but the second position is still open at the
      end: three of four bars are held, and the exposure is reported as 25%. */
  lemma OpenPositionNotCounted(b: Backtest, s: Signal)
    requires LongFrom100(s) && b.bars == [CALM, PLUNGE, CALM, CALM] && EmitsFirst(b, s, 2)
    ensures var closed := StateAfter(b, 4).closed;
            Handovers(closed) == 0 && HeldBars(b, 4) == 3 && ExposurePct(closed, 4) == 25.0
  {
    var t := OpenEndRun(b, s);
    assert [t][..0] == [];
    NotHeldFirst(b);
    hide StateAfter, HeldOn, EmitsFirst;
    HeldStep([t]);
    CountHeldFrom(b, 1, 4);
  }
}
