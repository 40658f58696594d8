// What every run of the bar-walk engine guarantees.
//
//   * TradeByTrade       the walk equals an independent, per-signal definition of its trades
//   * DearerCostsNeverHelp   two runs that differ only in the cost model
//   * NoLookahead        a run on a prefix is the prefix of the run
//   * LedgerBalances     the equity curve is the running sum of the closed trades
//   * TradesInOrder      at most one position at a time, reversals share a bar

module EngineTheorems {
  import opened Wrappers
  import opened RealMath
  import opened Costs
  import opened Signals
  import opened Engine

  // ----- signals as the engine accepts them

  /** The signal the engine acts on at bar `j`: the last bar's signal is dropped. */
  function SignalAt(b: Backtest, j: nat): Option<Signal> {
    if j + 1 < |b.bars| then FirstSignal(b.strategy(b.bars, j)) else None
  }

  function PendingBefore(b: Backtest, k: nat): Option<PendingEntry> {
    if k > 0 && SignalAt(b, k - 1).Some? then Some(PendingEntry(SignalAt(b, k - 1).value, k - 1)) else None
  }

  /** A signal waits for exactly one bar: nothing older is ever pending, and an
      open position was filled on an earlier bar than the one about to run. */
  lemma {:induction false} PendingIsLastSignal(b: Backtest, k: nat)
    requires k <= |b.bars|
    ensures StateAfter(b, k).pending == PendingBefore(b, k)
    ensures StateAfter(b, k).position.Some? ==> 1 <= StateAfter(b, k).position.value.entryBar < k
  {
    hide ExitFillPrice, EntryFillPrice, Commission, Gross, CheckExit;
    if k > 0 {
      PendingIsLastSignal(b, k - 1);
    }
  }

  // ----- the trades, one signal at a time

  predicate ReversedAt(b: Backtest, p: OpenPosition, j: nat) {
    j > p.entryBar && j > 0 && SignalAt(b, j - 1).Some?
  }

  predicate EndsAt(b: Backtest, p: OpenPosition, j: nat)
    requires j < |b.bars|
  {
    ReversedAt(b, p, j) || StopTouched(p, b.bars[j]) || TargetTouched(p, b.bars[j])
  }

  /** How a position that ends on bar `j` is closed there: a reversal at the
      open comes before any exit, and the stop comes before the target. */
  function TradeEndingAt(b: Backtest, p: OpenPosition, j: nat): ClosedTrade
    requires j < |b.bars|
  {
    if ReversedAt(b, p, j) then ClosePosition(p, b.bars[j].open, j, SignalReverse, b.cost)
    else if StopTouched(p, b.bars[j]) then ClosePosition(p, p.stopLoss, j, StopLoss, b.cost)
    else ClosePosition(p, p.target, j, Target, b.cost)
  }

  /** The first bar at or after `j` on which the position ends. */
  function ExitFrom(b: Backtest, p: OpenPosition, j: nat): (t: Option<ClosedTrade>)
    ensures t.None? ==> forall i: nat :: j <= i < |b.bars| ==> !EndsAt(b, p, i)
    ensures t.Some? ==>
              exists x: nat :: (
                && j <= x < |b.bars| && EndsAt(b, p, x)
                && t.value == TradeEndingAt(b, p, x)
                && forall i: nat :: j <= i < x ==> !EndsAt(b, p, i))
    decreases |b.bars| - j
  {
    if j >= |b.bars| then None
    else if EndsAt(b, p, j) then Some(TradeEndingAt(b, p, j))
    else ExitFrom(b, p, j + 1)
  }

  /** The position that the signal at bar `i` opens on the next bar's open. */
  function OpenedBy(b: Backtest, i: nat): OpenPosition
    requires SignalAt(b, i).Some?
  {
    OpenAt(SignalAt(b, i).value, b.bars[i + 1].open, i + 1, b.qty, b.cost)
  }

  function TradeOf(b: Backtest, i: nat): Option<ClosedTrade> {
    if SignalAt(b, i).Some? then ExitFrom(b, OpenedBy(b, i), i + 1) else None
  }

  /** The trades of all signals from bar `i` on, each worked out on its own. */
  function TradesFrom(b: Backtest, i: nat): seq<ClosedTrade>
    decreases |b.bars| - i
  {
    if i >= |b.bars| then [] else ToSeq(TradeOf(b, i)) + TradesFrom(b, i + 1)
  }

  function RestOf(b: Backtest, position: Option<OpenPosition>, k: nat): seq<ClosedTrade> {
    match position
    case None => []
    case Some(p) => ToSeq(ExitFrom(b, p, k))
  }

  lemma ExitPhaseSettles(b: Backtest, st: EngineState, k: nat)
    requires k < |b.bars|
    requires st.position.Some? ==> !ReversedAt(b, st.position.value, k)
    ensures var next := ExitPhase(b, st, k);
            next.closed + RestOf(b, next.position, k + 1) == st.closed + RestOf(b, st.position, k)
  {
    hide ClosePosition, SignalAt;
  }

  lemma FillPhaseSettles(b: Backtest, st: EngineState, k: nat)
    requires 0 < k < |b.bars| && st.pending == PendingBefore(b, k)
    requires st.position.Some? ==> st.position.value.entryBar < k
    ensures var filled := FillPhase(b, st, k);
            && (filled.position.Some? ==> !ReversedAt(b, filled.position.value, k))
            && filled.closed + RestOf(b, filled.position, k) ==
               st.closed + RestOf(b, st.position, k) + ToSeq(TradeOf(b, k - 1))
  {
    hide ClosePosition, EntryFillPrice, FirstSignal;
    if SignalAt(b, k - 1).Some? && st.position.Some? {
      assert RestOf(b, st.position, k) == [TradeEndingAt(b, st.position.value, k)];
    }
  }

  /** One bar settles what the position on entry and the fresh fill owe. */
  lemma BarSettles(b: Backtest, k: nat)
    requires 0 < k < |b.bars|
    ensures var st, next := StateAfter(b, k), StateAfter(b, k + 1);
            next.closed + RestOf(b, next.position, k + 1) ==
            st.closed + RestOf(b, st.position, k) + ToSeq(TradeOf(b, k - 1))
  {
    var st, next := StateAfter(b, k), StateAfter(b, k + 1);
    var filled := FillPhase(b, st, k);
    var done := ExitPhase(b, filled, k);
    assert next.closed == done.closed && next.position == done.position;
    hide *;
    PendingIsLastSignal(b, k);
    FillPhaseSettles(b, st, k);
    ExitPhaseSettles(b, filled, k);
  }

  lemma NothingLeftAtEnd(b: Backtest, p: Option<OpenPosition>)
    requires b.bars != []
    ensures RestOf(b, p, |b.bars|) + TradesFrom(b, |b.bars| - 1) == []
  {
    hide OpenedBy;
    assert TradeOf(b, |b.bars| - 1) == None;
  }

  lemma TradesFromStep(b: Backtest, i: nat)
    requires i < |b.bars|
    ensures TradesFrom(b, i) == ToSeq(TradeOf(b, i)) + TradesFrom(b, i + 1)
  {
    hide TradeOf;
  }

  lemma {:induction false} RestIsTradeByTrade(b: Backtest, k: nat)
    requires 0 < k <= |b.bars|
    ensures StateAfter(b, |b.bars|).closed ==
            StateAfter(b, k).closed + RestOf(b, StateAfter(b, k).position, k) + TradesFrom(b, k - 1)
    decreases |b.bars| - k
  {
    hide *;
    if k == |b.bars| {
      NothingLeftAtEnd(b, StateAfter(b, k).position);
      assert StateAfter(b, k).closed + (RestOf(b, StateAfter(b, k).position, k) + TradesFrom(b, k - 1)) ==
             StateAfter(b, k).closed + RestOf(b, StateAfter(b, k).position, k) + TradesFrom(b, k - 1);
    } else {
      RestIsTradeByTrade(b, k + 1);
      BarSettles(b, k);
      TradesFromStep(b, k - 1);
    }
  }

  /** The bar walk closes exactly the trades that each signal gives on its own,
      in the order of their signals. */
  lemma TradeByTrade(b: Backtest)
    ensures StateAfter(b, |b.bars|).closed == TradesFrom(b, 0)
  {
    if b.bars != [] {
      assert StateAfter(b, 0) == INITIAL;
      RestIsTradeByTrade(b, 1);
    }
  }

  // ----- the ledger

  predicate ExitsOn(trades: seq<ClosedTrade>, i: nat) {
    forall t <- trades :: t.exitBar == i
  }

  /** A bar only appends to the books, and only trades that exit on that bar. */
  lemma BarAppends(b: Backtest, k: nat) returns (added: seq<ClosedTrade>)
    requires k < |b.bars|
    ensures StateAfter(b, k + 1).closed == StateAfter(b, k).closed + added
    ensures ExitsOn(added, k)
    ensures StateAfter(b, k + 1).realized == StateAfter(b, k).realized + SumPnl(added)
    ensures StateAfter(b, k + 1).curve ==
            StateAfter(b, k).curve + [EquityPoint(k, b.bars[k].timestamp, StateAfter(b, k + 1).realized)]
  {
    hide ExitFillPrice, EntryFillPrice, Commission, Gross, CheckExit;
    var st := StateAfter(b, k);
    var filled := FillPhase(b, st, k);
    var reverse := if filled.closed == st.closed then [] else [filled.closed[|st.closed|]];
    assert filled.closed == st.closed + reverse && ExitsOn(reverse, k);
    assert filled.realized == st.realized + SumPnl(reverse);
    hide FillPhase;
    var next := ExitPhase(b, filled, k);
    var exit := if next.closed == filled.closed then [] else [next.closed[|filled.closed|]];
    assert next.closed == filled.closed + exit && ExitsOn(exit, k);
    assert next.realized == filled.realized + SumPnl(exit);
    SumPnlConcat(reverse, exit);
    added := reverse + exit;
  }

  lemma {:induction false} SumPnlConcat(a: seq<ClosedTrade>, c: seq<ClosedTrade>)
    ensures SumPnl(a + c) == SumPnl(a) + SumPnl(c)
  {
    if c == [] {
      assert a + c == a;
    } else {
      assert (a + c)[..|a + c| - 1] == a + c[..|c| - 1];
      SumPnlConcat(a, c[..|c| - 1]);
    }
  }

  predicate ExitsWithin(trades: seq<ClosedTrade>, from: nat, to: nat) {
    forall t <- trades :: from <= t.exitBar < to
  }

  /** From bar `k` to bar `m` the books grow by trades that exit in between. */
  lemma {:induction false} BooksGrow(b: Backtest, k: nat, m: nat) returns (added: seq<ClosedTrade>)
    requires k <= m <= |b.bars|
    ensures StateAfter(b, m).closed == StateAfter(b, k).closed + added
    ensures ExitsWithin(added, k, m)
    ensures StateAfter(b, m).realized == StateAfter(b, k).realized + SumPnl(added)
    ensures StateAfter(b, k).curve <= StateAfter(b, m).curve && |StateAfter(b, m).curve| == |StateAfter(b, k).curve| + m - k
  {
    hide ExitFillPrice, EntryFillPrice, Commission, Gross;
    hide StateAfter;
    if k == m {
      added := [];
    } else {
      var before := BooksGrow(b, k, m - 1);
      var last := BarAppends(b, m - 1);
      SumPnlConcat(before, last);
      added := before + last;
    }
  }

  lemma ExitsBefore(b: Backtest, k: nat)
    requires k <= |b.bars|
    ensures ExitsWithin(StateAfter(b, k).closed, 0, k)
  {
    hide ExitFillPrice, EntryFillPrice, Commission, Gross;
    var early := BooksGrow(b, 0, k);
    assert StateAfter(b, 0).closed == [];
    hide StateAfter;
  }

  function PnlThrough(trades: seq<ClosedTrade>, i: int): real {
    if trades == [] then 0.0
    else
      var t := trades[|trades| - 1];
      PnlThrough(trades[..|trades| - 1], i) + if t.exitBar <= i then t.pnl else 0.0
  }

  lemma {:induction false} PnlThroughSplit(early: seq<ClosedTrade>, late: seq<ClosedTrade>, i: nat, n: nat)
    requires ExitsWithin(early, 0, i + 1) && ExitsWithin(late, i + 1, n)
    ensures PnlThrough(early + late, i) == SumPnl(early)
  {
    if late != [] {
      assert (early + late)[..|early + late| - 1] == early + late[..|late| - 1];
      PnlThroughSplit(early, late[..|late| - 1], i, n);
    } else if early != [] {
      assert early + late == early;
      assert early[..|early| - 1] + [] == early[..|early| - 1];
      PnlThroughSplit(early[..|early| - 1], [], i, n);
    }
  }

  /** The realized profit always is the sum over the closed trades. */
  lemma RealizedIsSum(b: Backtest, k: nat)
    requires k <= |b.bars|
    ensures StateAfter(b, k).realized == SumPnl(StateAfter(b, k).closed)
    ensures |StateAfter(b, k).curve| == k
  {
    assert StateAfter(b, 0) == INITIAL;
    hide StateAfter, SumPnl;
    var added := BooksGrow(b, 0, k);
    assert StateAfter(b, k).closed == added;
  }

  lemma PointStays(b: Backtest, i: nat)
    requires i < |b.bars|
    ensures i < |StateAfter(b, |b.bars|).curve|
    ensures StateAfter(b, |b.bars|).curve[i] ==
            EquityPoint(i, b.bars[i].timestamp, SumPnl(StateAfter(b, i + 1).closed))
  {
    hide StateAfter, SumPnl;
    RealizedIsSum(b, i);
    RealizedIsSum(b, i + 1);
    var on := BarAppends(b, i);
    var late := BooksGrow(b, i + 1, |b.bars|);
  }

  /** The equity point of bar `i` is the profit of the trades closed by then. */
  lemma LedgerBalances(b: Backtest, i: nat)
    requires i < |b.bars|
    ensures i < |StateAfter(b, |b.bars|).curve|
    ensures StateAfter(b, |b.bars|).curve[i] ==
            EquityPoint(i, b.bars[i].timestamp, PnlThrough(StateAfter(b, |b.bars|).closed, i))
  {
    hide *;
    PointStays(b, i);
    ExitsBefore(b, i + 1);
    var late := BooksGrow(b, i + 1, |b.bars|);
    PnlThroughSplit(StateAfter(b, i + 1).closed, late, i, |b.bars|);
  }

  /** The last equity point is the summary's total. */
  lemma LastPointIsTotal(b: Backtest)
    requires b.bars != []
    ensures var last := StateAfter(b, |b.bars|);
            && |last.curve| == |b.bars|
            && last.curve[|b.bars| - 1].equity == BuildSummary(last.closed).totalPnl
  {
    hide StateAfter, SumPnl;
    RealizedIsSum(b, |b.bars|);
    PointStays(b, |b.bars| - 1);
  }

  // ----- no lookahead

  /** The strategy reads only the bars up to and including the current one. */
  ghost predicate ReadsOnlyClosedBars(strategy: (seq<Bar>, nat) -> StrategyOutcome) {
    forall f1: seq<Bar>, f2: seq<Bar>, i: nat ::
      i < |f1| && i < |f2| && f1[..i + 1] == f2[..i + 1] ==> strategy(f1, i) == strategy(f2, i)
  }

  function Truncated(b: Backtest, n: nat): Backtest
    requires n <= |b.bars|
  {
    b.(bars := b.bars[..n])
  }

  lemma {:induction false} PrefixRunAgrees(b: Backtest, n: nat, k: nat)
    requires ReadsOnlyClosedBars(b.strategy) && k <= n <= |b.bars|
    ensures var short, full := StateAfter(Truncated(b, n), k), StateAfter(b, k);
            short == full.(pending := short.pending) && (k < n ==> short.pending == full.pending)
  {
    hide ExitFillPrice, EntryFillPrice, Commission, Gross;
    if k > 0 {
      var s, i := Truncated(b, n), k - 1;
      PrefixRunAgrees(b, n, i);
      assert s.bars[..i + 1] == b.bars[..i + 1];
      assert b.strategy(b.bars, i) == b.strategy(s.bars, i);
      var st := StateAfter(b, i);
      assert StateAfter(s, i) == st && s.bars[i] == b.bars[i];
      assert FillPhase(s, st, i) == FillPhase(b, st, i);
      assert ExitPhase(s, FillPhase(b, st, i), i) == ExitPhase(b, FillPhase(b, st, i), i);
      hide FillPhase, ExitPhase;
    }
  }

  /** Running on the first `n` bars gives the first `n` equity points and exactly
      the trades that the full run closes before bar `n`. */
  lemma NoLookahead(b: Backtest, n: nat) returns (later: seq<ClosedTrade>)
    requires ReadsOnlyClosedBars(b.strategy) && n <= |b.bars|
    ensures var short, full := StateAfter(Truncated(b, n), n), StateAfter(b, |b.bars|);
            && |full.curve| == |b.bars| && short.curve == full.curve[..n]
            && full.closed == short.closed + later
            && ExitsWithin(short.closed, 0, n)
            && ExitsWithin(later, n, |b.bars|)
  {
    hide ExitFillPrice, EntryFillPrice, Commission, Gross;
    PrefixRunAgrees(b, n, n);
    var early := BooksGrow(b, 0, n);
    assert StateAfter(b, n).closed == early;
    later := BooksGrow(b, n, |b.bars|);
  }

  // ----- order of the trades

  predicate NeighboursInOrder(trades: seq<ClosedTrade>, i: nat)
    requires 0 < i < |trades|
  {
    && trades[i - 1].exitBar <= trades[i].entryBar
    && (trades[i - 1].exitBar == trades[i].entryBar <==> trades[i - 1].reason == SignalReverse)
  }

  /** Neighbouring trades never overlap; they share a bar exactly when the
      earlier one was reversed out. */
  predicate InOrder(trades: seq<ClosedTrade>) {
    && (forall t <- trades :: 1 <= t.entryBar <= t.exitBar)
    && forall i: nat :: 0 < i < |trades| ==> NeighboursInOrder(trades, i)
  }

  predicate Follows(trades: seq<ClosedTrade>, entryBar: int) {
    trades != [] ==>
      var t := trades[|trades| - 1];
      t.exitBar <= entryBar && (t.exitBar == entryBar <==> t.reason == SignalReverse)
  }

  /** The books together with the open position, as the next trade will see them. */
  predicate Orderly(st: EngineState) {
    && InOrder(st.closed)
    && match st.position {
         case Some(p) => 1 <= p.entryBar && Follows(st.closed, p.entryBar)
         case None => st.closed == [] || st.closed[|st.closed| - 1].reason != SignalReverse
       }
  }

  lemma AppendInOrder(trades: seq<ClosedTrade>, t: ClosedTrade)
    requires InOrder(trades) && Follows(trades, t.entryBar) && 1 <= t.entryBar <= t.exitBar
    ensures InOrder(trades + [t])
  {
    AppendNeighbours(trades, t);
    AppendBounds(trades, t);
    hide NeighboursInOrder, Follows;
  }

  lemma AppendBounds(trades: seq<ClosedTrade>, t: ClosedTrade)
    requires InOrder(trades) && 1 <= t.entryBar <= t.exitBar
    ensures forall u <- trades + [t] :: 1 <= u.entryBar <= u.exitBar
  {
  }

  lemma AppendNeighbours(trades: seq<ClosedTrade>, t: ClosedTrade)
    requires InOrder(trades) && Follows(trades, t.entryBar)
    ensures forall i: nat :: 0 < i < |trades + [t]| ==> NeighboursInOrder(trades + [t], i)
  {
    var more := trades + [t];
    forall i: nat | 0 < i < |more|
      ensures NeighboursInOrder(more, i)
    {
      if i < |trades| {
        assert NeighboursInOrder(trades, i);
        assert more[i - 1] == trades[i - 1] && more[i] == trades[i];
      }
    }
  }

  lemma FillKeepsOrder(b: Backtest, st: EngineState, i: nat)
    requires i < |b.bars| && Orderly(st) && (st.pending.Some? ==> 1 <= i)
    requires ExitsWithin(st.closed, 0, i) && (st.position.Some? ==> st.position.value.entryBar < i)
    ensures Orderly(FillPhase(b, st, i))
    ensures var p := FillPhase(b, st, i).position; p.Some? ==> p.value.entryBar <= i
  {
    hide ExitFillPrice, EntryFillPrice, Commission, Gross;
    if st.pending.Some? && st.position.Some? {
      AppendInOrder(st.closed, ClosePosition(st.position.value, b.bars[i].open, i, SignalReverse, b.cost));
    }
  }

  lemma ExitKeepsOrder(b: Backtest, st: EngineState, i: nat)
    requires i < |b.bars| && Orderly(st)
    requires st.position.Some? ==> st.position.value.entryBar <= i
    ensures Orderly(ExitPhase(b, st, i))
  {
    hide ExitFillPrice, EntryFillPrice, Commission, Gross, CheckExit;
    if st.position.Some? {
      var (still, trade) := CheckExit(st.position.value, b.bars[i], i, b.cost);
      if trade.Some? {
        AppendInOrder(st.closed, trade.value);
      }
    }
  }

  lemma BarKeepsOrder(b: Backtest, i: nat)
    requires i < |b.bars| && Orderly(StateAfter(b, i))
    ensures Orderly(StateAfter(b, i + 1))
  {
    hide ExitFillPrice, EntryFillPrice, Commission, Gross;
    var st := StateAfter(b, i);
    PendingIsLastSignal(b, i);
    ExitsBefore(b, i);
    var done := ExitPhase(b, FillPhase(b, st, i), i);
    assert StateAfter(b, i + 1).closed == done.closed && StateAfter(b, i + 1).position == done.position;
    hide StateAfter, BarStep, SignalPhase, FillPhase, ExitPhase, InOrder, Follows, ExitsWithin;
    FillKeepsOrder(b, st, i);
    ExitKeepsOrder(b, FillPhase(b, st, i), i);
  }

  lemma OrderlyAtStart(b: Backtest)
    ensures Orderly(StateAfter(b, 0))
  {
    assert StateAfter(b, 0) == INITIAL;
  }

  /** Closed trades never overlap, on any run and at any bar of it. */
  lemma {:induction false} TradesInOrder(b: Backtest, k: nat)
    requires k <= |b.bars|
    ensures Orderly(StateAfter(b, k))
  {
    hide *;
    if k == 0 {
      OrderlyAtStart(b);
    } else {
      TradesInOrder(b, k - 1);
      BarKeepsOrder(b, k - 1);
    }
  }

  // ----- two runs that differ only in what they charge

  /** The frame quotes positive opens, and no signal asks for a negative quantity. */
  ghost predicate Tradable(b: Backtest) {
    && b.qty >= 1
    && (forall bar <- b.bars :: bar.open > 0.0)
    && forall i: nat :: SignalAt(b, i).Some? ==> TradableSignal(SignalAt(b, i).value)
  }

  predicate TradableSignal(s: Signal) { s.qty.Some? ==> s.qty.value >= 0 }

  /** Same trade, except that the second one earned no more. */
  predicate NoBetter(t1: ClosedTrade, t2: ClosedTrade) {
    && t1.symbol == t2.symbol && t1.side == t2.side && t1.qty == t2.qty
    && t1.entryBar == t2.entryBar && t1.exitBar == t2.exitBar && t1.reason == t2.reason
    && t2.pnl <= t1.pnl
  }

  predicate AllNoBetter(a1: seq<ClosedTrade>, a2: seq<ClosedTrade>) {
    |a1| == |a2| && forall i :: 0 <= i < |a1| ==> NoBetter(a1[i], a2[i])
  }

  predicate CurveNoBetter(c1: seq<EquityPoint>, c2: seq<EquityPoint>) {
    |c1| == |c2| && forall i :: 0 <= i < |c1| ==>
      c1[i].barIndex == c2[i].barIndex && c1[i].timestamp == c2[i].timestamp && c2[i].equity <= c1[i].equity
  }

  /** The same position, entered at the same open under two cost models. */
  predicate SamePosition(b: Backtest, p1: OpenPosition, p2: OpenPosition, c1: CostModel, c2: CostModel) {
    && p1 == p2.(entryPrice := p1.entryPrice)
    && p1.qty >= 0 && p1.stopLoss > 0.0 && p1.target > 0.0
    && 0 <= p1.entryBar < |b.bars| && b.bars[p1.entryBar].open > 0.0
    && p1.entryPrice == EntryFillPrice(c1, p1.side, b.bars[p1.entryBar].open)
    && p2.entryPrice == EntryFillPrice(c2, p1.side, b.bars[p1.entryBar].open)
  }

  predicate Tracks(b: Backtest, st1: EngineState, st2: EngineState, c1: CostModel, c2: CostModel) {
    && st1.pending == st2.pending
    && st1.position.Some? == st2.position.Some?
    && (st1.position.Some? ==> SamePosition(b, st1.position.value, st2.position.value, c1, c2))
    && AllNoBetter(st1.closed, st2.closed)
    && CurveNoBetter(st1.curve, st2.curve)
    && st2.realized <= st1.realized
  }

  lemma ClosesNoBetter(b: Backtest, p1: OpenPosition, p2: OpenPosition, c1: CostModel, c2: CostModel,
                       exitPrice: real, i: int, reason: ExitReason)
    requires c1.Valid() && c2.Valid() && AtMost(c1, c2)
    requires SamePosition(b, p1, p2, c1, c2) && exitPrice > 0.0
    ensures NoBetter(ClosePosition(p1, exitPrice, i, reason, c1), ClosePosition(p2, exitPrice, i, reason, c2))
  {
    var open := b.bars[p1.entryBar].open;
    assert ClosePosition(p1, exitPrice, i, reason, c1).pnl == RoundTripPnl(c1, p1.side, open, exitPrice, p1.qty);
    assert ClosePosition(p2, exitPrice, i, reason, c2).pnl == RoundTripPnl(c2, p1.side, open, exitPrice, p1.qty);
    hide RoundTripPnl, ExitFillPrice, EntryFillPrice, Commission, Gross;
    PnlFallsWithCost(c1, c2, p1.side, open, exitPrice, p1.qty);
  }

  lemma FillTracks(b: Backtest, st1: EngineState, st2: EngineState, i: nat, c2: CostModel)
    requires i < |b.bars| && b.bars[i].open > 0.0 && b.qty >= 1
    requires b.cost.Valid() && c2.Valid() && AtMost(b.cost, c2)
    requires Tracks(b, st1, st2, b.cost, c2)
    requires st1.pending.Some? ==> TradableSignal(st1.pending.value.signal)
    ensures Tracks(b, FillPhase(b, st1, i), FillPhase(b.(cost := c2), st2, i), b.cost, c2)
  {
    hide ClosePosition, EntryFillPrice, CurveNoBetter;
    if st1.position.Some? {
      ClosesNoBetter(b, st1.position.value, st2.position.value, b.cost, c2, b.bars[i].open, i, SignalReverse);
    }
  }

  lemma ExitTracks(b: Backtest, st1: EngineState, st2: EngineState, i: nat, c2: CostModel)
    requires i < |b.bars|
    requires b.cost.Valid() && c2.Valid() && AtMost(b.cost, c2)
    requires Tracks(b, st1, st2, b.cost, c2)
    ensures Tracks(b, ExitPhase(b, st1, i), ExitPhase(b.(cost := c2), st2, i), b.cost, c2)
  {
    hide ClosePosition, EntryFillPrice, CurveNoBetter;
    if st1.position.Some? {
      var p1, p2 := st1.position.value, st2.position.value;
      ClosesNoBetter(b, p1, p2, b.cost, c2, p1.stopLoss, i, StopLoss);
      ClosesNoBetter(b, p1, p2, b.cost, c2, p1.target, i, Target);
    }
  }

  /** Both runs see the same signal and book their own, ordered, equity. */
  lemma SignalTracks(b: Backtest, st1: EngineState, st2: EngineState, i: nat, c2: CostModel)
    requires i < |b.bars| && Tracks(b, st1, st2, b.cost, c2)
    ensures Tracks(b, SignalPhase(b, st1, i), SignalPhase(b.(cost := c2), st2, i), b.cost, c2)
  {
    hide SamePosition, AllNoBetter;
  }

  lemma TracksAtStart(b: Backtest, c2: CostModel)
    ensures Tracks(b, StateAfter(b, 0), StateAfter(b.(cost := c2), 0), b.cost, c2)
  {
  }

  lemma PendingTradable(b: Backtest, i: nat)
    requires Tradable(b) && i < |b.bars|
    ensures b.bars[i].open > 0.0 && b.qty >= 1
    ensures StateAfter(b, i).pending.Some? ==> TradableSignal(StateAfter(b, i).pending.value.signal)
  {
    PendingIsLastSignal(b, i);
    assert b.bars[i] in b.bars;
    hide StateAfter;
  }

  lemma {:induction false} RunsTrack(b: Backtest, c2: CostModel, k: nat)
    requires Tradable(b) && b.cost.Valid() && c2.Valid() && AtMost(b.cost, c2) && k <= |b.bars|
    ensures Tracks(b, StateAfter(b, k), StateAfter(b.(cost := c2), k), b.cost, c2)
  {
    hide *;
    if k == 0 {
      TracksAtStart(b, c2);
    } else {
      var b2, i := b.(cost := c2), k - 1;
      RunsTrack(b, c2, i);
      PendingTradable(b, i);
      var st1, st2 := StateAfter(b, i), StateAfter(b2, i);
      FillTracks(b, st1, st2, i, c2);
      var filled1, filled2 := FillPhase(b, st1, i), FillPhase(b2, st2, i);
      ExitTracks(b, filled1, filled2, i, c2);
      SignalTracks(b, ExitPhase(b, filled1, i), ExitPhase(b2, filled2, i), i, c2);
      NextState(b, i);
      NextState(b2, i);
    }
  }

  /** On the same bars and signals, a componentwise dearer cost model produces the
      same trades on the same bars, and never a better profit or equity point. */
  lemma DearerCostsNeverHelp(b: Backtest, c2: CostModel)
    requires Tradable(b) && b.cost.Valid() && c2.Valid() && AtMost(b.cost, c2)
    ensures AllNoBetter(StateAfter(b, |b.bars|).closed, StateAfter(b.(cost := c2), |b.bars|).closed)
    ensures CurveNoBetter(StateAfter(b, |b.bars|).curve, StateAfter(b.(cost := c2), |b.bars|).curve)
  {
    RunsTrack(b, c2, |b.bars|);
    hide StateAfter;
  }
}
