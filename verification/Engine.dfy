// The bar-walk backtester: next-bar-open fills, stop-before-target exits.

module Engine {
  import opened Wrappers
  import opened Signals
  import opened Costs

  datatype Bar = Bar(timestamp: int, open: real, high: real, low: real, close: real)

  /** One call of `on_bar`: the strategy may also raise. */
  datatype StrategyOutcome = Raised | Emitted(signals: seq<Signal>)

  datatype ExitReason = StopLoss | Target | SignalReverse

  datatype OpenPosition = OpenPosition(
    symbol: string, side: Side, entryPrice: real,
    stopLoss: real, target: real, qty: int, entryBar: int)

  datatype PendingEntry = PendingEntry(signal: Signal, signalBar: int)

  datatype ClosedTrade = ClosedTrade(
    symbol: string, side: Side, entryPrice: real, exitPrice: real, qty: int,
    entryBar: int, exitBar: int, pnl: real, reason: ExitReason, fees: real)

  datatype EquityPoint = EquityPoint(barIndex: int, timestamp: int, equity: real)

  datatype Summary = Summary(tradeCount: nat, winningTrades: nat, losingTrades: nat, totalPnl: real)

  datatype BacktestResult = BacktestResult(
    closedTrades: seq<ClosedTrade>, equityCurve: seq<EquityPoint>, summary: Summary)

  /** What one run is given. The strategy sees the whole frame and a bar index,
      exactly as the context object hands them over. */
  datatype Backtest = Backtest(
    bars: seq<Bar>, strategy: (seq<Bar>, nat) -> StrategyOutcome, qty: int, cost: CostModel)

  datatype EngineState = EngineState(
    position: Option<OpenPosition>, pending: Option<PendingEntry>,
    realized: real, closed: seq<ClosedTrade>, curve: seq<EquityPoint>)

  const INITIAL := EngineState(None, None, 0.0, [], [])

  // ----- the pure helpers of the engine

  function ClosePosition(p: OpenPosition, exitPrice: real, barIndex: int, reason: ExitReason, cost: CostModel): ClosedTrade {
    var exitFill := ExitFillPrice(cost, p.side, exitPrice);
    var fees := Commission(cost, p.entryPrice, exitFill, p.qty);
    ClosedTrade(p.symbol, p.side, p.entryPrice, exitFill, p.qty, p.entryBar, barIndex,
                Gross(p.side, p.entryPrice, exitFill, p.qty) - fees, reason, fees)
  }

  function OpenAt(s: Signal, openPrice: real, barIndex: int, defaultQty: int, cost: CostModel): OpenPosition {
    var side := if s.side == Buy then Long else Short;
    OpenPosition(s.symbol, side, EntryFillPrice(cost, side, openPrice), s.stopLoss, s.target,
                 if s.qty.Some? then s.qty.value else defaultQty, barIndex)
  }

  /** The pending signal becomes the position; whatever was open is reversed out. */
  function FillPending(pending: PendingEntry, position: Option<OpenPosition>, openPrice: real,
                       barIndex: int, defaultQty: int, cost: CostModel): (OpenPosition, Option<ClosedTrade>)
  {
    var reverse := match position
                   case None => None
                   case Some(p) => Some(ClosePosition(p, openPrice, barIndex, SignalReverse, cost));
    (OpenAt(pending.signal, openPrice, barIndex, defaultQty, cost), reverse)
  }

  predicate StopTouched(p: OpenPosition, bar: Bar) {
    if p.side == Long then bar.low <= p.stopLoss else bar.high >= p.stopLoss
  }

  predicate TargetTouched(p: OpenPosition, bar: Bar) {
    if p.side == Long then bar.high >= p.target else bar.low <= p.target
  }

  /** The position survives exactly the bars that touch neither level; otherwise
      its trade is booked on this bar, at the stop if that was touched at all. */
  function CheckExit(p: OpenPosition, bar: Bar, barIndex: int, cost: CostModel)
    : (r: (Option<OpenPosition>, Option<ClosedTrade>))
    ensures r.1.None? <==> !StopTouched(p, bar) && !TargetTouched(p, bar)
    ensures r.0 == if r.1.None? then Some(p) else None
    ensures r.1.Some? ==>
              var t := r.1.value;
              && t.reason == (if StopTouched(p, bar) then StopLoss else Target)
              && t.exitPrice == ExitFillPrice(cost, p.side, if StopTouched(p, bar) then p.stopLoss else p.target)
              && t.entryBar == p.entryBar && t.exitBar == barIndex && t.entryPrice == p.entryPrice && t.qty == p.qty
  {
    if p.side == Long then
      if bar.low <= p.stopLoss then (None, Some(ClosePosition(p, p.stopLoss, barIndex, StopLoss, cost)))
      else if bar.high >= p.target then (None, Some(ClosePosition(p, p.target, barIndex, Target, cost)))
      else (Some(p), None)
    else
      if bar.high >= p.stopLoss then (None, Some(ClosePosition(p, p.stopLoss, barIndex, StopLoss, cost)))
      else if bar.low <= p.target then (None, Some(ClosePosition(p, p.target, barIndex, Target, cost)))
      else (Some(p), None)
  }

  function FirstSignal(o: StrategyOutcome): Option<Signal> {
    if o.Emitted? && o.signals != [] then Some(o.signals[0]) else None
  }

  function SumPnl(trades: seq<ClosedTrade>): real {
    if trades == [] then 0.0 else SumPnl(trades[..|trades| - 1]) + trades[|trades| - 1].pnl
  }

  function CountTrades(trades: seq<ClosedTrade>, p: ClosedTrade -> bool): nat {
    if trades == [] then 0
    else CountTrades(trades[..|trades| - 1], p) + if p(trades[|trades| - 1]) then 1 else 0
  }

  function BuildSummary(closed: seq<ClosedTrade>): Summary {
    Summary(|closed|,
            CountTrades(closed, (t: ClosedTrade) => t.pnl > 0.0),
            CountTrades(closed, (t: ClosedTrade) => t.pnl < 0.0),
            SumPnl(closed))
  }

  // ----- one bar, in the three phases of the loop body

  function FillPhase(b: Backtest, st: EngineState, i: nat): EngineState
    requires i < |b.bars|
  {
    if st.pending.Some? && st.pending.value.signalBar < i then
      var (entered, reverse) := FillPending(st.pending.value, st.position, b.bars[i].open, i, b.qty, b.cost);
      Book(st, reverse).(position := Some(entered), pending := None)
    else st
  }

  function ExitPhase(b: Backtest, st: EngineState, i: nat): EngineState
    requires i < |b.bars|
  {
    if st.position.Some? then
      var (still, trade) := CheckExit(st.position.value, b.bars[i], i, b.cost);
      Book(st, trade).(position := still)
    else st
  }

  function SignalPhase(b: Backtest, st: EngineState, i: nat): EngineState
    requires i < |b.bars|
  {
    var signal := FirstSignal(b.strategy(b.bars, i));
    st.(pending := if signal.Some? && i < |b.bars| - 1 then Some(PendingEntry(signal.value, i)) else st.pending,
        curve := st.curve + [EquityPoint(i, b.bars[i].timestamp, st.realized)])
  }

  function Book(st: EngineState, trade: Option<ClosedTrade>): EngineState {
    match trade
    case None => st
    case Some(t) => st.(closed := st.closed + [t], realized := st.realized + t.pnl)
  }

  function BarStep(b: Backtest, st: EngineState, i: nat): EngineState
    requires i < |b.bars|
  {
    SignalPhase(b, ExitPhase(b, FillPhase(b, st, i), i), i)
  }

  function StateAfter(b: Backtest, k: nat): EngineState
    requires k <= |b.bars|
  {
    if k == 0 then INITIAL else BarStep(b, StateAfter(b, k - 1), k - 1)
  }

  /** The three phases of the next bar. */
  lemma NextState(b: Backtest, k: nat)
    requires k < |b.bars|
    ensures StateAfter(b, k + 1) == SignalPhase(b, ExitPhase(b, FillPhase(b, StateAfter(b, k), k), k), k)
  {
  }

  /** The run itself: the loop of the engine, updating its locals bar by bar. */
  method Run(b: Backtest) returns (result: BacktestResult)
    ensures result == BacktestResult(
                        StateAfter(b, |b.bars|).closed,
                        StateAfter(b, |b.bars|).curve,
                        BuildSummary(StateAfter(b, |b.bars|).closed))
  {
    assert StateAfter(b, 0) == INITIAL;
    hide FillPending, CheckExit, BuildSummary, StateAfter, BarStep;
    var closed: seq<ClosedTrade> := [];
    var equityCurve: seq<EquityPoint> := [];
    var realizedPnl := 0.0;
    var position: Option<OpenPosition> := None;
    var pending: Option<PendingEntry> := None;
    for i := 0 to |b.bars|
      invariant EngineState(position, pending, realizedPnl, closed, equityCurve) == StateAfter(b, i)
    {
      var row := b.bars[i];
      ghost var st := EngineState(position, pending, realizedPnl, closed, equityCurve);
      ghost var filled := FillPhase(b, st, i);
      ghost var exited := ExitPhase(b, filled, i);
      NextState(b, i);
      if pending.Some? && pending.value.signalBar < i {
        var (entered, reverse) := FillPending(pending.value, position, row.open, i, b.qty, b.cost);
        position, pending := Some(entered), None;
        if reverse.Some? {
          closed := closed + [reverse.value];
          realizedPnl := realizedPnl + reverse.value.pnl;
        }
      }
      assert EngineState(position, pending, realizedPnl, closed, equityCurve) == filled;
      if position.Some? {
        var (still, trade) := CheckExit(position.value, row, i, b.cost);
        position := still;
        if trade.Some? {
          closed := closed + [trade.value];
          realizedPnl := realizedPnl + trade.value.pnl;
        }
      }
      assert EngineState(position, pending, realizedPnl, closed, equityCurve) == exited;
      var outcome := b.strategy(b.bars, i);
      var signals := if outcome.Raised? then [] else outcome.signals;
      if signals != [] && i < |b.bars| - 1 {
        pending := Some(PendingEntry(signals[0], i));
      }
      equityCurve := equityCurve + [EquityPoint(i, row.timestamp, realizedPnl)];
    }
    result := BacktestResult(closed, equityCurve, BuildSummary(closed));
  }
}
