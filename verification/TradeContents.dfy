// What a closed trade carries, spelt out on its own fields: the signal it came
// from, both fills, the fees, and the profit after fees.

module TradeContents {
  import opened Wrappers
  import opened RealMath
  import opened Costs
  import opened Signals
  import opened Engine
  import opened EngineTheorems

  /** The strategy's first signal of a bar is the only one acted on. */
  predicate Signalled(b: Backtest, bar: int, s: Signal) {
    && 0 <= bar < |b.bars| - 1
    && b.strategy(b.bars, bar).Emitted? && |b.strategy(b.bars, bar).signals| > 0
    && b.strategy(b.bars, bar).signals[0] == s
  }

  /** A fill that slippage has moved against a buyer, or against a seller. */
  predicate BoughtAt(b: Backtest, quoted: real, fill: real) {
    fill == quoted * (1.0 + b.cost.slippagePct / 100.0)
  }

  predicate SoldAt(b: Backtest, quoted: real, fill: real) {
    fill == quoted * (1.0 - b.cost.slippagePct / 100.0)
  }

  /** Entered on `bar` at its open, by the signal of the bar before: its symbol and
      side, its own quantity if it asks for one and else the engine's. */
  predicate EnteredBy(b: Backtest, s: Signal, bar: int, symbol: string, side: Side, qty: int, fill: real) {
    && Signalled(b, bar - 1, s)
    && symbol == s.symbol && (side == Long <==> s.side == Buy)
    && (s.qty.Some? ==> qty == s.qty.value) && (s.qty.None? ==> qty == b.qty)
    && (if s.side == Buy then BoughtAt(b, b.bars[bar].open, fill) else SoldAt(b, b.bars[bar].open, fill))
  }

  /** The level a trade is closed at: the signal's own, or the open that reverses it. */
  function ExitQuote(b: Backtest, s: Signal, t: ClosedTrade): real
    requires 0 <= t.exitBar < |b.bars|
  {
    match t.reason
    case StopLoss => s.stopLoss
    case Target => s.target
    case SignalReverse => b.bars[t.exitBar].open
  }

  /** Fees on both fills, and the price difference times the quantity less fees. */
  predicate ProfitBooked(b: Backtest, t: ClosedTrade) {
    && t.fees == b.cost.commissionPct / 100.0
                 * ((if t.entryPrice < 0.0 then -t.entryPrice else t.entryPrice) + (if t.exitPrice < 0.0 then -t.exitPrice else t.exitPrice))
                 * (t.qty as real)
    && t.pnl == (if t.side == Long then t.exitPrice - t.entryPrice else t.entryPrice - t.exitPrice) * (t.qty as real) - t.fees
  }

  ghost predicate Accounted(b: Backtest, t: ClosedTrade) {
    && 1 <= t.entryBar <= t.exitBar < |b.bars| && ProfitBooked(b, t)
    && exists s: Signal ::
         && EnteredBy(b, s, t.entryBar, t.symbol, t.side, t.qty, t.entryPrice)
         && (if s.side == Buy then SoldAt(b, ExitQuote(b, s, t), t.exitPrice) else BoughtAt(b, ExitQuote(b, s, t), t.exitPrice))
  }

  ghost predicate PositionAccounted(b: Backtest, p: OpenPosition, s: Signal) {
    EnteredBy(b, s, p.entryBar, p.symbol, p.side, p.qty, p.entryPrice) && p.stopLoss == s.stopLoss && p.target == s.target
  }

  ghost predicate AllAccounted(b: Backtest, st: EngineState) {
    && (forall i :: 0 <= i < |st.closed| ==> Accounted(b, st.closed[i]))
    && (st.position.Some? ==> exists s: Signal :: PositionAccounted(b, st.position.value, s))
  }

  lemma FillIs(b: Backtest, side: Side, quoted: real)
    ensures side == Long ==> BoughtAt(b, quoted, EntryFillPrice(b.cost, side, quoted)) && SoldAt(b, quoted, ExitFillPrice(b.cost, side, quoted))
    ensures side == Short ==> SoldAt(b, quoted, EntryFillPrice(b.cost, side, quoted)) && BoughtAt(b, quoted, ExitFillPrice(b.cost, side, quoted))
  {
    FillsByLeg(b.cost, quoted);
  }

  lemma ClosedIsBooked(b: Backtest, p: OpenPosition, quoted: real, i: int, reason: ExitReason)
    ensures var t := ClosePosition(p, quoted, i, reason, b.cost);
            && ProfitBooked(b, t)
            && t.symbol == p.symbol && t.side == p.side && t.qty == p.qty && t.reason == reason
            && t.entryPrice == p.entryPrice && t.exitPrice == ExitFillPrice(b.cost, p.side, quoted)
            && t.entryBar == p.entryBar && t.exitBar == i
  {
    hide ExitFillPrice;
  }

  lemma ClosedIsAccounted(b: Backtest, p: OpenPosition, s: Signal, quoted: real, i: nat, reason: ExitReason)
    requires PositionAccounted(b, p, s) && p.entryBar <= i < |b.bars|
    requires quoted == match reason { case StopLoss => s.stopLoss case Target => s.target case SignalReverse => b.bars[i].open }
    ensures Accounted(b, ClosePosition(p, quoted, i, reason, b.cost))
  {
    ClosedIsBooked(b, p, quoted, i, reason);
    FillIs(b, p.side, quoted);
    hide ClosePosition, ProfitBooked, SoldAt, BoughtAt, ExitFillPrice;
    var t := ClosePosition(p, quoted, i, reason, b.cost);
    assert EnteredBy(b, s, t.entryBar, t.symbol, t.side, t.qty, t.entryPrice);
  }

  lemma OpenedIsAccounted(b: Backtest, s: Signal, i: nat)
    requires 0 < i < |b.bars| && Signalled(b, i - 1, s)
    ensures PositionAccounted(b, OpenAt(s, b.bars[i].open, i, b.qty, b.cost), s)
  {
    FillIs(b, if s.side == Buy then Long else Short, b.bars[i].open);
    hide SoldAt, BoughtAt, EntryFillPrice;
  }

  lemma BookAccounted(b: Backtest, st: EngineState, trade: Option<ClosedTrade>)
    requires forall i :: 0 <= i < |st.closed| ==> Accounted(b, st.closed[i])
    requires trade.Some? ==> Accounted(b, trade.value)
    ensures forall i :: 0 <= i < |Book(st, trade).closed| ==> Accounted(b, Book(st, trade).closed[i])
  {
    hide Accounted;
  }

  lemma FillAccounted(b: Backtest, st: EngineState, i: nat)
    requires i < |b.bars| && AllAccounted(b, st) && (st.position.Some? ==> st.position.value.entryBar <= i)
    requires st.pending.Some? ==> 0 < i && Signalled(b, i - 1, st.pending.value.signal)
    ensures AllAccounted(b, FillPhase(b, st, i))
  {
    hide ClosePosition, Accounted, PositionAccounted, OpenAt, Signalled;
    if st.pending.Some? {
      OpenedIsAccounted(b, st.pending.value.signal, i);
      if st.position.Some? {
        var s: Signal :| PositionAccounted(b, st.position.value, s);
        ClosedIsAccounted(b, st.position.value, s, b.bars[i].open, i, SignalReverse);
        BookAccounted(b, st, Some(ClosePosition(st.position.value, b.bars[i].open, i, SignalReverse, b.cost)));
      }
    }
  }

  lemma ExitAccounted(b: Backtest, st: EngineState, i: nat)
    requires i < |b.bars| && AllAccounted(b, st) && (st.position.Some? ==> st.position.value.entryBar <= i)
    ensures AllAccounted(b, ExitPhase(b, st, i))
  {
    if st.position.Some? {
      var p := st.position.value;
      var s: Signal :| PositionAccounted(b, p, s);
      assert p.stopLoss == s.stopLoss && p.target == s.target;
      ClosedIsAccounted(b, p, s, p.stopLoss, i, StopLoss);
      ClosedIsAccounted(b, p, s, p.target, i, Target);
      hide ClosePosition, Accounted, PositionAccounted;
    }
    hide Accounted, PositionAccounted;
  }

  lemma PendingIsSignalled(b: Backtest, k: nat)
    requires k < |b.bars|
    ensures StateAfter(b, k).pending.Some? ==> 0 < k && Signalled(b, k - 1, StateAfter(b, k).pending.value.signal)
    ensures StateAfter(b, k).position.Some? ==> StateAfter(b, k).position.value.entryBar <= k
  {
    PendingIsLastSignal(b, k);
    hide StateAfter;
  }

  lemma FilledNoLater(b: Backtest, k: nat)
    requires k < |b.bars|
    ensures var filled := FillPhase(b, StateAfter(b, k), k);
            filled.position.Some? ==> filled.position.value.entryBar <= k
  {
    PendingIsSignalled(b, k);
    hide StateAfter;
  }

  /** At every bar of every run, each closed trade is the account of its signal. */
  lemma {:induction false} EveryTradeAccounted(b: Backtest, k: nat)
    requires k <= |b.bars|
    ensures AllAccounted(b, StateAfter(b, k))
  {
    if k == 0 {
      assert StateAfter(b, 0) == INITIAL;
    } else {
      EveryTradeAccounted(b, k - 1);
      PendingIsSignalled(b, k - 1);
      FilledNoLater(b, k - 1);
      hide StateAfter, FillPhase, ExitPhase, Accounted, PositionAccounted;
      var st := StateAfter(b, k - 1);
      FillAccounted(b, st, k - 1);
      ExitAccounted(b, FillPhase(b, st, k - 1), k - 1);
      NextState(b, k - 1);
    }
  }

  // ----- the summary

  function Count(trades: seq<ClosedTrade>, winning: bool): nat {
    if trades == [] then 0
    else
      Count(trades[1..], winning) + if (winning && trades[0].pnl > 0.0) || (!winning && trades[0].pnl < 0.0) then 1 else 0
  }

  lemma {:induction false} CountLast(trades: seq<ClosedTrade>, winning: bool)
    requires trades != []
    ensures var t := trades[|trades| - 1];
            Count(trades, winning) ==
            Count(trades[..|trades| - 1], winning) + if (winning && t.pnl > 0.0) || (!winning && t.pnl < 0.0) then 1 else 0
  {
    if |trades| > 1 {
      CountLast(trades[1..], winning);
      assert trades[..|trades| - 1][1..] == trades[1..][..|trades| - 2];
    }
  }

  lemma {:induction false} CountsAre(trades: seq<ClosedTrade>)
    ensures CountTrades(trades, (t: ClosedTrade) => t.pnl > 0.0) == Count(trades, true)
    ensures CountTrades(trades, (t: ClosedTrade) => t.pnl < 0.0) == Count(trades, false)
  {
    if trades != [] {
      CountsAre(trades[..|trades| - 1]);
      CountLast(trades, true);
      CountLast(trades, false);
    }
  }

  /** The summary counts every closed trade, the winning and the losing ones, and
      adds up all their profits; breaking even is neither. */
  lemma SummaryAddsUp(closed: seq<ClosedTrade>)
    ensures var s := BuildSummary(closed);
            && s.tradeCount == |closed| && s.winningTrades == Count(closed, true) && s.losingTrades == Count(closed, false)
            && s.totalPnl == Sum(seq(|closed|, i requires 0 <= i < |closed| => closed[i].pnl))
  {
    CountsAre(closed);
    PnlIsSum(closed);
  }

  lemma {:induction false} PnlIsSum(closed: seq<ClosedTrade>)
    ensures SumPnl(closed) == Sum(seq(|closed|, i requires 0 <= i < |closed| => closed[i].pnl))
  {
    if closed != [] {
      var init := closed[..|closed| - 1];
      PnlIsSum(init);
      var all := seq(|closed|, i requires 0 <= i < |closed| => closed[i].pnl);
      assert all[..|all| - 1] == seq(|init|, i requires 0 <= i < |init| => init[i].pnl);
    }
  }
}
