// What every run of the trading loop keeps, and when it may place an order.

module PaperLoopTheorems {
  import opened Wrappers
  import opened RealMath
  import opened Signals
  import opened Risk
  import opened Sizing
  import opened Paper
  import opened PaperLoop

  // ----- submitted quantities

  /** A quantity that respects the lot, the override and every risk cap. */
  ghost predicate SafeQty(cfg: LoopConfig, s: Signal, accountEquity: real, qty: int)
    requires cfg.Valid()
  {
    && qty >= 1 && qty % LotSize(cfg.instrument) == 0
    && (cfg.overrideQty.Some? ==> qty <= cfg.overrideQty.value)
    && PerShareRisk(s) * (qty as real) <= MaxRisk(cfg.risk, accountEquity) * 1.01
    && (cfg.instrument.Some? && cfg.instrument.value.kind == OPTION ==>
          s.entry * (qty as real) * (cfg.instrument.value.lotSize as real)
          <= accountEquity * (cfg.risk.maxPremiumPerTradePct / 100.0))
  }

  /** How far the verdict cuts the size: not at all where there is none. */
  predicate VerdictCuts(verdict: Option<Verdict>, cut: real) {
    match verdict
    case None => cut == 1.0
    case Some(Veto) => false
    case Some(Sized(multiplier)) => CutTo(multiplier, cut)
  }

  /** The one quantity the budget, the analyst, the lot and the override come to. */
  ghost predicate SizedFor(cfg: LoopConfig, s: Signal, accountEquity: real, verdict: Option<Verdict>, qty: int) {
    exists base, cut, lot, size ::
      && lot >= 1 && IsBase(cfg.risk, s, accountEquity, base) && VerdictCuts(verdict, cut) && IsLot(cfg.instrument, lot)
      && LotsOfShare(size, lot, base, cut) && CappedTo(cfg.overrideQty, size, lot, qty)
  }

  lemma ApprovedIsSized(cfg: LoopConfig, s: Signal, accountEquity: real, verdict: Option<Verdict>, size: int, qty: int)
    requires cfg.Valid() && accountEquity > 0.0 && verdict != Some(Veto)
    requires size == Size(cfg.risk, s, accountEquity, cfg.instrument, Multiplier(verdict))
    requires qty == ApplyQtyCap(cfg.overrideQty, cfg.instrument, size)
    ensures SizedFor(cfg, s, accountEquity, verdict, qty)
  {
    var base, cut, lot := SizeExactly(cfg.risk, s, accountEquity, cfg.instrument, Multiplier(verdict));
    SizeBounds(cfg.risk, s, accountEquity, cfg.instrument, Multiplier(verdict));
    CapExactly(cfg.overrideQty, cfg.instrument, size);
    assert VerdictCuts(verdict, cut);
    hide Size, ApplyQtyCap, LotSize, IsBase, VerdictCuts, IsLot, LotsOfShare, CappedTo;
  }

  lemma SubmittedIsSafe(cfg: LoopConfig, risk: RiskState, s: Signal, bar: BarInput)
    requires cfg.Valid() && risk.accountEquity > 0.0 && Submitted(cfg, risk, s, bar).Submit?
    ensures SafeQty(cfg, s, risk.accountEquity, Submitted(cfg, risk, s, bar).qty)
    ensures SizedFor(cfg, s, risk.accountEquity, bar.verdict, Submitted(cfg, risk, s, bar).qty)
    ensures PreCheck(cfg.risk, risk, bar.checks) == Approved && bar.verdict != Some(Veto)
  {
    hide PreCheck, Size, PostCheck, ApplyQtyCap, MaxRisk, PerShareRisk, SizedFor;
    ApprovedIsSized(cfg, s, risk.accountEquity, bar.verdict,
                    Size(cfg.risk, s, risk.accountEquity, cfg.instrument, Multiplier(bar.verdict)), Submitted(cfg, risk, s, bar).qty);
    SubmittedOrderSafe(cfg.risk, s, risk.accountEquity, cfg.instrument, Multiplier(bar.verdict), cfg.overrideQty);
  }

  // ----- the ledger over a whole run

  ghost predicate Sound(cfg: LoopConfig, initialEquity: real, st: LoopState) {
    var open := |st.book.positions|;
    && OnePerSymbol(st.book.positions)
    && st.stats.ordersPlaced - st.stats.barExits == open
    && st.risk.openPositions == open <= cfg.risk.maxOpenPositions
    && |st.book.orders| == st.stats.ordersPlaced
    && st.risk.dailyRealizedPnl == st.book.realizedPnl == st.book.equity - initialEquity
    && st.risk.accountEquity == initialEquity
    && st.stats.riskRejected + st.stats.analystVetoed + st.stats.ordersPlaced <= st.stats.signalsSeen
    && !st.risk.isExpiryDay
  }

  lemma SweptCounts(st: LoopState, bar: BarInput)
    requires OnePerSymbol(st.book.positions) && st.risk.openPositions == |st.book.positions|
    ensures var swept := Swept(st, bar, |st.book.positions|);
            && swept.book.positions == Survivors(st.book.positions, bar)
            && |swept.book.positions| == |st.book.positions| - ExitCount(st.book.positions, bar)
            && swept.risk.openPositions == |swept.book.positions|
            && swept.stats == st.stats.(barExits := st.stats.barExits + ExitCount(st.book.positions, bar))
  {
    SweepEnds(st, bar);
    KeptOrExited(st.book.positions, bar);
    assert st.book.positions[..|st.book.positions|] == st.book.positions;
    hide Survivors, ExitCount, OnePerSymbol;
  }

  lemma ExitsKeepSound(cfg: LoopConfig, initialEquity: real, st: LoopState, bar: BarInput)
    requires Sound(cfg, initialEquity, st)
    ensures Sound(cfg, initialEquity, AfterExits(cfg, st, bar))
    ensures AfterExits(cfg, st, bar).book.positions == Survivors(st.book.positions, bar)
    ensures AfterExits(cfg, st, bar).book.orders == st.book.orders
  {
    SweptCounts(st, bar);
    SweepEnds(st, bar);
    hide Survivors, ExitCount, ExitPnl, OnePerSymbol;
  }

  lemma SignalKeepsSound(cfg: LoopConfig, initialEquity: real, st: LoopState, s: Signal, bar: BarInput)
    requires cfg.Valid() && initialEquity > 0.0 && Sound(cfg, initialEquity, st)
    ensures Sound(cfg, initialEquity, Processed(cfg, Seen(st), s, bar))
  {
    hide OnePerSymbol, Submitted, SafeQty, SizedFor;
    ProcessedBook(cfg, Seen(st), s, bar);
    if Submitted(cfg, Seen(st).risk, s, bar).Submit? {
      SubmittedIsSafe(cfg, Seen(st).risk, s, bar);
      ApprovedMeans(cfg, Seen(st).risk, bar);
    }
    hide Holds;
  }

  lemma ApprovedMeans(cfg: LoopConfig, risk: RiskState, bar: BarInput)
    requires PreCheck(cfg.risk, risk, bar.checks) == Approved
    ensures risk.openPositions < cfg.risk.maxOpenPositions
    ensures risk.dailyRealizedPnl + risk.dailyUnrealizedPnl > -DailyCap(cfg.risk, risk.accountEquity)
    ensures !bar.checks.killSwitch && !bar.checks.inNoTradeWindow
  {
  }

  lemma TickKeepsSound(cfg: LoopConfig, initialEquity: real, st: LoopState, bar: BarInput)
    requires cfg.Valid() && initialEquity > 0.0 && Sound(cfg, initialEquity, st)
    ensures Sound(cfg, initialEquity, Tick(cfg, st, bar))
  {
    hide AfterExits, Processed, OnePerSymbol;
    if bar.allowed {
      ExitsKeepSound(cfg, initialEquity, st, bar);
      if bar.signals != [] {
        SignalKeepsSound(cfg, initialEquity, AfterExits(cfg, st, bar), bar.signals[0], bar);
      }
    }
  }

  /** From an empty broker, after every bar: orders placed minus exits is the
      number of open positions, the risk state agrees and stays within its limit;
      realized profit, its running total and the change of equity are one number;
      every signal is counted at most once. */
  lemma {:induction false} AlwaysSound(cfg: LoopConfig, initialEquity: real, bars: seq<BarInput>, n: nat)
    requires cfg.Valid() && initialEquity > 0.0 && n <= |bars|
    ensures Sound(cfg, initialEquity, StateAfter(cfg, Book([], initialEquity, 0.0, []), bars, n))
  {
    if n > 0 {
      AlwaysSound(cfg, initialEquity, bars, n - 1);
      TickKeepsSound(cfg, initialEquity, StateAfter(cfg, Book([], initialEquity, 0.0, []), bars, n - 1), bars[n - 1]);
      hide Tick, Sound;
    }
  }

  // ----- the daily loss cap

  /** Every open position valued at one price. */
  function ValuedAt(positions: seq<Position>, price: real): real {
    if positions == [] then 0.0
    else ValuedAt(positions[..|positions| - 1], price) + PositionPnl(positions[|positions| - 1], price)
  }

  ghost predicate AllQuoted(positions: seq<Position>, last: Prices, close: real) {
    forall p :: p in positions ==> p.symbol in last && last[p.symbol] == close
  }

  lemma {:induction false} SweepQuotesAll(last: Prices, ps: seq<Position>, close: real)
    ensures AllQuoted(ps, Quoted(last, ps, close), close)
  {
    if ps != [] {
      SweepQuotesAll(last, ps[..|ps| - 1], close);
    }
  }

  lemma {:induction false} QuotedIsValued(positions: seq<Position>, last: Prices, close: real)
    requires AllQuoted(positions, last, close)
    ensures Unrealized(positions, last) == ValuedAt(positions, close)
  {
    if positions != [] {
      var p := positions[|positions| - 1];
      assert p in positions;
      QuotedIsValued(positions[..|positions| - 1], last, close);
      hide PositionPnl;
    }
  }

  /** Every position that survives the sweep is marked at this bar's close. */
  lemma MarkedAtClose(cfg: LoopConfig, st: LoopState, bar: BarInput)
    requires OnePerSymbol(st.book.positions)
    ensures AfterExits(cfg, st, bar).risk.dailyUnrealizedPnl == ValuedAt(Survivors(st.book.positions, bar), bar.close)
  {
    var ps := st.book.positions;
    SweepEnds(st, bar);
    SweepQuotesAll(st.lastPrices, ps, bar.close);
    SurvivorsAreSome(ps, bar);
    assert ps[..|ps|] == ps;
    hide Survivors, OnePerSymbol, Quoted, Unrealized, ValuedAt;
    QuotedIsValued(Survivors(ps, bar), AfterExits(cfg, st, bar).lastPrices, bar.close);
  }

  lemma {:induction false} SurvivorsAreSome(ps: seq<Position>, bar: BarInput)
    ensures forall p :: p in Survivors(ps, bar) ==> p in ps
  {
    if ps != [] {
      SurvivorsAreSome(ps[..|ps| - 1], bar);
      hide TakenOut;
    }
  }

  /** What must hold on a bar that placed an order. */
  ghost predicate OrderAllowed(cfg: LoopConfig, initialEquity: real, before: LoopState, bar: BarInput, order: OrderResult)
    requires cfg.Valid()
  {
    var kept := Survivors(before.book.positions, bar);
    var realized := before.book.realizedPnl + ExitPnl(before.book.positions, bar);
    && bar.allowed && bar.signals != [] && !Holds(kept, bar.signals[0].symbol)
    && !bar.checks.killSwitch && !bar.checks.inNoTradeWindow && bar.verdict != Some(Veto)
    && |kept| < cfg.risk.maxOpenPositions
    && realized + ValuedAt(kept, bar.close) > -DailyCap(cfg.risk, initialEquity)
    && order == Fill(bar.signals[0], order.qty, cfg.slippageBps)
    && SafeQty(cfg, bar.signals[0], initialEquity, order.qty)
    && SizedFor(cfg, bar.signals[0], initialEquity, bar.verdict, order.qty)
  }

  lemma SignalOrders(cfg: LoopConfig, st: LoopState, s: Signal, bar: BarInput)
    requires cfg.Valid() && st.risk.accountEquity > 0.0
    ensures var after := Processed(cfg, st, s, bar).book.orders;
            || after == st.book.orders
            || (exists qty :: after == st.book.orders + [Fill(s, qty, cfg.slippageBps)]
                  && SafeQty(cfg, s, st.risk.accountEquity, qty)
                  && SizedFor(cfg, s, st.risk.accountEquity, bar.verdict, qty)
                  && PreCheck(cfg.risk, st.risk, bar.checks) == Approved && bar.verdict != Some(Veto)
                  && !Holds(st.book.positions, s.symbol))
  {
    hide PreCheck, Submitted, SafeQty, SizedFor, Holds, Fill;
    var submission := Submitted(cfg, st.risk, s, bar);
    if submission.Submit? {
      SubmittedIsSafe(cfg, st.risk, s, bar);
      assert Fills(st.book, s, submission.qty) ==>
               Processed(cfg, st, s, bar).book.orders == st.book.orders + [Fill(s, submission.qty, cfg.slippageBps)];
    }
  }

  lemma ExitsBooked(cfg: LoopConfig, st: LoopState, bar: BarInput)
    ensures AfterExits(cfg, st, bar).risk.dailyRealizedPnl
            == st.risk.dailyRealizedPnl + ExitPnl(st.book.positions, bar)
  {
    assert st.book.positions[..|st.book.positions|] == st.book.positions;
    hide ExitPnl, Survivors, Quoted, Unrealized, ExitCount;
  }

  /** A bar appends at most one order, and then only with the account above its
      daily cap at that bar's own close, below its position limit, for a symbol
      not held, and in a safe quantity. */
  lemma TickOrders(cfg: LoopConfig, initialEquity: real, st: LoopState, bar: BarInput)
    requires cfg.Valid() && initialEquity > 0.0 && Sound(cfg, initialEquity, st)
    ensures var after := Tick(cfg, st, bar).book.orders;
            || after == st.book.orders
            || (exists order :: after == st.book.orders + [order] && OrderAllowed(cfg, initialEquity, st, bar, order))
  {
    if bar.allowed {
      var exited := AfterExits(cfg, st, bar);
      ExitsKeepSound(cfg, initialEquity, st, bar);
      MarkedAtClose(cfg, st, bar);
      ExitsBooked(cfg, st, bar);
      if bar.signals != [] {
        var s, seen := bar.signals[0], Seen(exited);
        SignalOrders(cfg, seen, s, bar);
        hide AfterExits, Processed, PreCheck, DailyCap, SafeQty, SizedFor, Survivors, Holds, OnePerSymbol, ValuedAt, ExitPnl;
        if Tick(cfg, st, bar).book.orders != st.book.orders {
          var qty :| Processed(cfg, seen, s, bar).book.orders == seen.book.orders + [Fill(s, qty, cfg.slippageBps)]
                     && SafeQty(cfg, s, seen.risk.accountEquity, qty)
                     && SizedFor(cfg, s, seen.risk.accountEquity, bar.verdict, qty)
                     && PreCheck(cfg.risk, seen.risk, bar.checks) == Approved && bar.verdict != Some(Veto)
                     && !Holds(seen.book.positions, s.symbol);
          ApprovedMeans(cfg, seen.risk, bar);
          assert OrderAllowed(cfg, initialEquity, st, bar, Fill(s, qty, cfg.slippageBps));
        }
      }
    }
  }

  /** The same at every bar of every run from an empty broker. */
  lemma OrdersOnlyAboveCap(cfg: LoopConfig, initialEquity: real, bars: seq<BarInput>, n: nat)
    requires cfg.Valid() && initialEquity > 0.0 && n < |bars|
    ensures var start := Book([], initialEquity, 0.0, []);
            var before, after := StateAfter(cfg, start, bars, n), StateAfter(cfg, start, bars, n + 1);
            || after.book.orders == before.book.orders
            || (exists order :: after.book.orders == before.book.orders + [order]
                                && OrderAllowed(cfg, initialEquity, before, bars[n], order))
  {
    hide Tick, Sound, OrderAllowed;
    AlwaysSound(cfg, initialEquity, bars, n);
    TickOrders(cfg, initialEquity, StateAfter(cfg, Book([], initialEquity, 0.0, []), bars, n), bars[n]);
  }

  /** The loop's own risk state never says it is an expiry day, so whatever the
      clock says the expiry rule rejects nothing here. */
  lemma ExpiryRuleNeverApplies(cfg: LoopConfig, initialEquity: real, bars: seq<BarInput>, n: nat)
    requires cfg.Valid() && initialEquity > 0.0 && n < |bars|
    ensures var before := StateAfter(cfg, Book([], initialEquity, 0.0, []), bars, n);
            forall checks :: PreCheck(cfg.risk, AfterExits(cfg, before, bars[n]).risk, checks) != Rejected(ExpiryDayEntryBlocked)
  {
    var before := StateAfter(cfg, Book([], initialEquity, 0.0, []), bars, n);
    AlwaysSound(cfg, initialEquity, bars, n);
    ExitsKeepSound(cfg, initialEquity, before, bars[n]);
    hide StateAfter, AfterExits, OnePerSymbol;
  }
}
