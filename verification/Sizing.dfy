// Checks, sizes and caps spelt out exactly: which of them refuses, and the one
// quantity that comes out.

module Sizing {
  import opened Wrappers
  import opened IntMath
  import opened RealMath
  import opened Signals
  import opened Risk

  // ----- sizes

  /** `q` is the largest whole number of units, none at all included, that costs
      no more than `budget` at `unit` each. */
  predicate LargestWithin(q: int, unit: real, budget: real) {
    q >= 0 && unit * (q as real) <= budget < unit * ((q + 1) as real)
  }

  function StopDistance(s: Signal): real { if s.side == Buy then s.entry - s.stopLoss else s.stopLoss - s.entry }

  function Percent(of: real, pct: real): real { of * (pct / 100.0) }

  /** What the risk budget affords, before the analyst and the lots. */
  predicate IsBase(cfg: RiskConfig, s: Signal, accountEquity: real, base: int) {
    match cfg.sizing
    case ATR_BASED => LargestWithin(base, StopDistance(s), Percent(accountEquity, cfg.maxLossPerTradePct))
    case FIXED_PCT => LargestWithin(base, s.entry, Percent(accountEquity, cfg.fixedPositionPct))
  }

  /** A multiplier is cut to between 0 and 1. */
  predicate CutTo(multiplier: real, cut: real) {
    && (multiplier <= 0.0 ==> cut == 0.0) && (multiplier >= 1.0 ==> cut == 1.0)
    && (0.0 < multiplier < 1.0 ==> cut == multiplier)
  }

  /** Whole lots, as many as fit into `amount`. */
  predicate LotsWithin(size: int, lot: int, amount: real)
    requires lot >= 1
  {
    size % lot == 0 && size as real <= amount < (size + lot) as real
  }

  /** As many whole lots as fit into the cut share of `base`. */
  predicate LotsOfShare(size: int, lot: int, base: int, cut: real)
    requires lot >= 1
  {
    LotsWithin(size, lot, base as real * cut)
  }

  predicate IsLot(instrument: Option<Instrument>, lot: int) {
    match instrument
    case None => lot == 1
    case Some(i) => lot == i.lotSize
  }

  lemma LargestIsQuotient(unit: real, budget: real)
    requires unit > 0.0 && budget >= 0.0
    ensures LargestWithin(MaxInt(0, Truncate(budget / unit)), unit, budget)
  {
    var x := budget / unit;
    assert unit * x == budget;
    QuotientNotNegative(budget, unit);
    var q := MaxInt(0, Truncate(x));
    assert q >= 0 && q as real <= x < (q + 1) as real;
    hide Truncate, MaxInt;
    MulOrder(q as real, x, unit);
    StrictOrder(x, (q + 1) as real, unit);
  }

  lemma QuotientNotNegative(a: real, b: real)
    requires a >= 0.0 && b > 0.0
    ensures a / b >= 0.0
  {
  }

  lemma StrictOrder(a: real, b: real, k: real)
    requires a < b && k > 0.0
    ensures k * a < k * b
  {
    assert k * (b - a) > 0.0;
  }

  lemma ShareNotNegative(equity: real, pct: real)
    requires equity > 0.0 && pct > 0.0
    ensures Percent(equity, pct) >= 0.0
  {
    var f := pct / 100.0;
    assert f > 0.0;
    assert equity * f >= 0.0;
  }

  lemma PricesPositive(s: Signal)
    ensures PerShareRisk(s) == StopDistance(s) > 0.0 && s.entry > 0.0
  {
  }

  lemma AtrBase(cfg: RiskConfig, s: Signal, accountEquity: real) returns (unit: real, budget: real)
    requires cfg.Valid() && cfg.sizing == ATR_BASED && accountEquity > 0.0
    ensures unit == StopDistance(s) > 0.0
    ensures budget == Percent(accountEquity, cfg.maxLossPerTradePct) >= 0.0
    ensures BaseQty(cfg, s, accountEquity) == MaxInt(0, Truncate(budget / unit))
  {
    unit, budget := PerShareRisk(s), MaxRisk(cfg, accountEquity);
    PricesPositive(s);
    ShareNotNegative(accountEquity, cfg.maxLossPerTradePct);
    hide MaxInt, Truncate, PerShareRisk, StopDistance;
  }

  lemma FixedBase(cfg: RiskConfig, s: Signal, accountEquity: real) returns (unit: real, budget: real)
    requires cfg.Valid() && cfg.sizing == FIXED_PCT && accountEquity > 0.0
    ensures unit == s.entry > 0.0
    ensures budget == Percent(accountEquity, cfg.fixedPositionPct) >= 0.0
    ensures BaseQty(cfg, s, accountEquity) == MaxInt(0, Truncate(budget / unit))
  {
    unit, budget := s.entry, FixedNotional(cfg, accountEquity);
    PricesPositive(s);
    ShareNotNegative(accountEquity, cfg.fixedPositionPct);
    hide MaxInt, Truncate, PerShareRisk, StopDistance;
  }

  lemma BaseIs(cfg: RiskConfig, s: Signal, accountEquity: real)
    requires cfg.Valid() && accountEquity > 0.0
    ensures IsBase(cfg, s, accountEquity, BaseQty(cfg, s, accountEquity))
  {
    hide LargestWithin, PerShareRisk, StopDistance, Percent, MaxInt, Truncate, BaseQty;
    match cfg.sizing
    case ATR_BASED =>
      var unit, budget := AtrBase(cfg, s, accountEquity);
      LargestIsQuotient(unit, budget);
    case FIXED_PCT =>
      var unit, budget := FixedBase(cfg, s, accountEquity);
      LargestIsQuotient(unit, budget);
  }

  lemma ClampCuts(multiplier: real)
    ensures CutTo(multiplier, Clamp(multiplier)) && 0.0 <= Clamp(multiplier) <= 1.0
  {
  }

  lemma FloorIsWithin(x: real, lot: int)
    requires lot >= 1 && x >= 0.0
    ensures LotsWithin(FloorToLot(Truncate(x), lot), lot, x)
  {
    var n := Truncate(x);
    var q := n / lot;
    assert q * lot <= n < q * lot + lot;
    ZeroRemainder(q, lot);
    assert n as real <= x < (n + 1) as real;
  }

  lemma SizeFrom(cfg: RiskConfig, s: Signal, accountEquity: real, instrument: Option<Instrument>, multiplier: real, amount: real)
    requires InstrumentOk(instrument) && amount == Scaled(BaseQty(cfg, s, accountEquity), multiplier) && amount >= 0.0
    ensures LotSize(instrument) >= 1 && IsLot(instrument, LotSize(instrument))
    ensures LotsWithin(Size(cfg, s, accountEquity, instrument, multiplier), LotSize(instrument), amount)
  {
    hide LotsWithin, BaseQty, Scaled, FloorToLot, Truncate;
    FloorIsWithin(amount, LotSize(instrument));
  }

  lemma ShareIs(size: int, lot: int, base: int, multiplier: real)
    requires lot >= 1 && LotsWithin(size, lot, Scaled(base, multiplier))
    ensures LotsOfShare(size, lot, base, Clamp(multiplier))
  {
    hide Clamp;
  }

  /** The size: with the base that the budget affords and the multiplier cut to 0..1,
      exactly the whole lots that fit into their product. */
  lemma SizeExactly(cfg: RiskConfig, s: Signal, accountEquity: real, instrument: Option<Instrument>, multiplier: real)
    returns (base: int, cut: real, lot: int)
    requires cfg.Valid() && accountEquity > 0.0 && InstrumentOk(instrument)
    ensures IsBase(cfg, s, accountEquity, base) && CutTo(multiplier, cut) && IsLot(instrument, lot) && lot >= 1
    ensures LotsOfShare(Size(cfg, s, accountEquity, instrument, multiplier), lot, base, cut)
    ensures lot == LotSize(instrument)
  {
    hide *;
    base, cut, lot := BaseQty(cfg, s, accountEquity), Clamp(multiplier), LotSize(instrument);
    BaseIs(cfg, s, accountEquity);
    ClampCuts(multiplier);
    BaseQtyNonNegative(cfg, s, accountEquity);
    ScaledBase(base, multiplier);
    SizeFrom(cfg, s, accountEquity, instrument, multiplier, Scaled(base, multiplier));
    ShareIs(Size(cfg, s, accountEquity, instrument, multiplier), lot, base, multiplier);
  }

  lemma OrderScaled(a: real, b: real, k: real)
    requires a <= b && k >= 0.0
    ensures k * a <= k * b
  {
    assert k * (b - a) >= 0.0;
  }

  lemma LargestNotBelow(q1: int, q2: int, unit: real, budget: real)
    requires unit > 0.0 && LargestWithin(q1, unit, budget) && LargestWithin(q2, unit, budget)
    ensures q1 >= q2
  {
    if q1 + 1 <= q2 {
      OrderScaled((q1 + 1) as real, q2 as real, unit);
    }
  }

  /** There is only one such base, and only one such size. */
  lemma LargestUnique(q1: int, q2: int, unit: real, budget: real)
    requires unit > 0.0 && LargestWithin(q1, unit, budget) && LargestWithin(q2, unit, budget)
    ensures q1 == q2
  {
    hide LargestWithin;
    LargestNotBelow(q1, q2, unit, budget);
    LargestNotBelow(q2, q1, unit, budget);
  }

  lemma CloseMultiples(a: int, b: int, lot: int)
    requires lot >= 1 && a % lot == 0 && b % lot == 0 && -lot < a - b < lot
    ensures a == b
  {
    var p, q := a / lot, b / lot;
    assert (p - q) * lot == a - b;
    MulBounds(p - q, lot);
  }

  lemma LotsUnique(a: int, b: int, lot: int, amount: real)
    requires lot >= 1 && LotsWithin(a, lot, amount) && LotsWithin(b, lot, amount)
    ensures a == b
  {
    assert (a as real) < (b + lot) as real && (b as real) < (a + lot) as real;
    CloseMultiples(a, b, lot);
  }

  predicate WholeLotsOf(size: int, lot: int, base: int)
    requires lot >= 1
  {
    size % lot == 0 && size <= base < size + lot
  }

  lemma ShareAtTheEnds(size: int, lot: int, base: int, cut: real)
    requires lot >= 1 && LotsOfShare(size, lot, base, cut)
    ensures cut == 0.0 ==> size == 0
    ensures cut == 1.0 ==> WholeLotsOf(size, lot, base)
  {
    var amount := base as real * cut;
    if cut == 0.0 {
      assert amount == 0.0;
      LotsUnique(size, 0, lot, amount);
    } else if cut == 1.0 {
      assert amount == base as real;
    }
  }

  /** No confidence, no order; full confidence, the whole lots of the base. */
  lemma SizeAtTheEnds(cfg: RiskConfig, s: Signal, accountEquity: real, instrument: Option<Instrument>, multiplier: real)
    requires cfg.Valid() && accountEquity > 0.0 && InstrumentOk(instrument)
    ensures multiplier <= 0.0 ==> Size(cfg, s, accountEquity, instrument, multiplier) == 0
    ensures multiplier >= 1.0 ==>
              exists base, lot :: && lot >= 1 && IsBase(cfg, s, accountEquity, base) && IsLot(instrument, lot)
                                  && WholeLotsOf(Size(cfg, s, accountEquity, instrument, multiplier), lot, base)
  {
    var base, cut, lot := SizeExactly(cfg, s, accountEquity, instrument, multiplier);
    hide Size, IsBase, LotsOfShare, WholeLotsOf, IsLot;
    ShareAtTheEnds(Size(cfg, s, accountEquity, instrument, multiplier), lot, base, cut);
  }

  /** An override only ever lowers a size: to the most whole lots within both. */
  predicate CappedTo(overrideQty: Option<int>, size: int, lot: int, capped: int)
    requires lot >= 1
  {
    match overrideQty
    case None => capped == size
    case Some(most) =>
      if most <= 0 then capped == 0
      else capped % lot == 0 && capped <= size && capped <= most && (capped + lot > size || capped + lot > most)
  }

  lemma CapExactly(overrideQty: Option<int>, instrument: Option<Instrument>, size: int)
    requires InstrumentOk(instrument) && size >= 0 && size % LotSize(instrument) == 0
    ensures LotSize(instrument) >= 1 && IsLot(instrument, LotSize(instrument))
    ensures CappedTo(overrideQty, size, LotSize(instrument), ApplyQtyCap(overrideQty, instrument, size))
  {
    if overrideQty.Some? && overrideQty.value > 0 {
      var least := if size <= overrideQty.value then size else overrideQty.value;
      FloorToLotBounds(least, LotSize(instrument));
      FloorIsNear(least, LotSize(instrument));
    }
    hide FloorToLot;
  }

  lemma FloorIsNear(qty: int, lot: int)
    requires lot >= 1
    ensures FloorToLot(qty, lot) + lot > qty
  {
  }

  // ----- checks

  /** The pre-check approves exactly when nothing stands against the entry, and
      otherwise names the first thing that does. */
  lemma PreCheckExactly(cfg: RiskConfig, st: RiskState, checks: Checks)
    ensures var full := st.openPositions >= cfg.maxOpenPositions;
            var lost := st.dailyRealizedPnl + st.dailyUnrealizedPnl <= -(st.accountEquity * (cfg.dailyLossCapPct / 100.0));
            var expiring := st.instrumentType == OPTION && st.isExpiryDay && checks.afterExpiryCutoff;
            var d := PreCheck(cfg, st, checks);
            && (d == Approved <==> !checks.killSwitch && !full && !lost && !checks.inNoTradeWindow && !expiring)
            && (d == Rejected(KillSwitchActive) <==> checks.killSwitch)
            && (d == Rejected(MaxOpenPositions) <==> !checks.killSwitch && full)
            && (d == Rejected(DailyLossCapMtm) <==> !checks.killSwitch && !full && lost)
            && (d == Rejected(NoTradeWindow) <==> !checks.killSwitch && !full && !lost && checks.inNoTradeWindow)
            && (d == Rejected(ExpiryDayEntryBlocked) <==>
                  !checks.killSwitch && !full && !lost && !checks.inNoTradeWindow && expiring)
  {
  }

  /** The post-check approves exactly the positive quantities within the risk cap,
      1% over included, and for options within the premium cap; a quantity of none
      is put down to the budget exactly when that does not reach one lot. */
  lemma PostCheckExactly(cfg: RiskConfig, s: Signal, accountEquity: real, qty: int, instrument: Option<Instrument>)
    requires cfg.Valid() && accountEquity > 0.0 && InstrumentOk(instrument)
    ensures var risky := StopDistance(s) * (qty as real) > accountEquity * (cfg.maxLossPerTradePct / 100.0) * 1.01;
            var dear := instrument.Some? && instrument.value.kind == OPTION &&
                        s.entry * (qty as real) * (instrument.value.lotSize as real)
                        > accountEquity * (cfg.maxPremiumPerTradePct / 100.0);
            var d := PostCheck(cfg, s, accountEquity, qty, instrument);
            && (d == Approved <==> qty >= 1 && !risky && !dear)
            && (d == Rejected(TradeRiskExceedsCap) <==> qty >= 1 && risky)
            && (d == Rejected(NotionalCapExceeded) <==> qty >= 1 && !risky && dear)
            && (d == Rejected(QtyZeroBelowLotSize) <==>
                  qty <= 0 && forall base :: IsBase(cfg, s, accountEquity, base) ==> base < LotSize(instrument))
            && (d == Rejected(QtyZeroFromShrink) <==>
                  qty <= 0 && exists base :: IsBase(cfg, s, accountEquity, base) && base >= LotSize(instrument))
  {
    BaseIs(cfg, s, accountEquity);
    assert PerShareRisk(s) == StopDistance(s) > 0.0;
    forall base | IsBase(cfg, s, accountEquity, base) ensures base == BaseQty(cfg, s, accountEquity) {
      BaseUnique(cfg, s, accountEquity, base, BaseQty(cfg, s, accountEquity));
    }
    hide IsBase, BaseQty, PerShareRisk, StopDistance;
  }

  lemma BaseUnique(cfg: RiskConfig, s: Signal, accountEquity: real, a: int, b: int)
    requires IsBase(cfg, s, accountEquity, a) && IsBase(cfg, s, accountEquity, b)
    ensures a == b
  {
    assert StopDistance(s) > 0.0 && s.entry > 0.0;
    hide LargestWithin, StopDistance, Percent;
    match cfg.sizing
    case ATR_BASED => LargestUnique(a, b, StopDistance(s), Percent(accountEquity, cfg.maxLossPerTradePct));
    case FIXED_PCT => LargestUnique(a, b, s.entry, Percent(accountEquity, cfg.fixedPositionPct));
  }
}
