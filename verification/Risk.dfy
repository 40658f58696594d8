// Pre-trade checks, position sizing, and the final quantity cap.

module Risk {
  import opened Wrappers
  import opened IntMath
  import opened RealMath
  import opened Signals

  datatype SizingMode = ATR_BASED | FIXED_PCT

  datatype RiskConfig = RiskConfig(
    maxLossPerTradePct: real, dailyLossCapPct: real, maxOpenPositions: int,
    sizing: SizingMode, fixedPositionPct: real, maxPremiumPerTradePct: real)
  {
    predicate Valid() {
      && maxLossPerTradePct > 0.0 && dailyLossCapPct > 0.0 && maxOpenPositions >= 1
      && fixedPositionPct > 0.0 && maxPremiumPerTradePct > 0.0
    }
  }

  datatype InstrumentType = EQUITY | FUTURE | OPTION

  datatype Instrument = Instrument(kind: InstrumentType, lotSize: int)

  datatype RiskState = RiskState(
    accountEquity: real, dailyRealizedPnl: real, dailyUnrealizedPnl: real, openPositions: int,
    isExpiryDay: bool, instrumentType: InstrumentType)
  {
    function DailyPnlMtm(): real { dailyRealizedPnl + dailyUnrealizedPnl }
  }

  /** What the surroundings say at the moment of a check. */
  datatype Checks = Checks(killSwitch: bool, inNoTradeWindow: bool, afterExpiryCutoff: bool)

  datatype Reason =
    | KillSwitchActive | MaxOpenPositions | DailyLossCapMtm | NoTradeWindow | ExpiryDayEntryBlocked
    | QtyZeroBelowLotSize | QtyZeroFromShrink | InvalidStopDistance | TradeRiskExceedsCap | NotionalCapExceeded

  datatype Decision = Approved | Rejected(reason: Reason)

  function DailyCap(cfg: RiskConfig, accountEquity: real): real {
    accountEquity * (cfg.dailyLossCapPct / 100.0)
  }

  function PreCheck(cfg: RiskConfig, state: RiskState, checks: Checks): Decision {
    if checks.killSwitch then Rejected(KillSwitchActive)
    else if state.openPositions >= cfg.maxOpenPositions then Rejected(MaxOpenPositions)
    else if state.DailyPnlMtm() <= -DailyCap(cfg, state.accountEquity) then Rejected(DailyLossCapMtm)
    else if checks.inNoTradeWindow then Rejected(NoTradeWindow)
    else if state.instrumentType == OPTION && state.isExpiryDay && checks.afterExpiryCutoff then Rejected(ExpiryDayEntryBlocked)
    else Approved
  }

  /** Conversion to an integer truncates toward zero. */
  function Truncate(x: real): int { if x >= 0.0 then x.Floor else -(-x).Floor }

  function PerShareRisk(s: Signal): real { Abs(s.entry - s.stopLoss) }

  function MaxRisk(cfg: RiskConfig, accountEquity: real): real {
    accountEquity * (cfg.maxLossPerTradePct / 100.0)
  }

  function FixedNotional(cfg: RiskConfig, accountEquity: real): real {
    accountEquity * (cfg.fixedPositionPct / 100.0)
  }

  function MaxInt(a: int, b: int): int { if a >= b then a else b }

  function BaseQty(cfg: RiskConfig, s: Signal, accountEquity: real): int {
    if PerShareRisk(s) <= 0.0 then 0
    else if cfg.sizing == FIXED_PCT then
      MaxInt(0, Truncate(FixedNotional(cfg, accountEquity) / s.entry))
    else MaxInt(0, Truncate(MaxRisk(cfg, accountEquity) / PerShareRisk(s)))
  }

  function LotSize(instrument: Option<Instrument>): int {
    if instrument.Some? then instrument.value.lotSize else 1
  }

  predicate InstrumentOk(instrument: Option<Instrument>) {
    instrument.Some? ==> instrument.value.lotSize >= 1
  }

  function FloorToLot(qty: int, lot: int): int
    requires lot >= 1
  {
    qty / lot * lot
  }

  function Clamp(multiplier: real): real { Max(0.0, Min(1.0, multiplier)) }

  /** The base quantity shrunk by the analyst, before any rounding. */
  function Scaled(base: int, multiplier: real): real { base as real * Clamp(multiplier) }

  function Size(cfg: RiskConfig, s: Signal, accountEquity: real, instrument: Option<Instrument>, multiplier: real): int
    requires InstrumentOk(instrument)
  {
    FloorToLot(Truncate(Scaled(BaseQty(cfg, s, accountEquity), multiplier)), LotSize(instrument))
  }

  function PostCheck(cfg: RiskConfig, s: Signal, accountEquity: real, qty: int, instrument: Option<Instrument>): Decision {
    if qty <= 0 then
      if BaseQty(cfg, s, accountEquity) < LotSize(instrument) then Rejected(QtyZeroBelowLotSize)
      else Rejected(QtyZeroFromShrink)
    else if PerShareRisk(s) <= 0.0 then Rejected(InvalidStopDistance)
    else if PerShareRisk(s) * (qty as real) > MaxRisk(cfg, accountEquity) * 1.01 then Rejected(TradeRiskExceedsCap)
    else if instrument.Some? && instrument.value.kind == OPTION &&
            s.entry * (qty as real) * (instrument.value.lotSize as real) > accountEquity * (cfg.maxPremiumPerTradePct / 100.0) then
      Rejected(NotionalCapExceeded)
    else Approved
  }

  function ApplyQtyCap(overrideQty: Option<int>, instrument: Option<Instrument>, qty: int): int
    requires InstrumentOk(instrument)
  {
    if overrideQty.None? then qty
    else if overrideQty.value <= 0 then 0
    else FloorToLot(if qty <= overrideQty.value then qty else overrideQty.value, LotSize(instrument))
  }

  // ----- rounding down

  lemma FloorToLotBounds(qty: int, lot: int)
    requires lot >= 1
    ensures FloorToLot(qty, lot) % lot == 0 && FloorToLot(qty, lot) <= qty
    ensures qty >= 0 ==> FloorToLot(qty, lot) >= 0
  {
    var q := qty / lot;
    ZeroRemainder(q, lot);
    MulBounds(q, lot);
    if qty >= 0 {
      assert q >= 0;
    }
  }

  lemma FloorToLotMonotone(a: int, b: int, lot: int)
    requires lot >= 1 && a <= b
    ensures FloorToLot(a, lot) <= FloorToLot(b, lot)
  {
    var p, q := a / lot, b / lot;
    assert (q - p) * lot == q * lot - p * lot > -lot;
    MulBounds(q - p, lot);
  }

  lemma TruncateBounds(x: real)
    requires x >= 0.0
    ensures Truncate(x) >= 0 && (Truncate(x) as real) <= x
  {
  }

  lemma TruncateMonotone(x: real, y: real)
    requires 0.0 <= x <= y
    ensures Truncate(x) <= Truncate(y)
  {
  }

  // ----- sizing

  lemma BaseQtyNonNegative(cfg: RiskConfig, s: Signal, accountEquity: real)
    ensures BaseQty(cfg, s, accountEquity) >= 0
  {
  }

  lemma ScaledBase(base: int, multiplier: real)
    requires base >= 0
    ensures 0.0 <= Scaled(base, multiplier) <= base as real
    ensures 0 <= Truncate(Scaled(base, multiplier)) <= base
  {
    var m := Clamp(multiplier);
    assert 0.0 <= m <= 1.0;
    MulOrder(0.0, m, base as real);
    MulOrder(m, 1.0, base as real);
    TruncateBounds(base as real * m);
  }

  lemma ScaledMonotone(base: int, m1: real, m2: real)
    requires base >= 0 && m1 <= m2
    ensures Scaled(base, m1) <= Scaled(base, m2)
  {
    MulOrder(Clamp(m1), Clamp(m2), base as real);
  }

  lemma SizeIs(cfg: RiskConfig, s: Signal, accountEquity: real, instrument: Option<Instrument>, multiplier: real)
    requires InstrumentOk(instrument)
    ensures LotSize(instrument) >= 1
    ensures Size(cfg, s, accountEquity, instrument, multiplier) ==
            FloorToLot(Truncate(Scaled(BaseQty(cfg, s, accountEquity), multiplier)), LotSize(instrument))
  {
    hide FloorToLot, Truncate, BaseQty, Scaled;
  }

  /** A size is never negative, a whole number of lots, and no more than the base
      quantity that the risk budget allows. */
  lemma SizeBounds(cfg: RiskConfig, s: Signal, accountEquity: real, instrument: Option<Instrument>, multiplier: real)
    requires InstrumentOk(instrument)
    ensures 0 <= Size(cfg, s, accountEquity, instrument, multiplier) <= BaseQty(cfg, s, accountEquity)
    ensures Size(cfg, s, accountEquity, instrument, multiplier) % LotSize(instrument) == 0
  {
    hide *;
    var base, lot := BaseQty(cfg, s, accountEquity), LotSize(instrument);
    var scaled := Truncate(Scaled(base, multiplier));
    SizeIs(cfg, s, accountEquity, instrument, multiplier);
    BaseQtyNonNegative(cfg, s, accountEquity);
    ScaledBase(base, multiplier);
    FloorToLotBounds(scaled, lot);
  }

  /** A more confident analyst never gets a smaller size. */
  lemma SizeMonotone(cfg: RiskConfig, s: Signal, accountEquity: real, instrument: Option<Instrument>, m1: real, m2: real)
    requires InstrumentOk(instrument) && m1 <= m2
    ensures Size(cfg, s, accountEquity, instrument, m1) <= Size(cfg, s, accountEquity, instrument, m2)
  {
    hide *;
    var base, lot := BaseQty(cfg, s, accountEquity), LotSize(instrument);
    var x1, x2 := Scaled(base, m1), Scaled(base, m2);
    SizeIs(cfg, s, accountEquity, instrument, m1);
    SizeIs(cfg, s, accountEquity, instrument, m2);
    BaseQtyNonNegative(cfg, s, accountEquity);
    ScaledBase(base, m1);
    ScaledMonotone(base, m1, m2);
    TruncateMonotone(x1, x2);
    FloorToLotMonotone(Truncate(x1), Truncate(x2), lot);
  }

  lemma RiskPositive(s: Signal)
    ensures PerShareRisk(s) > 0.0
  {
  }

  lemma WithinBudget(budget: real, risk: real, qty: int)
    requires budget >= 0.0 && risk > 0.0 && 0 <= qty <= Truncate(budget / risk)
    ensures risk * (qty as real) <= budget
  {
    var q := budget / risk;
    assert q * risk == budget && q >= 0.0;
    TruncateBounds(q);
    MulOrder(qty as real, q, risk);
  }

  lemma BudgetPositive(cfg: RiskConfig, accountEquity: real)
    requires cfg.Valid() && accountEquity > 0.0
    ensures MaxRisk(cfg, accountEquity) > 0.0
  {
    var f := cfg.maxLossPerTradePct / 100.0;
    assert f > 0.0;
    assert MaxRisk(cfg, accountEquity) == accountEquity * f;
    hide *;
    MulOrder(0.0, f, accountEquity);
    if accountEquity * f == 0.0 {
      Cancel(f, 0.0, accountEquity);
    }
  }

  /** In atr_based mode the stop-distance risk of every size is within the cap
      itself, with no tolerance needed. */
  lemma AtrSizeWithinCap(cfg: RiskConfig, s: Signal, accountEquity: real, instrument: Option<Instrument>, multiplier: real)
    requires cfg.Valid() && cfg.sizing == ATR_BASED && accountEquity > 0.0 && InstrumentOk(instrument)
    ensures PerShareRisk(s) * (Size(cfg, s, accountEquity, instrument, multiplier) as real) <= MaxRisk(cfg, accountEquity)
  {
    SizeBounds(cfg, s, accountEquity, instrument, multiplier);
    RiskPositive(s);
    BudgetPositive(cfg, accountEquity);
    assert BaseQty(cfg, s, accountEquity) == MaxInt(0, Truncate(MaxRisk(cfg, accountEquity) / PerShareRisk(s)));
    QuotientNonNegative(MaxRisk(cfg, accountEquity), PerShareRisk(s));
    TruncateBounds(MaxRisk(cfg, accountEquity) / PerShareRisk(s));
    hide Size, PerShareRisk, MaxRisk, Truncate, BaseQty;
    WithinBudget(MaxRisk(cfg, accountEquity), PerShareRisk(s), Size(cfg, s, accountEquity, instrument, multiplier));
  }

  lemma QuotientNonNegative(a: real, b: real)
    requires a > 0.0 && b > 0.0
    ensures a / b >= 0.0
  {
  }

  /** So after atr_based sizing the post-check never reports an exceeded risk cap. */
  lemma AtrNeverExceedsCap(cfg: RiskConfig, s: Signal, accountEquity: real, instrument: Option<Instrument>, multiplier: real)
    requires cfg.Valid() && cfg.sizing == ATR_BASED && accountEquity > 0.0 && InstrumentOk(instrument)
    ensures PostCheck(cfg, s, accountEquity, Size(cfg, s, accountEquity, instrument, multiplier), instrument)
            != Rejected(TradeRiskExceedsCap)
  {
    AtrSizeWithinCap(cfg, s, accountEquity, instrument, multiplier);
    BudgetPositive(cfg, accountEquity);
    RiskCheckPasses(cfg, s, accountEquity, Size(cfg, s, accountEquity, instrument, multiplier), instrument);
  }

  lemma RiskCheckPasses(cfg: RiskConfig, s: Signal, accountEquity: real, qty: int, instrument: Option<Instrument>)
    requires PerShareRisk(s) * (qty as real) <= MaxRisk(cfg, accountEquity) && MaxRisk(cfg, accountEquity) > 0.0
    ensures PostCheck(cfg, s, accountEquity, qty, instrument) != Rejected(TradeRiskExceedsCap)
  {
    hide PerShareRisk, MaxRisk, BaseQty;
  }

  /** In fixed_pct mode that check is live: a wide stop on a 10% position. */
  lemma FixedPctCanExceedCap(cfg: RiskConfig, s: Signal)
    requires cfg.sizing == FIXED_PCT && cfg.fixedPositionPct == 10.0 && cfg.maxLossPerTradePct == 0.5
    requires s.entry == 100.0 && s.stopLoss == 50.0
    ensures Size(cfg, s, 100000.0, None, 1.0) == 100
    ensures PostCheck(cfg, s, 100000.0, 100, None) == Rejected(TradeRiskExceedsCap)
  {
    assert BaseQty(cfg, s, 100000.0) == 100;
  }

  // ----- what is finally submitted

  /** Every quantity that passes the post-check and survives the cap: at least
      one, whole lots, within the override, and within every risk cap. */
  lemma SubmittedOrderSafe(cfg: RiskConfig, s: Signal, accountEquity: real, instrument: Option<Instrument>,
                           multiplier: real, overrideQty: Option<int>)
    requires cfg.Valid() && accountEquity > 0.0 && InstrumentOk(instrument)
    requires PostCheck(cfg, s, accountEquity, Size(cfg, s, accountEquity, instrument, multiplier), instrument) == Approved
    requires ApplyQtyCap(overrideQty, instrument, Size(cfg, s, accountEquity, instrument, multiplier)) > 0
    ensures var qty := ApplyQtyCap(overrideQty, instrument, Size(cfg, s, accountEquity, instrument, multiplier));
            && qty >= 1 && qty % LotSize(instrument) == 0
            && (overrideQty.Some? ==> qty <= overrideQty.value)
            && PerShareRisk(s) * (qty as real) <= MaxRisk(cfg, accountEquity) * 1.01
            && (instrument.Some? && instrument.value.kind == OPTION ==>
                  s.entry * (qty as real) * (instrument.value.lotSize as real)
                  <= accountEquity * (cfg.maxPremiumPerTradePct / 100.0))
  {
    hide *;
    var sized := Size(cfg, s, accountEquity, instrument, multiplier);
    SizeIs(cfg, s, accountEquity, instrument, multiplier);
    SizeBounds(cfg, s, accountEquity, instrument, multiplier);
    CapBounds(overrideQty, instrument, sized);
    SmallerOrderSafe(cfg, s, accountEquity, instrument, sized, ApplyQtyCap(overrideQty, instrument, sized));
  }

  /** What an approval of the post-check says about the caps. */
  lemma ApprovedCaps(cfg: RiskConfig, s: Signal, accountEquity: real, instrument: Option<Instrument>, qty: int)
    requires PostCheck(cfg, s, accountEquity, qty, instrument) == Approved
    ensures qty >= 1 && PerShareRisk(s) * (qty as real) <= MaxRisk(cfg, accountEquity) * 1.01
    ensures instrument.Some? && instrument.value.kind == OPTION ==>
              s.entry * (qty as real) * (instrument.value.lotSize as real)
              <= accountEquity * (cfg.maxPremiumPerTradePct / 100.0)
  {
    hide PerShareRisk, MaxRisk, BaseQty;
  }

  lemma SmallerRisk(risk: real, q: real, z: real, cap: real)
    requires 0.0 <= risk && q <= z && risk * z <= cap
    ensures risk * q <= cap
  {
    MulOrder(q, z, risk);
  }

  lemma SmallerNotional(entry: real, q: real, z: real, lot: real, cap: real)
    requires 0.0 <= entry && 0.0 <= lot && q <= z && entry * z * lot <= cap
    ensures entry * q * lot <= cap
  {
    MulOrder(q, z, entry);
    MulOrder(entry * q, entry * z, lot);
  }

  /** What the post-check approved, it approves for any smaller quantity. */
  lemma SmallerOrderSafe(cfg: RiskConfig, s: Signal, accountEquity: real, instrument: Option<Instrument>, sized: int, qty: int)
    requires InstrumentOk(instrument) && 1 <= qty <= sized
    requires PostCheck(cfg, s, accountEquity, sized, instrument) == Approved
    ensures PerShareRisk(s) * (qty as real) <= MaxRisk(cfg, accountEquity) * 1.01
    ensures instrument.Some? && instrument.value.kind == OPTION ==>
              s.entry * (qty as real) * (instrument.value.lotSize as real)
              <= accountEquity * (cfg.maxPremiumPerTradePct / 100.0)
  {
    hide PostCheck, PerShareRisk, MaxRisk;
    RiskPositive(s);
    ApprovedCaps(cfg, s, accountEquity, instrument, sized);
    SmallerRisk(PerShareRisk(s), qty as real, sized as real, MaxRisk(cfg, accountEquity) * 1.01);
    if instrument.Some? && instrument.value.kind == OPTION {
      SmallerNotional(s.entry, qty as real, sized as real, instrument.value.lotSize as real,
                      accountEquity * (cfg.maxPremiumPerTradePct / 100.0));
    }
  }

  lemma CapBounds(overrideQty: Option<int>, instrument: Option<Instrument>, sized: int)
    requires InstrumentOk(instrument) && sized >= 0 && sized % LotSize(instrument) == 0
    ensures var qty := ApplyQtyCap(overrideQty, instrument, sized);
            && 0 <= qty <= sized && qty % LotSize(instrument) == 0
            && (overrideQty.Some? && qty > 0 ==> qty <= overrideQty.value)
  {
    if overrideQty.Some? && overrideQty.value > 0 {
      FloorToLotBounds(if sized <= overrideQty.value then sized else overrideQty.value, LotSize(instrument));
    }
    hide FloorToLot;
  }
}
