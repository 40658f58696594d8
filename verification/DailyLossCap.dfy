// The daily loss cap over several days.  The loop keeps one running total and
// never starts it afresh, so the cap acts on the whole run.

module DailyLossCap {
  import opened Wrappers
  import opened RealMath
  import opened Signals
  import opened Risk
  import opened Paper
  import opened PaperLoop
  import opened PaperLoopTheorems

  function Fresh(initialEquity: real): Book { Book([], initialEquity, 0.0, []) }

  // ----- profit by day

  /** What bar `i` of the run realizes: only its exits do. */
  function BarProfit(cfg: LoopConfig, initialEquity: real, bars: seq<BarInput>, i: nat): real
    requires cfg.Valid() && i < |bars|
  {
    if bars[i].allowed then ExitPnl(StateAfter(cfg, Fresh(initialEquity), bars, i).book.positions, bars[i]) else 0.0
  }

  /** The profit realized on `day` by the first `n` bars. */
  function ProfitOn(cfg: LoopConfig, initialEquity: real, bars: seq<BarInput>, n: nat, day: int): real
    requires cfg.Valid() && n <= |bars|
  {
    if n == 0 then 0.0
    else
      ProfitOn(cfg, initialEquity, bars, n - 1, day) +
      if bars[n - 1].day == day then BarProfit(cfg, initialEquity, bars, n - 1) else 0.0
  }

  /** The profit realized on all other days by the first `n` bars. */
  function ProfitElsewhere(cfg: LoopConfig, initialEquity: real, bars: seq<BarInput>, n: nat, day: int): real
    requires cfg.Valid() && n <= |bars|
  {
    if n == 0 then 0.0
    else
      ProfitElsewhere(cfg, initialEquity, bars, n - 1, day) +
      if bars[n - 1].day != day then BarProfit(cfg, initialEquity, bars, n - 1) else 0.0
  }

  lemma TickRealizes(cfg: LoopConfig, st: LoopState, bar: BarInput)
    requires cfg.Valid()
    ensures Tick(cfg, st, bar).risk.dailyRealizedPnl ==
            st.risk.dailyRealizedPnl + if bar.allowed then ExitPnl(st.book.positions, bar) else 0.0
  {
    ExitsBooked(cfg, st, bar);
    hide AfterExits, Submitted, ExitPnl, Placed, Fills;
  }

  lemma {:induction false} TotalOfAllDays(cfg: LoopConfig, initialEquity: real, bars: seq<BarInput>, n: nat, day: int)
    requires cfg.Valid() && n <= |bars|
    ensures StateAfter(cfg, Fresh(initialEquity), bars, n).risk.dailyRealizedPnl ==
            ProfitOn(cfg, initialEquity, bars, n, day) + ProfitElsewhere(cfg, initialEquity, bars, n, day)
  {
    hide Tick, ExitPnl;
    if n > 0 {
      TotalOfAllDays(cfg, initialEquity, bars, n - 1, day);
      TickRealizes(cfg, StateAfter(cfg, Fresh(initialEquity), bars, n - 1), bars[n - 1]);
    }
  }

  /** The realized half: after every bar of every run, the loop's realized figure is
      the profit realized on that bar's day if and only if the other days so far (the earlier ones,
      in a frame in time order) cancel out to zero. */
  lemma RealizedRightExactlyWhen(cfg: LoopConfig, initialEquity: real, bars: seq<BarInput>, n: nat)
    requires cfg.Valid() && n < |bars|
    ensures StateAfter(cfg, Fresh(initialEquity), bars, n + 1).risk.dailyRealizedPnl ==
            ProfitOn(cfg, initialEquity, bars, n + 1, bars[n].day)
            <==> ProfitElsewhere(cfg, initialEquity, bars, n, bars[n].day) == 0.0
  {
    TotalOfAllDays(cfg, initialEquity, bars, n + 1, bars[n].day);
    hide StateAfter, ProfitOn, BarProfit;
  }

  predicate InTimeOrder(bars: seq<BarInput>) {
    forall i, j :: 0 <= i < j < |bars| ==> bars[i].day <= bars[j].day
  }

  /** The profit of the days before `day`. */
  function ProfitBefore(cfg: LoopConfig, initialEquity: real, bars: seq<BarInput>, n: nat, day: int): real
    requires cfg.Valid() && n <= |bars|
  {
    if n == 0 then 0.0
    else
      ProfitBefore(cfg, initialEquity, bars, n - 1, day) +
      if bars[n - 1].day < day then BarProfit(cfg, initialEquity, bars, n - 1) else 0.0
  }

  /** In time order, the other days so far are the earlier days. */
  lemma {:induction false} ElsewhereIsBefore(cfg: LoopConfig, initialEquity: real, bars: seq<BarInput>, n: nat, m: nat)
    requires cfg.Valid() && m <= n < |bars| && InTimeOrder(bars)
    ensures ProfitElsewhere(cfg, initialEquity, bars, m, bars[n].day) == ProfitBefore(cfg, initialEquity, bars, m, bars[n].day)
  {
    hide BarProfit;
    if m > 0 {
      ElsewhereIsBefore(cfg, initialEquity, bars, n, m - 1);
    }
  }

  // ----- the figure the cap reads: realized and unrealized together

  /** Realized plus unrealized profit after the first `n` bars. */
  function MtmAfter(cfg: LoopConfig, initialEquity: real, bars: seq<BarInput>, n: nat): real
    requires cfg.Valid() && n <= |bars|
  {
    StateAfter(cfg, Fresh(initialEquity), bars, n).risk.DailyPnlMtm()
  }

  /** How far bar `i` moves that figure. */
  function BarMove(cfg: LoopConfig, initialEquity: real, bars: seq<BarInput>, i: nat): real
    requires cfg.Valid() && i < |bars|
  {
    MtmAfter(cfg, initialEquity, bars, i + 1) - MtmAfter(cfg, initialEquity, bars, i)
  }

  /** How far the bars of `day` among the first `n` move it together. */
  function MoveOn(cfg: LoopConfig, initialEquity: real, bars: seq<BarInput>, n: nat, day: int): real
    requires cfg.Valid() && n <= |bars|
  {
    if n == 0 then 0.0
    else
      MoveOn(cfg, initialEquity, bars, n - 1, day) +
      if bars[n - 1].day == day then BarMove(cfg, initialEquity, bars, n - 1) else 0.0
  }

  lemma ProcessedKeepsMtm(cfg: LoopConfig, st: LoopState, s: Signal, bar: BarInput)
    requires cfg.Valid()
    ensures Processed(cfg, st, s, bar).risk.DailyPnlMtm() == st.risk.DailyPnlMtm()
  {
    hide Submitted, Placed, Fills;
  }

  /** What the cap is compared with on a bar is the figure after that bar: nothing
      a signal leads to changes it. */
  lemma CapReadsMtmAfter(cfg: LoopConfig, initialEquity: real, bars: seq<BarInput>, n: nat)
    requires cfg.Valid() && n < |bars| && bars[n].allowed
    ensures AfterExits(cfg, StateAfter(cfg, Fresh(initialEquity), bars, n), bars[n]).risk.DailyPnlMtm()
            == MtmAfter(cfg, initialEquity, bars, n + 1)
  {
    var st := StateAfter(cfg, Fresh(initialEquity), bars, n);
    NextState(cfg, Fresh(initialEquity), bars, n);
    if bars[n].signals != [] {
      ProcessedKeepsMtm(cfg, Seen(AfterExits(cfg, st, bars[n])), bars[n].signals[0], bars[n]);
    }
    hide StateAfter, AfterExits, Processed;
  }

  lemma NothingAtFirst(cfg: LoopConfig, initialEquity: real, bars: seq<BarInput>, day: int)
    requires cfg.Valid()
    ensures MtmAfter(cfg, initialEquity, bars, 0) == MoveOn(cfg, initialEquity, bars, 0, day) == 0.0
  {
  }

  /** Bars of other days leave a day's move alone. */
  lemma {:induction false} NoMoveBefore(cfg: LoopConfig, initialEquity: real, bars: seq<BarInput>, n: nat, day: int)
    requires cfg.Valid() && n <= |bars| && forall j :: 0 <= j < n ==> bars[j].day != day
    ensures MoveOn(cfg, initialEquity, bars, n, day) == 0.0
  {
    hide BarMove;
    if n > 0 {
      NoMoveBefore(cfg, initialEquity, bars, n - 1, day);
    }
  }

  /** Bars of the day itself add up to the difference they make. */
  lemma {:induction false} MoveIsDifference(cfg: LoopConfig, initialEquity: real, bars: seq<BarInput>, from: nat, n: nat, day: int)
    requires cfg.Valid() && from <= n <= |bars| && forall j :: from <= j < n ==> bars[j].day == day
    ensures MoveOn(cfg, initialEquity, bars, n, day) - MoveOn(cfg, initialEquity, bars, from, day) ==
            MtmAfter(cfg, initialEquity, bars, n) - MtmAfter(cfg, initialEquity, bars, from)
  {
    hide MtmAfter;
    if from < n {
      MoveIsDifference(cfg, initialEquity, bars, from, n - 1, day);
    }
  }

  /** The first bar of the day that bar `n` belongs to. */
  predicate DayStarts(bars: seq<BarInput>, start: nat, n: nat) {
    && start <= n < |bars|
    && (forall j :: 0 <= j < start ==> bars[j].day != bars[n].day)
    && (forall j :: start <= j <= n ==> bars[j].day == bars[n].day)
  }

  /** On every bar of every run, the figure the cap reads is that day's own move,
      realized and unrealized, if and only if it stood at zero when the day began. */
  lemma MtmRightExactlyWhen(cfg: LoopConfig, initialEquity: real, bars: seq<BarInput>, start: nat, n: nat)
    requires cfg.Valid() && DayStarts(bars, start, n)
    ensures MtmAfter(cfg, initialEquity, bars, n + 1) == MoveOn(cfg, initialEquity, bars, n + 1, bars[n].day)
            <==> MtmAfter(cfg, initialEquity, bars, start) == 0.0
  {
    hide MtmAfter, MoveOn;
    NoMoveBefore(cfg, initialEquity, bars, start, bars[n].day);
    MoveIsDifference(cfg, initialEquity, bars, start, n + 1, bars[n].day);
  }

  /** In time order every bar's day has a first bar, so the condition is one that
      can be looked up for each bar. */
  lemma {:induction false} DayHasStart(bars: seq<BarInput>, n: nat) returns (start: nat)
    requires n < |bars| && InTimeOrder(bars)
    ensures DayStarts(bars, start, n)
  {
    if n > 0 && bars[n - 1].day == bars[n].day {
      start := DayHasStart(bars, n - 1);
    } else {
      start := n;
      assert n > 0 ==> forall j :: 0 <= j < n ==> bars[j].day <= bars[n - 1].day;
    }
  }

  // ----- a breached cap

  predicate Breached(cfg: LoopConfig, initialEquity: real, st: LoopState) {
    st.book.positions == [] && st.risk.dailyRealizedPnl <= -DailyCap(cfg.risk, initialEquity)
  }

  lemma FlatSweep(cfg: LoopConfig, st: LoopState, bar: BarInput)
    requires st.book.positions == []
    ensures AfterExits(cfg, st, bar).book == st.book
    ensures AfterExits(cfg, st, bar).risk.DailyPnlMtm() == st.risk.dailyRealizedPnl
    ensures AfterExits(cfg, st, bar).risk.accountEquity == st.risk.accountEquity
  {
    assert st.book.positions[..0] == [];
    assert Survivors([], bar) + st.book.positions[0..] == [];
  }

  lemma BreachedStaysFlat(cfg: LoopConfig, initialEquity: real, st: LoopState, bar: BarInput)
    requires cfg.Valid() && st.risk.accountEquity == initialEquity && Breached(cfg, initialEquity, st)
    ensures Tick(cfg, st, bar).book == st.book && Breached(cfg, initialEquity, Tick(cfg, st, bar))
    ensures Tick(cfg, st, bar).risk.accountEquity == initialEquity
  {
    FlatSweep(cfg, st, bar);
    TickRealizes(cfg, st, bar);
    hide AfterExits, DailyCap, Size, PostCheck, ApplyQtyCap;
  }

  /** Once the book is flat with the cap breached, on whatever day, the loop never
      places another order: the books stay as they are to the end of the run. */
  lemma {:induction false} BreachedForGood(cfg: LoopConfig, initialEquity: real, bars: seq<BarInput>, n: nat, m: nat)
    requires cfg.Valid() && initialEquity > 0.0 && n <= m <= |bars|
    requires Breached(cfg, initialEquity, StateAfter(cfg, Fresh(initialEquity), bars, n))
    ensures StateAfter(cfg, Fresh(initialEquity), bars, m).book == StateAfter(cfg, Fresh(initialEquity), bars, n).book
    ensures Breached(cfg, initialEquity, StateAfter(cfg, Fresh(initialEquity), bars, m))
  {
    hide Tick, Breached;
    if n < m {
      BreachedForGood(cfg, initialEquity, bars, n, m - 1);
      AlwaysSound(cfg, initialEquity, bars, m - 1);
      assert StateAfter(cfg, Fresh(initialEquity), bars, m - 1).risk.accountEquity == initialEquity;
      BreachedStaysFlat(cfg, initialEquity, StateAfter(cfg, Fresh(initialEquity), bars, m - 1), bars[m - 1]);
    }
  }

  // ----- two runs over two days

  const CONFIG := LoopConfig(RiskConfig(5.0, 2.0, 3, ATR_BASED, 1.0, 1.0), 0.0, None, None, "X")

  const CLEAR := Checks(false, false, false)

  const HELD := Position("X", LONG, 5, 100.0, 90.0, 120.0)

  predicate LongFrom100(s: Signal) {
    s.symbol == "X" && s.side == Buy && s.entry == 100.0 && s.stopLoss == 90.0 && s.target == 120.0
  }

  /** Day 1 opens with the signal. */
  function EntryBar(s: Signal): BarInput { BarInput(1, true, 101.0, 99.0, 100.0, [s], CLEAR, None) }

  /** Entered and stopped out on day 1; the same signal again on day 2. */
  function StoppedOut(s: Signal): seq<BarInput> {
    [EntryBar(s), BarInput(1, true, 100.0, 80.0, 85.0, [], CLEAR, None), BarInput(2, true, 101.0, 99.0, 100.0, [s], CLEAR, None)]
  }

  /** Entered on day 1 and held, at a loss, over night; day 2 stands still. */
  function HeldOverNight(s: Signal): seq<BarInput> {
    [EntryBar(s), BarInput(1, true, 100.0, 94.0, 95.0, [], CLEAR, None), BarInput(2, true, 96.0, 94.0, 95.0, [s], CLEAR, None)]
  }

  lemma {:induction false} FiveUnits(s: Signal)
    requires LongFrom100(s)
    ensures Size(CONFIG.risk, s, 1000.0, None, 1.0) == 5 && PostCheck(CONFIG.risk, s, 1000.0, 5, None) == Approved
  {
    assert BaseQty(CONFIG.risk, s, 1000.0) == 5;
    assert Scaled(5, 1.0) == 5.0;
  }

  lemma {:induction false} FiveSubmitted(risk: RiskState, s: Signal, bar: BarInput)
    requires LongFrom100(s) && risk == RiskState(1000.0, 0.0, 0.0, 0, false, EQUITY)
    requires bar.checks == CLEAR && bar.verdict == None
    ensures Submitted(CONFIG, risk, s, bar) == Submit(5)
  {
    assert CONFIG.Valid() && CONFIG.instrument == None && CONFIG.overrideQty == None;
    hide Size, PostCheck, PreCheck, LongFrom100, Submitted, InstrumentOk;
    FiveUnits(s);
    UnderTheCap(risk);
    SubmittedIs(CONFIG, risk, s, bar, 5);
  }

  /** Without a veto or an override, an approved size is submitted as it is. */
  lemma SubmittedIs(cfg: LoopConfig, risk: RiskState, s: Signal, bar: BarInput, qty: int)
    requires cfg.Valid() && cfg.overrideQty == None && bar.verdict == None && qty >= 1
    requires PreCheck(cfg.risk, risk, bar.checks) == Approved
    requires Size(cfg.risk, s, risk.accountEquity, cfg.instrument, 1.0) == qty
    requires PostCheck(cfg.risk, s, risk.accountEquity, qty, cfg.instrument) == Approved
    ensures Submitted(cfg, risk, s, bar) == Submit(qty)
  {
    hide Size, PostCheck, PreCheck;
  }

  lemma UnderTheCap(risk: RiskState)
    requires risk == RiskState(1000.0, 0.0, 0.0, 0, false, EQUITY)
    ensures PreCheck(CONFIG.risk, risk, CLEAR) == Approved
  {
    assert DailyCap(CONFIG.risk, 1000.0) == 20.0;
  }

  lemma FiveFilled(st: LoopState, s: Signal, bar: BarInput)
    requires LongFrom100(s) && st.book == Fresh(1000.0) && Submitted(CONFIG, st.risk, s, bar) == Submit(5)
    ensures var next := Processed(CONFIG, st, s, bar);
            next.book.positions == [HELD] && next.risk == st.risk.(openPositions := 1)
  {
    hide Submitted;
    assert Opened(s, 5, 0.0) == HELD;
    assert [] + [HELD] == [HELD];
  }

  lemma FlatRiskState(cfg: LoopConfig, st: LoopState, bar: BarInput)
    requires st.book.positions == []
    ensures AfterExits(cfg, st, bar).risk == st.risk.(dailyUnrealizedPnl := 0.0)
  {
    assert st.book.positions[..0] == [];
    assert Survivors([], bar) + st.book.positions[0..] == [];
  }

  lemma NextState(cfg: LoopConfig, book: Book, bars: seq<BarInput>, n: nat)
    requires cfg.Valid() && n < |bars|
    ensures StateAfter(cfg, book, bars, n + 1) == Tick(cfg, StateAfter(cfg, book, bars, n), bars[n])
  {
    hide Tick;
  }

  lemma FirstState(cfg: LoopConfig, book: Book, bars: seq<BarInput>)
    requires cfg.Valid()
    ensures StateAfter(cfg, book, bars, 0) == Initial(book)
  {
  }

  lemma {:induction false} EnteredOnDayOne(bars: seq<BarInput>, s: Signal)
    requires LongFrom100(s) && |bars| > 0 && bars[0] == EntryBar(s)
    ensures var st := StateAfter(CONFIG, Fresh(1000.0), bars, 1);
            st.book.positions == [HELD] && st.risk == RiskState(1000.0, 0.0, 0.0, 1, false, EQUITY)
  {
    hide StateAfter, AfterExits, Processed, Submitted;
    var st, bar := Initial(Fresh(1000.0)), bars[0];
    FirstState(CONFIG, Fresh(1000.0), bars);
    NextState(CONFIG, Fresh(1000.0), bars, 0);
    FlatSweep(CONFIG, st, bar);
    FlatRiskState(CONFIG, st, bar);
    var seen := Seen(AfterExits(CONFIG, st, bar));
    FiveSubmitted(seen.risk, s, bar);
    FiveFilled(seen, s, bar);
  }

  lemma OneStopped(st: LoopState, bar: BarInput)
    requires st.book.positions == [HELD] && bar.low == 80.0
    ensures AfterExits(CONFIG, st, bar).book.positions == []
    ensures AfterExits(CONFIG, st, bar).risk.dailyRealizedPnl == st.risk.dailyRealizedPnl - 50.0
    ensures AfterExits(CONFIG, st, bar).risk.accountEquity == st.risk.accountEquity
  {
    var ps := st.book.positions;
    assert ps[..1] == ps && ps[..0] == [];
    assert PositionPnl(ps[0], 90.0) == -50.0;
    assert Survivors(ps, bar) == [] && ExitPnl(ps, bar) == -50.0;
    assert Survivors(ps, bar) + ps[1..] == [];
    hide Survivors, ExitPnl, PositionPnl;
  }

  lemma StoppedOutOnDayOne(s: Signal)
    requires LongFrom100(s)
    ensures var st := StateAfter(CONFIG, Fresh(1000.0), StoppedOut(s), 2);
            st.book.positions == [] && st.risk.dailyRealizedPnl == -50.0 && st.risk.accountEquity == 1000.0
  {
    hide StateAfter, AfterExits;
    var bars := StoppedOut(s);
    EnteredOnDayOne(bars, s);
    OneStopped(StateAfter(CONFIG, Fresh(1000.0), bars, 1), bars[1]);
    NextState(CONFIG, Fresh(1000.0), bars, 1);
  }

  lemma DayTwoRealizesNothing(bars: seq<BarInput>)
    requires |bars| == 3 && bars[0].day == bars[1].day == 1 && bars[2].day == 2
    requires BarProfit(CONFIG, 1000.0, bars, 2) == 0.0
    ensures ProfitOn(CONFIG, 1000.0, bars, 3, 2) == 0.0
  {
    hide BarProfit;
    assert ProfitOn(CONFIG, 1000.0, bars, 1, 2) == 0.0;
    assert ProfitOn(CONFIG, 1000.0, bars, 2, 2) == 0.0;
  }

  lemma OverTheCap(risk: RiskState)
    requires risk.accountEquity == 1000.0 && risk.openPositions < 3 && risk.DailyPnlMtm() <= -20.0
    ensures PreCheck(CONFIG.risk, risk, CLEAR) == Rejected(DailyLossCapMtm)
  {
    assert DailyCap(CONFIG.risk, 1000.0) == 20.0;
  }

  /** Day 2 has realized nothing and holds nothing, and its signal is rejected all
      the same, for day 1's realized loss. */
  lemma YesterdaysLossBlocksToday(s: Signal)
    requires LongFrom100(s)
    ensures var bars, before := StoppedOut(s), StateAfter(CONFIG, Fresh(1000.0), StoppedOut(s), 2);
            && ProfitOn(CONFIG, 1000.0, bars, 3, 2) == 0.0 && before.book.positions == []
            && PreCheck(CONFIG.risk, AfterExits(CONFIG, before, bars[2]).risk, bars[2].checks) == Rejected(DailyLossCapMtm)
            && Breached(CONFIG, 1000.0, before)
  {
    var bars := StoppedOut(s);
    var before := StateAfter(CONFIG, Fresh(1000.0), bars, 2);
    StoppedOutOnDayOne(s);
    assert BarProfit(CONFIG, 1000.0, bars, 2) == 0.0;
    hide StateAfter, AfterExits, PreCheck, ProfitOn, BarProfit;
    AlwaysSound(CONFIG, 1000.0, bars, 2);
    assert before.risk.openPositions == 0;
    FlatRiskState(CONFIG, before, bars[2]);
    OverTheCap(AfterExits(CONFIG, before, bars[2]).risk);
    DayTwoRealizesNothing(bars);
    assert DailyCap(CONFIG.risk, 1000.0) == 20.0;
  }

  lemma OneKept(st: LoopState, bar: BarInput)
    requires st.book.positions == [HELD] && bar.low == 94.0 && bar.high < 120.0 && bar.close == 95.0
    ensures AfterExits(CONFIG, st, bar).book == st.book && ExitPnl(st.book.positions, bar) == 0.0
    ensures AfterExits(CONFIG, st, bar).risk == st.risk.(dailyUnrealizedPnl := -25.0)
  {
    var ps := st.book.positions;
    assert ps[..1] == ps && ps[..0] == [];
    assert PositionPnl(HELD, 95.0) == -25.0;
    assert !TakenOut(ps[0], bar);
    assert Survivors(ps, bar) == ps && ExitPnl(ps, bar) == 0.0;
    assert ExitCount(ps[..0], bar) == 0;
    assert ExitCount(ps, bar) == 0;
    assert Survivors(ps, bar) + ps[1..] == ps;
    assert forall last: Prices :: "X" in last && last["X"] == 95.0 ==> Unrealized(ps, last) == -25.0;
    hide Survivors, ExitPnl, ExitCount, PositionPnl, Unrealized;
  }

  lemma HeldAfterDayOne(s: Signal)
    requires LongFrom100(s)
    ensures var st := StateAfter(CONFIG, Fresh(1000.0), HeldOverNight(s), 2);
            st.book.positions == [HELD] && st.risk == RiskState(1000.0, 0.0, -25.0, 1, false, EQUITY)
  {
    hide StateAfter, AfterExits;
    var bars := HeldOverNight(s);
    EnteredOnDayOne(bars, s);
    OneKept(StateAfter(CONFIG, Fresh(1000.0), bars, 1), bars[1]);
    NextState(CONFIG, Fresh(1000.0), bars, 1);
  }

  /** No day realizes anything, and day 2 does not move the account at all; its
      signal is rejected for the mark that day 1 left on the open position. */
  lemma YesterdaysMarkBlocksToday(s: Signal)
    requires LongFrom100(s)
    ensures var bars, before := HeldOverNight(s), StateAfter(CONFIG, Fresh(1000.0), HeldOverNight(s), 2);
            && ProfitElsewhere(CONFIG, 1000.0, bars, 2, 2) == 0.0
            && MoveOn(CONFIG, 1000.0, bars, 3, 2) == 0.0 && MtmAfter(CONFIG, 1000.0, bars, 2) == -25.0
            && PreCheck(CONFIG.risk, AfterExits(CONFIG, before, bars[2]).risk, bars[2].checks) == Rejected(DailyLossCapMtm)
  {
    hide StateAfter, AfterExits, PreCheck, MoveOn, BarMove, ProfitElsewhere, ProfitOn, ExitPnl;
    var bars := HeldOverNight(s);
    var before := StateAfter(CONFIG, Fresh(1000.0), bars, 2);
    HeldAfterDayOne(s);
    OneKept(before, bars[2]);
    OverTheCap(AfterExits(CONFIG, before, bars[2]).risk);
    CapReadsMtmAfter(CONFIG, 1000.0, bars, 2);
    NoMoveBefore(CONFIG, 1000.0, bars, 2, 2);
    MoveIsDifference(CONFIG, 1000.0, bars, 2, 3, 2);
    TotalOfAllDays(CONFIG, 1000.0, bars, 2, 2);
    NothingOnDayTwoYet(bars);
  }

  lemma NothingOnDayTwoYet(bars: seq<BarInput>)
    requires |bars| == 3 && bars[0].day == bars[1].day == 1
    ensures ProfitOn(CONFIG, 1000.0, bars, 2, 2) == 0.0
  {
    hide BarProfit;
    assert ProfitOn(CONFIG, 1000.0, bars, 1, 2) == 0.0;
  }
}
