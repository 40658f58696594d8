// The trading loop over a paper broker: exits first, then at most one signal
// per bar through risk, analyst, sizing and the broker.

module PaperLoop {
  import opened Wrappers
  import opened RealMath
  import opened Signals
  import opened Risk
  import opened Paper

  datatype LoopConfig = LoopConfig(
    risk: RiskConfig, slippageBps: real, instrument: Option<Instrument>,
    overrideQty: Option<int>, strategySymbol: string)
  {
    predicate Valid() { risk.Valid() && InstrumentOk(instrument) }
  }

  datatype Verdict = Veto | Sized(multiplier: real)

  /** One bar with its trading day, and everything decided elsewhere about it: the
      scheduler's answer, the strategy's signals, the risk surroundings, the
      analyst's verdict. */
  datatype BarInput = BarInput(
    day: int, allowed: bool, high: real, low: real, close: real,
    signals: seq<Signal>, checks: Checks, verdict: Option<Verdict>)

  datatype Stats = Stats(signalsSeen: nat, riskRejected: nat, analystVetoed: nat, ordersPlaced: nat, barExits: nat)

  datatype LoopState = LoopState(book: Book, risk: RiskState, stats: Stats, lastPrices: Prices)

  function Initial(book: Book): LoopState {
    LoopState(book, RiskState(book.equity, 0.0, 0.0, 0, false, EQUITY), Stats(0, 0, 0, 0, 0), map[])
  }

  // ----- exits of one bar

  predicate TakenOut(p: Position, bar: BarInput) { BarExit(p, bar.high, bar.low).Some? }

  function Survivors(ps: seq<Position>, bar: BarInput): seq<Position> {
    if ps == [] then []
    else Survivors(ps[..|ps| - 1], bar) + if TakenOut(ps[|ps| - 1], bar) then [] else [ps[|ps| - 1]]
  }

  function ExitCount(ps: seq<Position>, bar: BarInput): nat {
    if ps == [] then 0 else ExitCount(ps[..|ps| - 1], bar) + if TakenOut(ps[|ps| - 1], bar) then 1 else 0
  }

  function ExitPnl(ps: seq<Position>, bar: BarInput): real {
    if ps == [] then 0.0
    else
      var p := ps[|ps| - 1];
      ExitPnl(ps[..|ps| - 1], bar) + if TakenOut(p, bar) then PositionPnl(p, BarExit(p, bar.high, bar.low).value) else 0.0
  }

  function Quoted(last: Prices, ps: seq<Position>, close: real): Prices {
    if ps == [] then last else Quoted(last, ps[..|ps| - 1], close)[ps[|ps| - 1].symbol := close]
  }

  /** The loop state once the first `n` open positions have met the bar. */
  function Swept(st: LoopState, bar: BarInput, n: nat): LoopState
    requires n <= |st.book.positions|
  {
    var ps := st.book.positions[..n];
    var pnl := ExitPnl(ps, bar);
    var held := Survivors(ps, bar) + st.book.positions[n..];
    LoopState(
      st.book.(positions := held, equity := st.book.equity + pnl, realizedPnl := st.book.realizedPnl + pnl),
      st.risk.(dailyRealizedPnl := st.risk.dailyRealizedPnl + pnl,
               openPositions := if ExitCount(ps, bar) > 0 then |held| else st.risk.openPositions),
      st.stats.(barExits := st.stats.barExits + ExitCount(ps, bar)),
      Quoted(st.lastPrices, ps, bar.close))
  }

  /** One position, found at place `at`, meets the bar. */
  function MetBar(st: LoopState, at: nat, bar: BarInput): LoopState
    requires at < |st.book.positions|
  {
    var p := st.book.positions[at];
    var exit := BarExit(p, bar.high, bar.low);
    var quoted := st.(lastPrices := st.lastPrices[p.symbol := bar.close]);
    if exit.None? then quoted
    else
      var book := ClosedAt(st.book, at, exit.value);
      quoted.(book := book,
              risk := st.risk.(dailyRealizedPnl := st.risk.dailyRealizedPnl + PositionPnl(p, exit.value),
                               openPositions := |book.positions|),
              stats := st.stats.(barExits := st.stats.barExits + 1))
  }

  /** After the sweep the account is marked to market at the bar's close. */
  function AfterExits(cfg: LoopConfig, st: LoopState, bar: BarInput): LoopState {
    var swept := Swept(st, bar, |st.book.positions|);
    var last := swept.lastPrices[cfg.strategySymbol := bar.close];
    swept.(lastPrices := last, risk := swept.risk.(dailyUnrealizedPnl := Unrealized(swept.book.positions, last)))
  }

  // ----- one signal

  function Multiplier(verdict: Option<Verdict>): real {
    if verdict.Some? && verdict.value.Sized? then verdict.value.multiplier else 1.0
  }

  /** The quantity a signal is submitted with, or why it is not. */
  datatype Submission = RiskRejected | Vetoed | Submit(qty: int)

  function Submitted(cfg: LoopConfig, risk: RiskState, s: Signal, bar: BarInput): Submission
    requires cfg.Valid()
  {
    if PreCheck(cfg.risk, risk, bar.checks) != Approved then RiskRejected
    else if bar.verdict == Some(Veto) then Vetoed
    else
      var qty := Size(cfg.risk, s, risk.accountEquity, cfg.instrument, Multiplier(bar.verdict));
      if PostCheck(cfg.risk, s, risk.accountEquity, qty, cfg.instrument) != Approved then RiskRejected
      else
        var capped := ApplyQtyCap(cfg.overrideQty, cfg.instrument, qty);
        if capped <= 0 then RiskRejected else Submit(capped)
  }

  function Processed(cfg: LoopConfig, st: LoopState, s: Signal, bar: BarInput): LoopState
    requires cfg.Valid()
  {
    match Submitted(cfg, st.risk, s, bar)
    case RiskRejected => st.(stats := st.stats.(riskRejected := st.stats.riskRejected + 1))
    case Vetoed => st.(stats := st.stats.(analystVetoed := st.stats.analystVetoed + 1))
    case Submit(qty) =>
      var book := Placed(st.book, s, qty, cfg.slippageBps);
      if Fills(st.book, s, qty) then
        st.(book := book, stats := st.stats.(ordersPlaced := st.stats.ordersPlaced + 1),
            risk := st.risk.(openPositions := |book.positions|))
      else st
  }

  function Seen(st: LoopState): LoopState {
    st.(stats := st.stats.(signalsSeen := st.stats.signalsSeen + 1))
  }

  function Counted(st: LoopState): LoopState {
    st.(risk := st.risk.(openPositions := |st.book.positions|))
  }

  function Tick(cfg: LoopConfig, st: LoopState, bar: BarInput): LoopState
    requires cfg.Valid()
  {
    if !bar.allowed then st
    else
      var exited := AfterExits(cfg, st, bar);
      if bar.signals == [] then exited
      else Counted(Processed(cfg, Seen(exited), bar.signals[0], bar))
  }

  function StateAfter(cfg: LoopConfig, book: Book, bars: seq<BarInput>, n: nat): LoopState
    requires cfg.Valid() && n <= |bars|
  {
    if n == 0 then Initial(book) else Tick(cfg, StateAfter(cfg, book, bars, n - 1), bars[n - 1])
  }

  // ----- the loop itself

  ghost predicate Apart(a: seq<Position>, b: seq<Position>) {
    forall i, j :: 0 <= i < |a| && 0 <= j < |b| ==> a[i].symbol != b[j].symbol
  }

  lemma JoinUnique(a: seq<Position>, b: seq<Position>)
    requires OnePerSymbol(a) && OnePerSymbol(b) && Apart(a, b)
    ensures OnePerSymbol(a + b)
  {
  }

  lemma SplitUnique(s: seq<Position>, n: nat)
    requires n <= |s| && OnePerSymbol(s)
    ensures OnePerSymbol(s[..n]) && OnePerSymbol(s[n..]) && Apart(s[..n], s[n..])
  {
  }

  lemma {:induction false} SurvivorsApart(ps: seq<Position>, bar: BarInput, others: seq<Position>)
    requires Apart(ps, others)
    ensures Apart(Survivors(ps, bar), others)
  {
    if ps != [] {
      SurvivorsApart(ps[..|ps| - 1], bar, others);
      hide TakenOut;
    }
  }

  lemma {:induction false} SurvivorsUnique(ps: seq<Position>, bar: BarInput)
    requires OnePerSymbol(ps)
    ensures OnePerSymbol(Survivors(ps, bar))
  {
    hide TakenOut;
    if ps != [] {
      var init, last := ps[..|ps| - 1], ps[|ps| - 1..];
      SplitUnique(ps, |ps| - 1);
      SurvivorsUnique(init, bar);
      SurvivorsApart(init, bar, last);
      JoinUnique(Survivors(init, bar), last);
    }
  }

  /** Positions are conserved: each is kept or counted as an exit. */
  lemma {:induction false} KeptOrExited(ps: seq<Position>, bar: BarInput)
    ensures |Survivors(ps, bar)| + ExitCount(ps, bar) == |ps|
  {
    if ps != [] {
      KeptOrExited(ps[..|ps| - 1], bar);
      hide TakenOut;
    }
  }

  /** In the middle of the exit sweep, the next position is where it should be. */
  lemma NextInSweep(ps: seq<Position>, n: nat, bar: BarInput)
    requires n < |ps| && OnePerSymbol(ps)
    ensures ps[..n + 1][..n] == ps[..n]
    ensures var kept := Survivors(ps[..n], bar);
            var held := kept + ps[n..];
            && OnePerSymbol(held) && held[|kept|] == ps[n]
            && Without(held, |kept|) == kept + ps[n + 1..]
  {
    hide TakenOut, Survivors;
    var kept := Survivors(ps[..n], bar);
    SplitUnique(ps, n);
    SurvivorsUnique(ps[..n], bar);
    SurvivorsApart(ps[..n], bar, ps[n..]);
    JoinUnique(kept, ps[n..]);
  }

  /** Sweeping one position further is that position meeting the bar. */
  lemma SweepStep(st: LoopState, bar: BarInput, n: nat)
    requires n < |st.book.positions| && OnePerSymbol(st.book.positions)
    ensures var now, at := Swept(st, bar, n), |Survivors(st.book.positions[..n], bar)|;
            && OnePerSymbol(now.book.positions)
            && at < |now.book.positions| && now.book.positions[at] == st.book.positions[n]
            && Swept(st, bar, n + 1) == MetBar(now, at, bar)
  {
    var ps := st.book.positions;
    NextInSweep(ps, n, bar);
    hide PositionPnl, BarExit, OnePerSymbol;
    assert ps[..n + 1][n] == ps[n];
    if !TakenOut(ps[n], bar) {
      assert Survivors(ps[..n], bar) + [ps[n]] + ps[n + 1..] == Survivors(ps[..n], bar) + ps[n..];
    }
  }

  lemma SweepEnds(st: LoopState, bar: BarInput)
    requires OnePerSymbol(st.book.positions)
    ensures Swept(st, bar, 0) == st
    ensures var n := |st.book.positions|;
            && OnePerSymbol(Swept(st, bar, n).book.positions)
            && Swept(st, bar, n).book.positions == Survivors(st.book.positions, bar)
  {
    var ps := st.book.positions;
    SurvivorsUnique(ps, bar);
    assert ps[..|ps|] == ps && ps[..0] == [];
    hide OnePerSymbol;
  }

  lemma PlacedUnique(b: Book, s: Signal, qty: int, slippageBps: real)
    requires OnePerSymbol(b.positions)
    ensures OnePerSymbol(Placed(b, s, qty, slippageBps).positions)
  {
  }

  lemma ProcessedBook(cfg: LoopConfig, st: LoopState, s: Signal, bar: BarInput)
    requires cfg.Valid() && OnePerSymbol(st.book.positions)
    ensures OnePerSymbol(Processed(cfg, st, s, bar).book.positions)
  {
    hide OnePerSymbol, Submitted, Placed;
    if Submitted(cfg, st.risk, s, bar).Submit? {
      PlacedUnique(st.book, s, Submitted(cfg, st.risk, s, bar).qty, cfg.slippageBps);
    }
  }

  class OrchestratorLoop {
    const cfg: LoopConfig
    const broker: PaperBroker
    var risk: RiskState
    var stats: Stats
    var lastPrices: Prices

    ghost predicate Valid()
      reads this, broker
    {
      cfg.Valid() && broker.slippageBps == cfg.slippageBps && OnePerSymbol(broker.positions)
    }

    function Now(): LoopState
      reads this, broker
    {
      LoopState(broker.Snapshot(), risk, stats, lastPrices)
    }

    constructor (cfg: LoopConfig, broker: PaperBroker)
      requires cfg.Valid() && broker.slippageBps == cfg.slippageBps && OnePerSymbol(broker.positions)
      ensures this.cfg == cfg && this.broker == broker && Valid()
      ensures Now() == Initial(broker.Snapshot())
    {
      this.cfg, this.broker := cfg, broker;
      risk := RiskState(broker.equity, 0.0, 0.0, 0, false, EQUITY);
      stats, lastPrices := Stats(0, 0, 0, 0, 0), map[];
    }

    method MeetBar(symbol: string, ghost at: nat, bar: BarInput)
      requires Valid() && at < |broker.positions| && broker.positions[at].symbol == symbol
      modifies this, broker
      ensures Now() == MetBar(old(Now()), at, bar)
    {
      var exitPrice := broker.CheckBarExits(symbol, bar.high, bar.low);
      if exitPrice.Some? {
        var pnl := broker.ClosePosition(symbol, exitPrice.value);
        risk := risk.(dailyRealizedPnl := risk.dailyRealizedPnl + pnl, openPositions := |broker.positions|);
        stats := stats.(barExits := stats.barExits + 1);
      }
      lastPrices := lastPrices[symbol := bar.close];
    }

    /** Every position of a snapshot meets the bar, while exits close them. */
    method SweepPositions(bar: BarInput)
      requires Valid()
      modifies this, broker
      ensures Valid() && Now() == Swept(old(Now()), bar, |old(broker.positions)|)
    {
      ghost var st := Now();
      var snapshot := broker.positions;
      SweepEnds(st, bar);
      hide Swept, Survivors, MetBar, OnePerSymbol;
      for n := 0 to |snapshot|
        invariant Now() == Swept(st, bar, n)
      {
        SweepStep(st, bar, n);
        MeetBar(snapshot[n].symbol, |Survivors(snapshot[..n], bar)|, bar);
      }
    }

    method SweepExits(bar: BarInput)
      requires Valid()
      modifies this, broker
      ensures Valid() && Now() == AfterExits(cfg, old(Now()), bar)
    {
      hide Swept, OnePerSymbol, Unrealized;
      SweepPositions(bar);
      lastPrices := lastPrices[cfg.strategySymbol := bar.close];
      var unrealized := broker.MarkToMarket(lastPrices);
      risk := risk.(dailyUnrealizedPnl := unrealized);
    }

    method ProcessSignal(s: Signal, bar: BarInput)
      requires Valid()
      modifies this, broker
      ensures Valid() && Now() == Processed(cfg, old(Now()), s, bar)
    {
      ProcessedBook(cfg, Now(), s, bar);
      var pre := PreCheck(cfg.risk, risk, bar.checks);
      if pre != Approved {
        stats := stats.(riskRejected := stats.riskRejected + 1);
        return;
      }
      var multiplier := 1.0;
      if bar.verdict.Some? {
        if bar.verdict.value == Veto {
          stats := stats.(analystVetoed := stats.analystVetoed + 1);
          return;
        }
        multiplier := bar.verdict.value.multiplier;
      }
      var qty := Size(cfg.risk, s, risk.accountEquity, cfg.instrument, multiplier);
      var post := PostCheck(cfg.risk, s, risk.accountEquity, qty, cfg.instrument);
      if post != Approved {
        stats := stats.(riskRejected := stats.riskRejected + 1);
        return;
      }
      var capped := ApplyQtyCap(cfg.overrideQty, cfg.instrument, qty);
      if capped <= 0 {
        stats := stats.(riskRejected := stats.riskRejected + 1);
        return;
      }
      var order := broker.PlaceBracketOrder(s, capped);
      if order.status == FILLED {
        stats := stats.(ordersPlaced := stats.ordersPlaced + 1);
        risk := risk.(openPositions := |broker.positions|);
      }
    }

    method Run(bars: seq<BarInput>)
      requires Valid() && Now() == Initial(broker.Snapshot())
      modifies this, broker
      ensures Now() == StateAfter(cfg, old(broker.Snapshot()), bars, |bars|)
    {
      ghost var book := broker.Snapshot();
      for n := 0 to |bars|
        invariant Now() == StateAfter(cfg, book, bars, n) && Valid()
      {
        var bar := bars[n];
        if !bar.allowed {
          continue;
        }
        SweepExits(bar);
        if bar.signals == [] {
          continue;
        }
        stats := stats.(signalsSeen := stats.signalsSeen + 1);
        ProcessSignal(bar.signals[0], bar);
        risk := risk.(openPositions := |broker.positions|);
      }
    }
  }
}
