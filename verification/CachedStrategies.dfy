// Strategies that decide on cached indicator rows, run by the backtester: the
// cache brings no look ahead into a run.

module CachedStrategies {
  import opened Wrappers
  import opened Engine
  import opened EngineTheorems
  import opened Indicators
  import opened IndicatorCache

  /** What a strategy looks at, and what it makes of the closed bars and the rows. */
  datatype Recipe = Recipe(indicators: seq<Indicator>, decide: (seq<Bar>, seq<Series>) -> StrategyOutcome)

  function Candles(bars: seq<Bar>): seq<Candle> {
    seq(|bars|, i requires 0 <= i < |bars| => Candle(bars[i].high, bars[i].low, bars[i].close))
  }

  /** The rows up to bar `i`, served from the cache that a session left behind. */
  function ServedRows(indicators: seq<Indicator>, session: seq<Request>, frame: seq<Candle>, i: nat): (rows: seq<Series>)
    requires AllValid(indicators) && RequestsOk(session, frame) && i < |frame|
    ensures |rows| == |indicators|
  {
    seq(|indicators|, k requires 0 <= k < |indicators| =>
      CacheIsInvisible(session, frame, i, indicators[k]);
      Serve(AfterSession(session, frame), indicators[k], ClosedBars(frame, i))[..i + 1])
  }

  function FreshRows(indicators: seq<Indicator>, closed: seq<Candle>): (rows: seq<Series>)
    requires AllValid(indicators)
    ensures |rows| == |indicators|
  {
    seq(|indicators|, k requires 0 <= k < |indicators| => Compute(indicators[k], closed))
  }

  function Decision(r: Recipe, session: seq<Request>, bars: seq<Bar>, i: nat): StrategyOutcome
    requires AllValid(r.indicators) && RequestsOk(session, Candles(bars)) && i < |bars|
  {
    r.decide(bars[..i + 1], ServedRows(r.indicators, session, Candles(bars), i))
  }

  /** On every bar of every frame, the strategy decides on rows served from a cache
      that some session on that frame has left behind. */
  ghost predicate DecidesOnServedRows(strategy: (seq<Bar>, nat) -> StrategyOutcome, r: Recipe)
    requires AllValid(r.indicators)
  {
    forall bars: seq<Bar>, i: nat :: i < |bars| ==>
      exists session: seq<Request> ::
        RequestsOk(session, Candles(bars)) && strategy(bars, i) == Decision(r, session, bars, i)
  }

  lemma ServedRowsAreFresh(indicators: seq<Indicator>, session: seq<Request>, frame: seq<Candle>, i: nat)
    requires AllValid(indicators) && RequestsOk(session, frame) && i < |frame|
    ensures ServedRows(indicators, session, frame, i) == FreshRows(indicators, frame[..i + 1])
  {
    var served, fresh_ := ServedRows(indicators, session, frame, i), FreshRows(indicators, frame[..i + 1]);
    forall k | 0 <= k < |indicators|
      ensures served[k] == fresh_[k]
    {
      CacheIsInvisible(session, frame, i, indicators[k]);
    }
    hide AfterSession, Serve, Compute;
  }

  /** Whatever the cache went through, the decision is one on the closed bars. */
  lemma DecisionIsOnClosedBars(r: Recipe, session: seq<Request>, bars: seq<Bar>, i: nat)
    requires AllValid(r.indicators) && RequestsOk(session, Candles(bars)) && i < |bars|
    ensures Decision(r, session, bars, i) == r.decide(bars[..i + 1], FreshRows(r.indicators, Candles(bars[..i + 1])))
  {
    assert Candles(bars)[..i + 1] == Candles(bars[..i + 1]);
    hide AfterSession, FreshRows, ServedRows;
    ServedRowsAreFresh(r.indicators, session, Candles(bars), i);
  }

  /** So a strategy that decides on served rows reads closed bars only. */
  lemma CachedStrategyReadsOnlyClosedBars(strategy: (seq<Bar>, nat) -> StrategyOutcome, r: Recipe)
    requires AllValid(r.indicators) && DecidesOnServedRows(strategy, r)
    ensures ReadsOnlyClosedBars(strategy)
  {
    forall f1: seq<Bar>, f2: seq<Bar>, i: nat | i < |f1| && i < |f2| && f1[..i + 1] == f2[..i + 1]
      ensures strategy(f1, i) == strategy(f2, i)
    {
      var s1: seq<Request> :| RequestsOk(s1, Candles(f1)) && strategy(f1, i) == Decision(r, s1, f1, i);
      var s2: seq<Request> :| RequestsOk(s2, Candles(f2)) && strategy(f2, i) == Decision(r, s2, f2, i);
      hide Decision, FreshRows, Candles, RequestsOk;
      DecisionIsOnClosedBars(r, s1, f1, i);
      DecisionIsOnClosedBars(r, s2, f2, i);
    }
  }

  /** And a run with it on the first `n` bars is the beginning of the full run. */
  lemma CachedRunHasNoLookahead(b: Backtest, r: Recipe, n: nat) returns (later: seq<ClosedTrade>)
    requires AllValid(r.indicators) && DecidesOnServedRows(b.strategy, r) && n <= |b.bars|
    ensures var short, full := StateAfter(Truncated(b, n), n), StateAfter(b, |b.bars|);
            && |full.curve| == |b.bars| && short.curve == full.curve[..n]
            && full.closed == short.closed + later
            && ExitsWithin(short.closed, 0, n) && ExitsWithin(later, n, |b.bars|)
  {
    hide *;
    CachedStrategyReadsOnlyClosedBars(b.strategy, r);
    later := NoLookahead(b, n);
  }
}
