// What the rows of each indicator are, spelt out on the candles alone.

module IndicatorRows {
  import opened Wrappers
  import opened RealMath
  import opened Indicators

  // ----- recurrences

  /** Twice the new value and span - 1 times the old, over span + 1. */
  predicate EmaStepOf(span: int, now: real, x: real, prev: real) {
    (span as real + 1.0) * now == 2.0 * x + (span as real - 1.0) * prev
  }

  /** The new value and period - 1 times the old, over the period. */
  predicate WilderStepOf(period: int, now: real, x: real, prev: real) {
    period as real * now == x + (period as real - 1.0) * prev
  }

  /** The mean of `period` - 1 values that add up to `total`. */
  predicate SeedOf(period: int, seed: real, total: real) {
    seed * (period as real - 1.0) == total
  }

  /** In percent, the share of `gain` in `gain` and `loss` together. */
  predicate ShareOf(share: real, gain: real, loss: real) {
    share * (gain + loss) == 100.0 * gain
  }

  lemma EmaStep(span: int, x: real, prev: real)
    requires span >= 1
    ensures EmaStepOf(span, Blend(EmaAlpha(span), x, prev), x, prev)
  {
    var n, a := span as real + 1.0, EmaAlpha(span);
    assert n * a == 2.0;
    WeightedStep(n, a, 2.0, x, prev);
  }

  lemma WilderStep(period: int, x: real, prev: real)
    requires period >= 1
    ensures WilderStepOf(period, Blend(1.0 / (period as real), x, prev), x, prev)
  {
    var n, a := period as real, 1.0 / (period as real);
    assert n * a == 1.0;
    WeightedStep(n, a, 1.0, x, prev);
  }

  lemma WeightedStep(n: real, a: real, k: real, x: real, prev: real)
    requires n * a == k
    ensures n * Blend(a, x, prev) == k * x + (n - k) * prev
  {
    assert n * (a * x) == (n * a) * x;
    assert n * ((1.0 - a) * prev) == (n - n * a) * prev;
  }

  /** EMA rows: the first close, then twice the close and span - 1 times the row
      before, over span + 1. */
  lemma EmaRows(c: seq<Candle>, span: int, i: nat)
    requires span >= 1 && i < |c|
    ensures var rows := Compute(EMA(span), c);
            && rows[i].Scalar? && rows[i].n.Val?
            && (i == 0 ==> rows[0].n.v == c[0].close)
            && (i > 0 ==>
                  && rows[i - 1].Scalar? && rows[i - 1].n.Val?
                  && EmaStepOf(span, rows[i].n.v, c[i].close, rows[i - 1].n.v))
  {
    if i > 0 {
      EmaStep(span, c[i].close, EwmAt(Closes(c), EmaAlpha(span), i - 1));
    }
    hide EmaAlpha, Blend, EmaStepOf;
  }

  /** `t` is the largest of the three ranges of bar `i`. */
  predicate TrueRangeOf(c: seq<Candle>, i: nat, t: real)
    requires i < |c|
  {
    if i == 0 then t == c[0].high - c[0].low
    else
      var range, up, down := c[i].high - c[i].low, c[i].high - c[i - 1].close, c[i].low - c[i - 1].close;
      && t >= range && t >= up && t >= -up && t >= down && t >= -down
      && (t == range || t == up || t == -up || t == down || t == -down)
  }

  /** ATR rows: the first range, then the true range and period - 1 times the row
      before, over the period. */
  lemma AtrRows(c: seq<Candle>, period: int, i: nat) returns (t: real)
    requires period >= 1 && i < |c|
    ensures TrueRangeOf(c, i, t)
    ensures var rows := Compute(ATR(period), c);
            && rows[i].Scalar? && rows[i].n.Val?
            && (i == 0 ==> rows[0].n.v == t)
            && (i > 0 ==>
                  && rows[i - 1].Scalar? && rows[i - 1].n.Val?
                  && WilderStepOf(period, rows[i].n.v, t, rows[i - 1].n.v))
  {
    t := TrueRangeAt(c, i);
    TrueRangeIs(c, i);
    AtrStep(c, period, i);
    var rows := Compute(ATR(period), c);
    assert rows[i] == Scalar(Val(AtrAt(c, period, i)));
    assert i > 0 ==> rows[i - 1] == Scalar(Val(AtrAt(c, period, i - 1)));
    hide TrueRangeAt, TrueRangeOf, AtrAt, Compute, WilderStepOf;
  }

  lemma TrueRangeIs(c: seq<Candle>, i: nat)
    requires i < |c|
    ensures TrueRangeOf(c, i, TrueRangeAt(c, i))
  {
  }

  lemma AtrStep(c: seq<Candle>, period: int, i: nat)
    requires period >= 1 && i < |c|
    ensures i == 0 ==> AtrAt(c, period, 0) == TrueRangeAt(c, 0)
    ensures i > 0 ==> WilderStepOf(period, AtrAt(c, period, i), TrueRangeAt(c, i), AtrAt(c, period, i - 1))
  {
    if i > 0 {
      WilderStep(period, TrueRangeAt(c, i), AtrAt(c, period, i - 1));
    }
    hide Blend, TrueRangeAt, WilderStepOf;
  }

  /** Supertrend's basic bands: around the middle of the bar, `multiplier` times
      its ATR row to either side. */
  lemma BasicBands(c: seq<Candle>, period: int, multiplier: real, i: nat)
    requires period >= 1 && i < |c|
    ensures var row := Compute(ATR(period), c)[i];
            && row.Scalar? && row.n.Val?
            && BasicUpper(c, period, multiplier, i) + BasicLower(c, period, multiplier, i) == c[i].high + c[i].low
            && BasicUpper(c, period, multiplier, i) - BasicLower(c, period, multiplier, i) == 2.0 * (multiplier * row.n.v)
  {
    hide EwmAt;
  }

  /** The first bar starts on both basic bands, pointing up. */
  lemma FirstBand(c: seq<Candle>, period: int, multiplier: real)
    requires period >= 1 && multiplier > 0.0 && |c| > 0
    ensures Compute(Supertrend(period, multiplier), c)[0] ==
            Trend(Band(BasicUpper(c, period, multiplier, 0), BasicLower(c, period, multiplier, 0), 1, BasicLower(c, period, multiplier, 0)))
  {
    hide BasicUpper, BasicLower;
  }

  // ----- RSI

  /** How far the closes moved up, or down, on bars 1 to n - 1, all added up. */
  function TotalMove(c: seq<Candle>, n: nat, up: bool): real
    requires 1 <= n <= |c|
  {
    if n == 1 then 0.0 else TotalMove(c, n - 1, up) + MoveOf(c, n - 1, up)
  }

  function MoveOf(c: seq<Candle>, i: nat, up: bool): real
    requires 0 < i < |c|
  {
    var d := c[i].close - c[i - 1].close;
    if up then (if d > 0.0 then d else 0.0) else (if d < 0.0 then -d else 0.0)
  }

  function Average(c: seq<Candle>, period: int, i: nat, up: bool): Num
    requires period >= 1 && i < |c|
  {
    if up then RmaAt(Gains(c), period, i) else RmaAt(Losses(c), period, i)
  }

  function Moves(c: seq<Candle>, up: bool): (s: seq<Num>)
    ensures |s| == |c|
  {
    if up then Gains(c) else Losses(c)
  }

  lemma MovesAre(c: seq<Candle>, up: bool, i: nat)
    requires i < |c|
    ensures Moves(c, up)[i] == if i == 0 then NaN else Val(MoveOf(c, i, up))
  {
    GainAndLoss(c, i);
    hide Gains, Losses;
    if i > 0 {
      MoveIs(c[i].close, c[i - 1].close);
    }
  }

  lemma GainAndLoss(c: seq<Candle>, i: nat)
    requires i < |c|
    ensures Gains(c)[i] == if i == 0 then NaN else Val(Max(c[i].close - c[i - 1].close, 0.0))
    ensures Losses(c)[i] == if i == 0 then NaN else Val(Max(c[i - 1].close - c[i].close, 0.0))
  {
    hide Max;
  }

  lemma MoveIs(now: real, before: real)
    ensures Max(now - before, 0.0) == if now - before > 0.0 then now - before else 0.0
    ensures Max(before - now, 0.0) == if now - before < 0.0 then -(now - before) else 0.0
  {
  }

  lemma OneMoreCounted(s: seq<Num>, x: Num)
    ensures CountValues(s + [x]) == CountValues(s) + if x.Val? then 1 else 0
    ensures SumSkipNaN(s + [x]) == SumSkipNaN(s) + if x.Val? then x.v else 0.0
  {
    assert (s + [x])[..|s|] == s;
  }

  lemma {:induction false} SeedParts(c: seq<Candle>, up: bool, n: nat)
    requires 1 <= n <= |c|
    ensures CountValues(Moves(c, up)[..n]) == n - 1 && SumSkipNaN(Moves(c, up)[..n]) == TotalMove(c, n, up)
  {
    hide Moves, MoveOf, CountValues, SumSkipNaN;
    var s := Moves(c, up);
    MovesAre(c, up, n - 1);
    assert s[..n] == s[..n - 1] + [s[n - 1]];
    OneMoreCounted(s[..n - 1], s[n - 1]);
    if n == 1 {
      NothingCounted(s[..0]);
    } else {
      SeedParts(c, up, n - 1);
    }
  }

  lemma NothingCounted(s: seq<Num>)
    requires s == []
    ensures CountValues(s) == 0 && SumSkipNaN(s) == 0.0
  {
  }

  /** The three cases of the smoothing, for the moves of either direction. */
  lemma AverageCases(c: seq<Candle>, period: int, i: nat, up: bool)
    requires period >= 1 && i < |c|
    ensures i < period - 1 ==> Average(c, period, i, up) == NaN
    ensures i == period - 1 ==> Average(c, period, i, up) == MeanSkipNaN(Moves(c, up)[..period])
    ensures i >= period ==>
              Average(c, period, i, up) == Mix(1.0 / (period as real), Moves(c, up)[i], Average(c, period, i - 1, up))
  {
    hide Gains, Losses, MeanSkipNaN, Mix;
  }

  lemma SeedRow(c: seq<Candle>, period: int, up: bool)
    requires 1 <= period <= |c|
    ensures var seed := MeanSkipNaN(Moves(c, up)[..period]);
            && (seed.NaN? <==> period == 1)
            && (period > 1 ==> SeedOf(period, seed.v, TotalMove(c, period, up)))
  {
    hide *;
    SeedParts(c, up, period);
    MeanIs(Moves(c, up)[..period], period, TotalMove(c, period, up));
  }

  lemma MeanIs(s: seq<Num>, period: int, total: real)
    requires period >= 1 && CountValues(s) == period - 1 && SumSkipNaN(s) == total
    ensures MeanSkipNaN(s).NaN? <==> period == 1
    ensures period > 1 ==> SeedOf(period, MeanSkipNaN(s).v, total)
  {
    hide SumSkipNaN, CountValues, SeedOf;
    if period > 1 {
      SeedMean(total, period);
    }
  }

  /** The smoothed gain, or loss, of a bar: unset before the seed, seeded with the
      mean of the moves so far, and then Wilder's recurrence.  The first bar moves
      nowhere, so a seed over `period` bars is a mean of one move less. */
  lemma {:induction false} AverageRows(c: seq<Candle>, period: int, i: nat, up: bool)
    requires period >= 1 && i < |c|
    ensures Average(c, period, i, up).NaN? <==> period == 1 || i < period - 1
    ensures period > 1 && i == period - 1 ==>
              SeedOf(period, Average(c, period, i, up).v, TotalMove(c, period, up))
    ensures period > 1 && i >= period ==>
              && Average(c, period, i - 1, up).Val?
              && WilderStepOf(period, Average(c, period, i, up).v, MoveOf(c, i, up), Average(c, period, i - 1, up).v)
  {
    hide *;
    AverageCases(c, period, i, up);
    if i == period - 1 {
      SeedRow(c, period, up);
    } else if i >= period {
      AverageRows(c, period, i - 1, up);
      MovesAre(c, up, i);
      MixIs(period, MoveOf(c, i, up), Average(c, period, i - 1, up));
    }
  }

  lemma MixIs(period: int, x: real, prev: Num)
    requires period >= 1
    ensures Mix(1.0 / (period as real), Val(x), prev).NaN? <==> prev.NaN?
    ensures prev.Val? ==> WilderStepOf(period, Mix(1.0 / (period as real), Val(x), prev).v, x, prev.v)
  {
    hide Blend, WilderStepOf;
    if prev.Val? {
      WilderStep(period, x, prev.v);
    }
  }

  lemma SeedMean(total: real, period: int)
    requires period > 1
    ensures SeedOf(period, total / ((period - 1) as real), total)
  {
  }

  /** RSI rows: unset with the averages; 50 where nothing moved; and otherwise the
      gain's share of the two averages, in percent. */
  lemma RsiRows(c: seq<Candle>, period: int, i: nat)
    requires period >= 1 && i < |c|
    ensures var row, gain, loss := Compute(RSI(period), c)[i], Average(c, period, i, true), Average(c, period, i, false);
            && row.Scalar? && (row.n.NaN? <==> gain.NaN? || loss.NaN?)
            && (row.n.Val? ==>
                  && gain.v >= 0.0 && loss.v >= 0.0
                  && ShareOf(row.n.v, gain.v, loss.v)
                  && (gain.v == 0.0 && loss.v == 0.0 ==> row.n.v == 50.0))
  {
    RmaNonNegative(Gains(c), period, i);
    RmaNonNegative(Losses(c), period, i);
    var gain, loss := Average(c, period, i, true), Average(c, period, i, false);
    assert Compute(RSI(period), c)[i] == Scalar(RsiOf(gain, loss));
    hide Gains, Losses, RmaAt, Average, Compute;
    RsiIsShare(gain, loss);
    hide RsiOf, ShareOf;
  }

  lemma RsiIsShare(gain: Num, loss: Num)
    requires NonNegative(gain) && NonNegative(loss)
    ensures RsiOf(gain, loss).NaN? <==> gain.NaN? || loss.NaN?
    ensures gain.Val? && loss.Val? ==> ShareOf(RsiOf(gain, loss).v, gain.v, loss.v)
    ensures gain.Val? && loss.Val? && gain.v == 0.0 && loss.v == 0.0 ==> RsiOf(gain, loss).v == 50.0
  {
    if gain.Val? && loss.Val? && gain.v > 0.0 && loss.v > 0.0 {
      QuotientShare(gain.v, loss.v);
    }
  }

  lemma QuotientShare(gain: real, loss: real)
    requires gain > 0.0 && loss > 0.0
    ensures gain / loss > 0.0 && ShareOf(100.0 - 100.0 / (1.0 + gain / loss), gain, loss)
  {
    var q := gain / loss;
    QuotientPositive(gain, loss);
    assert q * loss == gain;
    var part := 100.0 / (1.0 + q);
    assert part * (1.0 + q) == 100.0;
    assert part * (1.0 + q) * loss == part * (loss + q * loss);
    assert part * (gain + loss) == 100.0 * loss;
  }
}
