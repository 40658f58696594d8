// Technical indicators as series over candles, and the property the strategies
// rest on: an indicator's value on a bar depends on no later bar.

module Indicators {
  import opened Wrappers
  import opened RealMath

  datatype Candle = Candle(high: real, low: real, close: real)

  /** A series entry; NaN before an indicator is seeded. */
  datatype Num = NaN | Val(v: real)

  datatype Row = Scalar(n: Num) | Trend(band: Band)

  datatype Band = Band(upper: real, lower: real, direction: int, supertrend: real)

  datatype Indicator =
    | EMA(span: int)
    | ATR(period: int)
    | RSI(period: int)
    | Supertrend(period: int, multiplier: real)
  {
    /** The constructors' own checks. */
    predicate Valid() {
      match this
      case EMA(span) => span >= 1
      case ATR(period) => period >= 1
      case RSI(period) => period >= 1
      case Supertrend(period, multiplier) => period >= 1 && multiplier > 0.0
    }
  }

  // ----- exponential smoothing

  function Blend(alpha: real, x: real, prev: real): real { alpha * x + (1.0 - alpha) * prev }

  function EwmAt(xs: seq<real>, alpha: real, i: nat): real
    requires i < |xs|
  {
    if i == 0 then xs[0] else Blend(alpha, xs[i], EwmAt(xs, alpha, i - 1))
  }

  function PartOf(alpha: real, d: real): real { alpha * d }

  lemma BlendMoves(alpha: real, x: real, prev: real)
    ensures Blend(alpha, x, prev) == prev + PartOf(alpha, x - prev) == prev - PartOf(alpha, prev - x)
  {
  }

  lemma PartWithin(alpha: real, d: real)
    requires 0.0 <= alpha <= 1.0 && d >= 0.0
    ensures 0.0 <= PartOf(alpha, d) <= d
  {
    MulOrder(0.0, alpha, d);
    MulOrder(alpha, 1.0, d);
  }

  /** A weighted mean of two values lies between any bounds on them. */
  lemma BlendWithin(alpha: real, x: real, prev: real, lo: real, hi: real)
    requires 0.0 <= alpha <= 1.0 && lo <= x <= hi && lo <= prev <= hi
    ensures lo <= Blend(alpha, x, prev) <= hi
  {
    hide *;
    BlendMoves(alpha, x, prev);
    PartWithin(alpha, if x >= prev then x - prev else prev - x);
  }

  function Closes(c: seq<Candle>): seq<real> {
    seq(|c|, i requires 0 <= i < |c| => c[i].close)
  }

  function EmaAlpha(span: int): real
    requires span >= 1
  {
    2.0 / (span as real + 1.0)
  }

  // ----- true range

  function TrueRangeAt(c: seq<Candle>, i: nat): real
    requires i < |c|
  {
    if i == 0 then c[0].high - c[0].low
    else Max(Max(c[i].high - c[i].low, Abs(c[i].high - c[i - 1].close)), Abs(c[i].low - c[i - 1].close))
  }

  function TrueRanges(c: seq<Candle>): seq<real> {
    seq(|c|, i requires 0 <= i < |c| => TrueRangeAt(c, i))
  }

  function AtrAt(c: seq<Candle>, period: int, i: nat): real
    requires period >= 1 && i < |c|
  {
    EwmAt(TrueRanges(c), 1.0 / (period as real), i)
  }

  // ----- Wilder smoothing and RSI

  function SumSkipNaN(s: seq<Num>): real {
    if s == [] then 0.0 else SumSkipNaN(s[..|s| - 1]) + if s[|s| - 1].Val? then s[|s| - 1].v else 0.0
  }

  function CountValues(s: seq<Num>): nat {
    if s == [] then 0 else CountValues(s[..|s| - 1]) + if s[|s| - 1].Val? then 1 else 0
  }

  function MeanSkipNaN(s: seq<Num>): Num {
    if CountValues(s) == 0 then NaN else Val(SumSkipNaN(s) / (CountValues(s) as real))
  }

  function Mix(alpha: real, x: Num, prev: Num): Num {
    if x.NaN? || prev.NaN? then NaN else Val(Blend(alpha, x.v, prev.v))
  }

  function RmaAt(s: seq<Num>, period: int, i: nat): Num
    requires period >= 1 && i < |s|
  {
    if i < period - 1 then NaN
    else if i == period - 1 then MeanSkipNaN(s[..period])
    else Mix(1.0 / (period as real), s[i], RmaAt(s, period, i - 1))
  }

  method WilderRma(s: seq<Num>, period: int) returns (out: seq<Num>)
    requires period >= 1
    ensures |out| == |s|
    ensures forall i :: 0 <= i < |s| ==> out[i] == RmaAt(s, period, i)
  {
    out := seq(|s|, _ => NaN);
    if |s| < period {
      return;
    }
    var alpha := 1.0 / (period as real);
    out := out[period - 1 := MeanSkipNaN(s[..period])];
    var prev := out[period - 1];
    for i := period to |s|
      invariant |out| == |s| && prev == RmaAt(s, period, i - 1)
      invariant forall k :: 0 <= k < i ==> out[k] == RmaAt(s, period, k)
    {
      prev := Mix(alpha, s[i], prev);
      out := out[i := prev];
    }
  }

  /** Positive part of the close-to-close change; the first bar has none. */
  function Gains(c: seq<Candle>): seq<Num> {
    seq(|c|, i requires 0 <= i < |c| => if i == 0 then NaN else Val(Max(c[i].close - c[i - 1].close, 0.0)))
  }

  function Losses(c: seq<Candle>): seq<Num> {
    seq(|c|, i requires 0 <= i < |c| => if i == 0 then NaN else Val(Max(c[i - 1].close - c[i].close, 0.0)))
  }

  predicate NonNegative(n: Num) { n.Val? ==> n.v >= 0.0 }

  /** The quotient, with the three overrides for a zero average. */
  function RsiOf(avgGain: Num, avgLoss: Num): Num
    requires NonNegative(avgGain) && NonNegative(avgLoss)
  {
    if avgGain.NaN? || avgLoss.NaN? then NaN
    else if avgGain.v == 0.0 && avgLoss.v == 0.0 then Val(50.0)
    else if avgGain.v == 0.0 then Val(0.0)
    else if avgLoss.v == 0.0 then Val(100.0)
    else
      QuotientPositive(avgGain.v, avgLoss.v);
      Val(100.0 - 100.0 / (1.0 + avgGain.v / avgLoss.v))
  }

  lemma QuotientPositive(a: real, b: real)
    requires a > 0.0 && b > 0.0
    ensures a / b > 0.0
  {
  }

  lemma {:induction false} SumNonNegative(s: seq<Num>)
    requires forall i :: 0 <= i < |s| ==> NonNegative(s[i])
    ensures SumSkipNaN(s) >= 0.0
  {
    if s != [] {
      SumNonNegative(s[..|s| - 1]);
    }
  }

  lemma MixNonNegative(alpha: real, x: Num, prev: Num)
    requires 0.0 <= alpha <= 1.0 && NonNegative(x) && NonNegative(prev)
    ensures NonNegative(Mix(alpha, x, prev))
  {
    if x.Val? && prev.Val? {
      hide Blend;
      BlendWithin(alpha, x.v, prev.v, 0.0, Max(x.v, prev.v));
    }
  }

  lemma {:induction false} RmaNonNegative(s: seq<Num>, period: int, i: nat)
    requires period >= 1 && i < |s| && forall k :: 0 <= k < |s| ==> NonNegative(s[k])
    ensures NonNegative(RmaAt(s, period, i))
  {
    if i == period - 1 {
      SumNonNegative(s[..period]);
    } else if i >= period {
      RmaNonNegative(s, period, i - 1);
      MixNonNegative(1.0 / (period as real), s[i], RmaAt(s, period, i - 1));
    }
  }

  function RsiAt(c: seq<Candle>, period: int, i: nat): Num
    requires period >= 1 && i < |c|
  {
    RmaNonNegative(Gains(c), period, i);
    RmaNonNegative(Losses(c), period, i);
    RsiOf(RmaAt(Gains(c), period, i), RmaAt(Losses(c), period, i))
  }

  // ----- Supertrend

  function BasicUpper(c: seq<Candle>, period: int, multiplier: real, i: nat): real
    requires period >= 1 && i < |c|
  {
    (c[i].high + c[i].low) / 2.0 + multiplier * AtrAt(c, period, i)
  }

  function BasicLower(c: seq<Candle>, period: int, multiplier: real, i: nat): real
    requires period >= 1 && i < |c|
  {
    (c[i].high + c[i].low) / 2.0 - multiplier * AtrAt(c, period, i)
  }

  /** One bar of the band ratchet: a band may only tighten, unless the previous
      close was beyond it; the direction flips on a close beyond a band. */
  function NextBand(prev: Band, prevClose: real, close: real, basicUpper: real, basicLower: real): Band {
    var upper := if prevClose < prev.upper then Min(basicUpper, prev.upper) else basicUpper;
    var lower := if prevClose > prev.lower then Max(basicLower, prev.lower) else basicLower;
    var direction :=
      if prev.direction == -1 && close > prev.upper then 1
      else if prev.direction == 1 && close < prev.lower then -1
      else prev.direction;
    Band(upper, lower, direction, if direction == 1 then lower else upper)
  }

  function BandAt(c: seq<Candle>, period: int, multiplier: real, i: nat): Band
    requires period >= 1 && i < |c|
  {
    var upper, lower := BasicUpper(c, period, multiplier, i), BasicLower(c, period, multiplier, i);
    if i == 0 then Band(upper, lower, 1, lower)
    else NextBand(BandAt(c, period, multiplier, i - 1), c[i - 1].close, c[i].close, upper, lower)
  }

  lemma BandNext(c: seq<Candle>, period: int, multiplier: real, i: nat)
    requires period >= 1 && i < |c|
    ensures var upper, lower := BasicUpper(c, period, multiplier, i), BasicLower(c, period, multiplier, i);
            BandAt(c, period, multiplier, i) ==
            if i == 0 then Band(upper, lower, 1, lower)
            else NextBand(BandAt(c, period, multiplier, i - 1), c[i - 1].close, c[i].close, upper, lower)
  {
  }

  /** The loop that fills the four arrays. */
  method ComputeSupertrend(c: seq<Candle>, period: int, multiplier: real)
    returns (upper: array<real>, lower: array<real>, direction: array<int>, supertrend: array<real>)
    requires period >= 1 && |c| > 0
    ensures upper.Length == lower.Length == direction.Length == supertrend.Length == |c|
    ensures forall i :: 0 <= i < |c| ==>
              Band(upper[i], lower[i], direction[i], supertrend[i]) == BandAt(c, period, multiplier, i)
  {
    hide BasicUpper, BasicLower, BandAt, Max, Min;
    var n := |c|;
    BandNext(c, period, multiplier, 0);
    upper, lower := new real[n], new real[n];
    direction, supertrend := new int[n](_ => 1), new real[n];
    upper[0] := BasicUpper(c, period, multiplier, 0);
    lower[0] := BasicLower(c, period, multiplier, 0);
    supertrend[0] := lower[0];
    for i := 1 to n
      invariant direction[0] == 1
      invariant forall k :: 0 <= k < i ==>
                  Band(upper[k], lower[k], direction[k], supertrend[k]) == BandAt(c, period, multiplier, k)
    {
      BandNext(c, period, multiplier, i);
      ghost var prev := BandAt(c, period, multiplier, i - 1);
      var prevUpper, prevLower, prevDirection := upper[i - 1], lower[i - 1], direction[i - 1];
      assert prev == Band(prevUpper, prevLower, prevDirection, supertrend[i - 1]);
      var u, l, d := BasicUpper(c, period, multiplier, i), BasicLower(c, period, multiplier, i), prevDirection;
      ghost var next := NextBand(prev, c[i - 1].close, c[i].close, u, l);
      if c[i - 1].close < prevUpper {
        u := Min(u, prevUpper);
      }
      if c[i - 1].close > prevLower {
        l := Max(l, prevLower);
      }
      if prevDirection == -1 && c[i].close > prevUpper {
        d := 1;
      } else if prevDirection == 1 && c[i].close < prevLower {
        d := -1;
      }
      assert next == Band(u, l, d, if d == 1 then l else u);
      upper[i], lower[i], direction[i] := u, l, d;
      supertrend[i] := if d == 1 then l else u;
    }
  }

  // ----- one entry of any indicator, and the whole series

  function RowAt(ind: Indicator, c: seq<Candle>, i: nat): Row
    requires ind.Valid() && i < |c|
  {
    match ind
    case EMA(span) => Scalar(Val(EwmAt(Closes(c), EmaAlpha(span), i)))
    case ATR(period) => Scalar(Val(AtrAt(c, period, i)))
    case RSI(period) => Scalar(RsiAt(c, period, i))
    case Supertrend(period, multiplier) => Trend(BandAt(c, period, multiplier, i))
  }

  function Compute(ind: Indicator, c: seq<Candle>): (series: seq<Row>)
    requires ind.Valid()
    ensures |series| == |c|
  {
    seq(|c|, i requires 0 <= i < |c| => RowAt(ind, c, i))
  }

  // ----- causality

  /** Two frames that agree up to and including bar `i`. */
  predicate AgreeThrough(a: seq<Candle>, b: seq<Candle>, i: nat) {
    i < |a| && i < |b| && forall k :: 0 <= k <= i ==> a[k] == b[k]
  }

  lemma {:induction false} EwmCausal(xs: seq<real>, ys: seq<real>, alpha: real, i: nat)
    requires i < |xs| && i < |ys| && forall k :: 0 <= k <= i ==> xs[k] == ys[k]
    ensures EwmAt(xs, alpha, i) == EwmAt(ys, alpha, i)
  {
    if i > 0 {
      EwmCausal(xs, ys, alpha, i - 1);
    }
  }

  lemma AtrCausal(a: seq<Candle>, b: seq<Candle>, period: int, i: nat)
    requires period >= 1 && AgreeThrough(a, b, i)
    ensures AtrAt(a, period, i) == AtrAt(b, period, i)
  {
    EwmCausal(TrueRanges(a), TrueRanges(b), 1.0 / (period as real), i);
  }

  lemma {:induction false} RmaCausal(s: seq<Num>, t: seq<Num>, period: int, i: nat)
    requires period >= 1 && i < |s| && i < |t| && forall k :: 0 <= k <= i ==> s[k] == t[k]
    ensures RmaAt(s, period, i) == RmaAt(t, period, i)
  {
    if i == period - 1 {
      assert s[..period] == t[..period];
    } else if i >= period {
      RmaCausal(s, t, period, i - 1);
    }
  }

  lemma BasicCausal(a: seq<Candle>, b: seq<Candle>, period: int, multiplier: real, i: nat)
    requires period >= 1 && AgreeThrough(a, b, i)
    ensures BasicUpper(a, period, multiplier, i) == BasicUpper(b, period, multiplier, i)
    ensures BasicLower(a, period, multiplier, i) == BasicLower(b, period, multiplier, i)
  {
    AtrCausal(a, b, period, i);
    hide AtrAt;
  }

  lemma {:induction false} BandCausal(a: seq<Candle>, b: seq<Candle>, period: int, multiplier: real, i: nat)
    requires period >= 1 && AgreeThrough(a, b, i)
    ensures BandAt(a, period, multiplier, i) == BandAt(b, period, multiplier, i)
  {
    hide BasicUpper, BasicLower, NextBand;
    BasicCausal(a, b, period, multiplier, i);
    if i > 0 {
      BandCausal(a, b, period, multiplier, i - 1);
    }
  }

  /** Every indicator is causal: its value on bar `i` is the same on any two
      frames that agree through bar `i`. */
  lemma RowCausal(ind: Indicator, a: seq<Candle>, b: seq<Candle>, i: nat)
    requires ind.Valid() && AgreeThrough(a, b, i)
    ensures RowAt(ind, a, i) == RowAt(ind, b, i)
  {
    hide EwmAt, AtrAt, BandAt, RmaAt, RsiOf;
    match ind
    case EMA(span) => EwmCausal(Closes(a), Closes(b), EmaAlpha(span), i);
    case ATR(period) => AtrCausal(a, b, period, i);
    case RSI(period) =>
      RmaCausal(Gains(a), Gains(b), period, i);
      RmaCausal(Losses(a), Losses(b), period, i);
    case Supertrend(period, multiplier) => BandCausal(a, b, period, multiplier, i);
  }

  /** Computing on a prefix of the frame gives the prefix of the series. */
  lemma PrefixComputes(ind: Indicator, c: seq<Candle>, n: nat)
    requires ind.Valid() && n <= |c|
    ensures Compute(ind, c[..n]) == Compute(ind, c)[..n]
  {
    forall i | 0 <= i < n
      ensures Compute(ind, c[..n])[i] == Compute(ind, c)[..n][i]
    {
      RowCausal(ind, c[..n], c, i);
    }
    hide RowAt;
  }

  // ----- ranges

  /** An average stays between the smallest and the largest value it has seen. */
  lemma {:induction false} EwmWithin(xs: seq<real>, alpha: real, i: nat, lo: real, hi: real)
    requires i < |xs| && 0.0 <= alpha <= 1.0 && forall k :: 0 <= k <= i ==> lo <= xs[k] <= hi
    ensures lo <= EwmAt(xs, alpha, i) <= hi
  {
    if i > 0 {
      EwmWithin(xs, alpha, i - 1, lo, hi);
      BlendWithin(alpha, xs[i], EwmAt(xs, alpha, i - 1), lo, hi);
    }
  }

  lemma AlphaInRange(n: int)
    requires n >= 1
    ensures 0.0 < EmaAlpha(n) <= 1.0 && 0.0 < 1.0 / (n as real) <= 1.0
  {
  }

  /** The EMA of a bar lies within the closes so far. */
  lemma EmaWithinCloses(c: seq<Candle>, span: int, i: nat, lo: real, hi: real)
    requires span >= 1 && i < |c| && forall k :: 0 <= k <= i ==> lo <= c[k].close <= hi
    ensures lo <= EwmAt(Closes(c), EmaAlpha(span), i) <= hi
  {
    AlphaInRange(span);
    hide EmaAlpha;
    EwmWithin(Closes(c), EmaAlpha(span), i, lo, hi);
  }

  /** Candles with high at or above low have a non-negative ATR, so the basic
      bands never cross. */
  lemma BandsNeverCross(c: seq<Candle>, period: int, multiplier: real, i: nat)
    requires period >= 1 && multiplier > 0.0 && i < |c| && forall k :: 0 <= k <= i ==> c[k].low <= c[k].high
    ensures BasicLower(c, period, multiplier, i) <= (c[i].high + c[i].low) / 2.0 <= BasicUpper(c, period, multiplier, i)
  {
    AlphaInRange(period);
    AtrNonNegative(c, period, i);
    hide AtrAt, EmaAlpha;
    MulOrder(0.0, AtrAt(c, period, i), multiplier);
  }

  lemma {:induction false} EwmAtLeast(xs: seq<real>, alpha: real, i: nat, lo: real)
    requires i < |xs| && 0.0 <= alpha <= 1.0 && forall k :: 0 <= k <= i ==> lo <= xs[k]
    ensures lo <= EwmAt(xs, alpha, i)
  {
    if i > 0 {
      EwmAtLeast(xs, alpha, i - 1, lo);
      BlendWithin(alpha, xs[i], EwmAt(xs, alpha, i - 1), lo, Max(xs[i], EwmAt(xs, alpha, i - 1)));
    }
  }

  lemma AtrNonNegative(c: seq<Candle>, period: int, i: nat)
    requires period >= 1 && i < |c| && forall k :: 0 <= k <= i ==> c[k].low <= c[k].high
    ensures AtrAt(c, period, i) >= 0.0
  {
    AlphaInRange(period);
    forall k | 0 <= k <= i ensures TrueRanges(c)[k] >= 0.0 { }
    hide EmaAlpha, TrueRangeAt;
    EwmAtLeast(TrueRanges(c), 1.0 / (period as real), i, 0.0);
  }

  /** The RSI lies between 0 and 100, and is 50 where nothing moved. */
  lemma RsiInRange(avgGain: Num, avgLoss: Num)
    requires NonNegative(avgGain) && NonNegative(avgLoss)
    ensures var rsi := RsiOf(avgGain, avgLoss);
            && (rsi.NaN? <==> avgGain.NaN? || avgLoss.NaN?)
            && (rsi.Val? ==> 0.0 <= rsi.v <= 100.0)
            && (rsi.Val? ==> (rsi.v > 50.0 <==> avgGain.v > avgLoss.v) && (rsi.v < 50.0 <==> avgGain.v < avgLoss.v))
  {
    if avgGain.Val? && avgLoss.Val? && avgGain.v > 0.0 && avgLoss.v > 0.0 {
      SplitHundred(avgGain.v, avgLoss.v);
    }
  }

  lemma SplitHundred(gain: real, loss: real)
    requires gain > 0.0 && loss > 0.0
    ensures gain / loss > 0.0
    ensures var r := 100.0 - 100.0 / (1.0 + gain / loss);
            0.0 <= r <= 100.0 && (r > 50.0 <==> gain > loss) && (r < 50.0 <==> gain < loss)
  {
    var q := gain / loss;
    assert q * loss == gain;
    QuotientPositive(gain, loss);
    var part := 100.0 / (1.0 + q);
    assert part * (1.0 + q) == 100.0;
    hide *;
    SameOrder(q, 1.0, loss);
    SameOrder(1.0, q, loss);
    SameOrder(part, 50.0, 1.0 + q);
    SameOrder(50.0, part, 1.0 + q);
    SameOrder(0.0, part, 1.0 + q);
    SameOrder(part, 100.0, 1.0 + q);
  }

  lemma SameOrder(a: real, b: real, k: real)
    requires k > 0.0
    ensures a * k < b * k <==> a < b
  {
    if a < b {
      assert (b - a) * k > 0.0;
    } else {
      MulOrder(b, a, k);
    }
  }
}
