// The Supertrend bands in closed form: each is the tightest basic band since
// the last close beyond it.

module SupertrendBands {
  import opened RealMath
  import opened Indicators

  // ----- the ratchet, on its own

  /** A band follows `basic`, and may only rise until a close falls to it. */
  predicate RatchetAt(basic: seq<real>, close: seq<real>, band: seq<real>, i: nat)
    requires |basic| == |close| == |band| && i < |band|
  {
    if i > 0 && close[i - 1] > band[i - 1] then band[i] == Max(basic[i], band[i - 1]) else band[i] == basic[i]
  }

  predicate RisingRatchet(basic: seq<real>, close: seq<real>, band: seq<real>) {
    |basic| == |close| == |band| && forall i :: 0 <= i < |band| ==> RatchetAt(basic, close, band, i)
  }

  /** `band[i]` is the highest basic value since `reset`, the last bar that
      starts the series or follows a close at or below the band. */
  predicate HighestSince(basic: seq<real>, close: seq<real>, band: seq<real>, i: nat, reset: nat)
    requires |basic| == |close| == |band| && i < |band|
  {
    && reset <= i
    && (reset == 0 || close[reset - 1] <= band[reset - 1])
    && (forall k :: reset <= k < i ==> close[k] > band[k])
    && (forall k :: reset <= k <= i ==> basic[k] <= band[i])
    && (exists k :: reset <= k <= i && basic[k] == band[i])
  }

  lemma {:induction false} RatchetClosedForm(basic: seq<real>, close: seq<real>, band: seq<real>, i: nat) returns (reset: nat)
    requires RisingRatchet(basic, close, band) && i < |band|
    ensures HighestSince(basic, close, band, i, reset)
  {
    assert RatchetAt(basic, close, band, i);
    if i > 0 && close[i - 1] > band[i - 1] {
      reset := RatchetClosedForm(basic, close, band, i - 1);
      var k :| reset <= k <= i - 1 && basic[k] == band[i - 1];
      assert band[i] == basic[i] || band[i] == basic[k];
    } else {
      reset := i;
      assert basic[i] == band[i];
    }
  }

  /** The reset bar is determined: the closed form has one reading only. */
  lemma ResetUnique(basic: seq<real>, close: seq<real>, band: seq<real>, i: nat, r1: nat, r2: nat)
    requires |basic| == |close| == |band| && i < |band|
    requires HighestSince(basic, close, band, i, r1) && HighestSince(basic, close, band, i, r2)
    ensures r1 == r2
  {
  }

  // ----- the two bands are ratchets

  function Lowers(c: seq<Candle>, period: int, multiplier: real): seq<real>
    requires period >= 1
  {
    seq(|c|, i requires 0 <= i < |c| => BandAt(c, period, multiplier, i).lower)
  }

  function BasicLowers(c: seq<Candle>, period: int, multiplier: real): seq<real>
    requires period >= 1
  {
    seq(|c|, i requires 0 <= i < |c| => BasicLower(c, period, multiplier, i))
  }

  function Uppers(c: seq<Candle>, period: int, multiplier: real): seq<real>
    requires period >= 1
  {
    seq(|c|, i requires 0 <= i < |c| => BandAt(c, period, multiplier, i).upper)
  }

  function BasicUppers(c: seq<Candle>, period: int, multiplier: real): seq<real>
    requires period >= 1
  {
    seq(|c|, i requires 0 <= i < |c| => BasicUpper(c, period, multiplier, i))
  }

  function Negated(s: seq<real>): seq<real> { seq(|s|, i requires 0 <= i < |s| => -s[i]) }

  /** The lower band of every bar is the highest basic lower band since its reset. */
  lemma LowerBandClosedForm(c: seq<Candle>, period: int, multiplier: real, i: nat) returns (reset: nat)
    requires period >= 1 && i < |c|
    ensures HighestSince(BasicLowers(c, period, multiplier), Closes(c), Lowers(c, period, multiplier), i, reset)
  {
    var basic, close, band := BasicLowers(c, period, multiplier), Closes(c), Lowers(c, period, multiplier);
    forall k | 0 <= k < |c|
      ensures RatchetAt(basic, close, band, k)
    {
      LowerRatchets(c, period, multiplier, k);
    }
    hide BasicLowers, Lowers, RatchetAt;
    reset := RatchetClosedForm(basic, close, band, i);
  }

  lemma LowerRatchets(c: seq<Candle>, period: int, multiplier: real, k: nat)
    requires period >= 1 && k < |c|
    ensures RatchetAt(BasicLowers(c, period, multiplier), Closes(c), Lowers(c, period, multiplier), k)
  {
    hide BandAt, BasicLower, BasicUpper;
    var basic, close, band := BasicLowers(c, period, multiplier), Closes(c), Lowers(c, period, multiplier);
    assert band[k] == BandAt(c, period, multiplier, k).lower && basic[k] == BasicLower(c, period, multiplier, k);
    assert k > 0 ==> band[k - 1] == BandAt(c, period, multiplier, k - 1).lower && close[k - 1] == c[k - 1].close;
    hide BasicLowers, Closes, Lowers;
    BandNext(c, period, multiplier, k);
  }

  lemma UpperRatchets(c: seq<Candle>, period: int, multiplier: real, k: nat)
    requires period >= 1 && k < |c|
    ensures RatchetAt(Negated(BasicUppers(c, period, multiplier)), Negated(Closes(c)), Negated(Uppers(c, period, multiplier)), k)
  {
    hide BandAt, BasicLower, BasicUpper;
    var basic, close, band := Negated(BasicUppers(c, period, multiplier)), Negated(Closes(c)), Negated(Uppers(c, period, multiplier));
    assert band[k] == -BandAt(c, period, multiplier, k).upper && basic[k] == -BasicUpper(c, period, multiplier, k);
    assert k > 0 ==> band[k - 1] == -BandAt(c, period, multiplier, k - 1).upper && close[k - 1] == -c[k - 1].close;
    hide BasicUppers, Closes, Uppers, Negated;
    BandNext(c, period, multiplier, k);
  }

  /** Dually, with everything negated, for the upper band: it is the lowest basic
      upper band since the last close at or above it. */
  lemma UpperBandClosedForm(c: seq<Candle>, period: int, multiplier: real, i: nat) returns (reset: nat)
    requires period >= 1 && i < |c|
    ensures HighestSince(Negated(BasicUppers(c, period, multiplier)), Negated(Closes(c)),
                         Negated(Uppers(c, period, multiplier)), i, reset)
  {
    var basic, close, band := Negated(BasicUppers(c, period, multiplier)), Negated(Closes(c)), Negated(Uppers(c, period, multiplier));
    forall k | 0 <= k < |c|
      ensures RatchetAt(basic, close, band, k)
    {
      UpperRatchets(c, period, multiplier, k);
    }
    hide BasicUppers, Uppers, RatchetAt;
    reset := RatchetClosedForm(basic, close, band, i);
  }

  /** The direction is always up or down, starts up, and flips exactly on a close
      beyond the previous opposite band. */
  lemma {:induction false} DirectionFlipsExactly(c: seq<Candle>, period: int, multiplier: real, i: nat)
    requires period >= 1 && i < |c|
    ensures var now := BandAt(c, period, multiplier, i);
            && (now.direction == 1 || now.direction == -1)
            && now.supertrend == (if now.direction == 1 then now.lower else now.upper)
            && (i == 0 ==> now.direction == 1)
            && (i > 0 ==>
                  var prev := BandAt(c, period, multiplier, i - 1);
                  now.direction != prev.direction <==>
                  (if prev.direction == 1 then c[i].close < prev.lower else c[i].close > prev.upper))
  {
    BandNext(c, period, multiplier, i);
    hide BasicLower, BasicUpper, BandAt;
    if i > 0 {
      DirectionFlipsExactly(c, period, multiplier, i - 1);
    }
  }
}
