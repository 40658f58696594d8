// The strategies' indicator cache, keyed by the indicator's parameters.

module IndicatorCache {
  import opened Wrappers
  import opened RealMath
  import opened Indicators

  type Series = seq<Row>
  type Entries = map<Indicator, Series>

  /** The bars a strategy may look at on bar `barIndex`. */
  function ClosedBars(frame: seq<Candle>, barIndex: nat): seq<Candle>
    requires barIndex < |frame|
  {
    frame[..barIndex + 1]
  }

  /** A cached series serves when it is at least as long as the closed bars. */
  predicate Hit(entries: Entries, ind: Indicator, closed: seq<Candle>) {
    ind in entries && |entries[ind]| >= |closed|
  }

  function Serve(entries: Entries, ind: Indicator, closed: seq<Candle>): Series
    requires ind.Valid()
  {
    if Hit(entries, ind, closed) then entries[ind] else Compute(ind, closed)
  }

  predicate AllValid(indicators: seq<Indicator>) {
    forall i :: 0 <= i < |indicators| ==> indicators[i].Valid()
  }

  /** The cache after serving the indicators in turn. */
  function Filled(entries: Entries, indicators: seq<Indicator>, closed: seq<Candle>): Entries
    requires AllValid(indicators)
  {
    if indicators == [] then entries
    else
      var before, ind := Filled(entries, indicators[..|indicators| - 1], closed), indicators[|indicators| - 1];
      before[ind := Serve(before, ind, closed)]
  }

  class Cache {
    var entries: Entries

    constructor ()
      ensures entries == map[]
    {
      entries := map[];
    }
  }

  lemma FilledFirst(entries: Entries, indicators: seq<Indicator>, closed: seq<Candle>)
    requires AllValid(indicators)
    ensures Filled(entries, indicators[..0], closed) == entries
  {
  }

  lemma FilledNext(entries: Entries, indicators: seq<Indicator>, n: nat, closed: seq<Candle>)
    requires AllValid(indicators) && n < |indicators|
    ensures var before := Filled(entries, indicators[..n], closed);
            Filled(entries, indicators[..n + 1], closed) == before[indicators[n] := Serve(before, indicators[n], closed)]
  {
    assert indicators[..n + 1][..n] == indicators[..n];
  }

  /** Without a cache every series is computed afresh; with one, a series that is
      long enough is handed out as it is, and anything computed is stored. */
  method ComputeIndicators(frame: seq<Candle>, barIndex: nat, indicators: seq<Indicator>, cache: Cache?)
    returns (result: map<Indicator, Series>)
    requires barIndex < |frame| && AllValid(indicators)
    modifies if cache == null then {} else {cache}
    ensures forall ind :: ind in result ==> ind in indicators
    ensures cache == null ==> forall i :: 0 <= i < |indicators| ==>
              indicators[i] in result && result[indicators[i]] == Compute(indicators[i], ClosedBars(frame, barIndex))
    ensures cache != null ==>
              && cache.entries == Filled(old(cache.entries), indicators, ClosedBars(frame, barIndex))
              && forall i :: 0 <= i < |indicators| ==>
                   indicators[i] in result && indicators[i] in cache.entries
                   && result[indicators[i]] == cache.entries[indicators[i]]
  {
    hide Compute, Filled;
    var closed := ClosedBars(frame, barIndex);
    result := map[];
    ghost var before := if cache == null then map[] else cache.entries;
    FilledFirst(before, indicators, closed);
    for n := 0 to |indicators|
      invariant forall ind :: ind in result ==> ind in indicators
      invariant cache == null ==> forall i :: 0 <= i < n ==>
                  indicators[i] in result && result[indicators[i]] == Compute(indicators[i], closed)
      invariant cache != null ==>
                  && cache.entries == Filled(before, indicators[..n], closed)
                  && forall i :: 0 <= i < n ==>
                       indicators[i] in result && indicators[i] in cache.entries
                       && |cache.entries[indicators[i]]| >= |closed|
                       && result[indicators[i]] == cache.entries[indicators[i]]
    {
      var key := indicators[n];
      FilledNext(before, indicators, n, closed);
      if cache != null && key in cache.entries && |cache.entries[key]| >= |closed| {
        result := result[key := cache.entries[key]];
        assert cache.entries[key := cache.entries[key]] == cache.entries;
      } else {
        var computed := Compute(key, closed);
        result := result[key := computed];
        if cache != null {
          cache.entries := cache.entries[key := computed];
        }
      }
    }
    assert indicators[..|indicators|] == indicators;
  }

  // ----- on one frame the cache is invisible

  /** Every cached series was computed on a prefix of the frame. */
  ghost predicate BuiltOn(entries: Entries, frame: seq<Candle>) {
    forall ind :: ind in entries ==>
      ind.Valid() && |entries[ind]| <= |frame| && entries[ind] == Compute(ind, frame[..|entries[ind]|])
  }

  lemma {:induction false} FillingKeepsBuilt(entries: Entries, frame: seq<Candle>, barIndex: nat, indicators: seq<Indicator>)
    requires barIndex < |frame| && AllValid(indicators) && BuiltOn(entries, frame)
    ensures BuiltOn(Filled(entries, indicators, ClosedBars(frame, barIndex)), frame)
    ensures forall i :: 0 <= i < |indicators| ==>
              indicators[i] in Filled(entries, indicators, ClosedBars(frame, barIndex))
              && |Filled(entries, indicators, ClosedBars(frame, barIndex))[indicators[i]]| > barIndex
  {
    hide Compute;
    if indicators != [] {
      var closed := ClosedBars(frame, barIndex);
      var init := indicators[..|indicators| - 1];
      FillingKeepsBuilt(entries, frame, barIndex, init);
      assert forall i :: 0 <= i < |init| ==> init[i] == indicators[i];
    }
  }

  /** What is served for a bar starts with exactly the uncached series of that
      bar's closed bars; whatever follows belongs to later bars. */
  lemma ServedPrefixIsFresh(entries: Entries, frame: seq<Candle>, barIndex: nat, ind: Indicator)
    requires barIndex < |frame| && ind.Valid() && BuiltOn(entries, frame)
    ensures |Serve(entries, ind, ClosedBars(frame, barIndex))| > barIndex
    ensures Serve(entries, ind, ClosedBars(frame, barIndex))[..barIndex + 1] == Compute(ind, ClosedBars(frame, barIndex))
  {
    if Hit(entries, ind, ClosedBars(frame, barIndex)) {
      var m := |entries[ind]|;
      PrefixComputes(ind, frame[..m], barIndex + 1);
      assert frame[..m][..barIndex + 1] == frame[..barIndex + 1];
    }
    hide Compute;
  }

  /** One call: the bar asked about, and the indicators asked for. */
  datatype Request = Request(barIndex: nat, indicators: seq<Indicator>)

  predicate RequestsOk(requests: seq<Request>, frame: seq<Candle>) {
    forall i :: 0 <= i < |requests| ==> requests[i].barIndex < |frame| && AllValid(requests[i].indicators)
  }

  /** The cache of a fresh strategy after a session of calls on one frame. */
  function AfterSession(requests: seq<Request>, frame: seq<Candle>): Entries
    requires RequestsOk(requests, frame)
  {
    if requests == [] then map[]
    else
      var last := requests[|requests| - 1];
      Filled(AfterSession(requests[..|requests| - 1], frame), last.indicators, ClosedBars(frame, last.barIndex))
  }

  lemma {:induction false} SessionKeepsBuilt(requests: seq<Request>, frame: seq<Candle>)
    requires RequestsOk(requests, frame)
    ensures BuiltOn(AfterSession(requests, frame), frame)
  {
    if requests != [] {
      var init, last := requests[..|requests| - 1], requests[|requests| - 1];
      SessionKeepsBuilt(init, frame);
      FillingKeepsBuilt(AfterSession(init, frame), frame, last.barIndex, last.indicators);
      hide BuiltOn, Filled;
    }
  }

  /** After any session of calls on one frame, for bars in any order, the rows up
      to the bar asked about are exactly what they would be without a cache. */
  lemma CacheIsInvisible(requests: seq<Request>, frame: seq<Candle>, barIndex: nat, ind: Indicator)
    requires RequestsOk(requests, frame) && barIndex < |frame| && ind.Valid()
    ensures var served := Serve(AfterSession(requests, frame), ind, ClosedBars(frame, barIndex));
            |served| > barIndex && served[..barIndex + 1] == Compute(ind, ClosedBars(frame, barIndex))
  {
    SessionKeepsBuilt(requests, frame);
    hide AfterSession, BuiltOn, Serve, Compute;
    ServedPrefixIsFresh(AfterSession(requests, frame), frame, barIndex, ind);
  }

  function MaxNat(a: nat, b: nat): nat { if a >= b then a else b }

  /** How many rows of an indicator the cache holds. */
  function Length(entries: Entries, ind: Indicator): nat { if ind in entries then |entries[ind]| else 0 }

  /** How far into the frame an indicator has been asked for. */
  function Reach(requests: seq<Request>, ind: Indicator): nat {
    if requests == [] then 0
    else
      var before, last := Reach(requests[..|requests| - 1], ind), requests[|requests| - 1];
      if ind in last.indicators then MaxNat(before, last.barIndex + 1) else before
  }

  lemma {:induction false} FilledLength(entries: Entries, indicators: seq<Indicator>, closed: seq<Candle>, ind: Indicator)
    requires AllValid(indicators)
    ensures Length(Filled(entries, indicators, closed), ind) ==
            if ind in indicators then MaxNat(Length(entries, ind), |closed|) else Length(entries, ind)
  {
    hide Compute;
    if indicators != [] {
      var init, last := indicators[..|indicators| - 1], indicators[|indicators| - 1];
      FilledLength(entries, init, closed, ind);
      assert indicators == init + [last];
    }
  }

  lemma {:induction false} SessionReaches(requests: seq<Request>, frame: seq<Candle>, ind: Indicator)
    requires RequestsOk(requests, frame)
    ensures Length(AfterSession(requests, frame), ind) == Reach(requests, ind)
  {
    hide Filled, Length;
    if requests == [] {
      NothingCached(ind);
    } else {
      var init, last := requests[..|requests| - 1], requests[|requests| - 1];
      SessionReaches(init, frame, ind);
      FilledLength(AfterSession(init, frame), last.indicators, ClosedBars(frame, last.barIndex), ind);
    }
  }

  lemma NothingCached(ind: Indicator)
    ensures Length(map[], ind) == 0
  {
  }

  lemma {:induction false} ReachExactly(requests: seq<Request>, ind: Indicator, barIndex: nat)
    ensures Reach(requests, ind) <= barIndex + 1 <==>
            forall i :: 0 <= i < |requests| && ind in requests[i].indicators ==> requests[i].barIndex <= barIndex
  {
    if requests != [] {
      var init, last := requests[..|requests| - 1], requests[|requests| - 1];
      ReachExactly(init, ind, barIndex);
      assert forall i :: 0 <= i < |init| ==> init[i] == requests[i];
    }
  }

  /** The whole served series is the uncached one if and only if no earlier request
      asked for that indicator on a later bar; in a walk forward over the bars, it
      always is. */
  lemma {:induction false} WholeSeriesFreshExactlyWhen(requests: seq<Request>, frame: seq<Candle>, barIndex: nat, ind: Indicator)
    requires RequestsOk(requests, frame) && barIndex < |frame| && ind.Valid()
    ensures Serve(AfterSession(requests, frame), ind, ClosedBars(frame, barIndex)) == Compute(ind, ClosedBars(frame, barIndex))
            <==> forall i :: 0 <= i < |requests| && ind in requests[i].indicators ==> requests[i].barIndex <= barIndex
  {
    CacheIsInvisible(requests, frame, barIndex, ind);
    SessionReaches(requests, frame, ind);
    ReachExactly(requests, ind, barIndex);
    var served := Serve(AfterSession(requests, frame), ind, ClosedBars(frame, barIndex));
    ServedLength(AfterSession(requests, frame), ind, ClosedBars(frame, barIndex));
    hide AfterSession, Serve, Reach, Length, Compute;
    if |served| == barIndex + 1 {
      assert served[..barIndex + 1] == served;
    }
  }

  lemma ServedLength(entries: Entries, ind: Indicator, closed: seq<Candle>)
    requires ind.Valid()
    ensures |Serve(entries, ind, closed)| == MaxNat(Length(entries, ind), |closed|)
  {
    hide Compute;
  }

  /** What the filling leaves in the cache is what was served from it at the start. */
  lemma {:induction false} FilledIsServed(entries: Entries, indicators: seq<Indicator>, closed: seq<Candle>, ind: Indicator)
    requires AllValid(indicators)
    ensures ind in indicators ==>
              ind.Valid() && ind in Filled(entries, indicators, closed)
              && Filled(entries, indicators, closed)[ind] == Serve(entries, ind, closed)
    ensures ind !in indicators ==>
              (ind in Filled(entries, indicators, closed) <==> ind in entries)
              && (ind in entries ==> Filled(entries, indicators, closed)[ind] == entries[ind])
  {
    hide Compute;
    if indicators != [] {
      var init, last := indicators[..|indicators| - 1], indicators[|indicators| - 1];
      FilledIsServed(entries, init, closed, ind);
      FilledIsServed(entries, init, closed, last);
      assert indicators == init + [last] && indicators[|init|] == last;
    }
  }

  // ----- on two frames it is not

  /** A strategy that has run on frame `a` and is then asked about bar `barIndex`
      of frame `b` gets the right values if its cache is too short to serve, or
      if the two frames agree through that bar. */
  lemma ReuseSafeWhen(ind: Indicator, a: seq<Candle>, b: seq<Candle>, barIndex: nat)
    requires ind.Valid() && barIndex < |b|
    requires |a| < barIndex + 1 || AgreeThrough(a, b, barIndex)
    ensures var served := Serve(map[ind := Compute(ind, a)], ind, ClosedBars(b, barIndex));
            |served| > barIndex && served[..barIndex + 1] == Compute(ind, ClosedBars(b, barIndex))
  {
    if |a| >= barIndex + 1 {
      PrefixComputes(ind, a, barIndex + 1);
      assert a[..barIndex + 1] == b[..barIndex + 1];
    }
    hide RowAt;
  }

  lemma {:induction false} EwmInjective(xs: seq<real>, ys: seq<real>, alpha: real, i: nat)
    requires i < |xs| && i < |ys| && alpha != 0.0
    requires forall k :: 0 <= k <= i ==> EwmAt(xs, alpha, k) == EwmAt(ys, alpha, k)
    ensures forall k :: 0 <= k <= i ==> xs[k] == ys[k]
  {
    if i > 0 {
      EwmInjective(xs, ys, alpha, i - 1);
      assert alpha * xs[i] == EwmAt(xs, alpha, i) - (1.0 - alpha) * EwmAt(xs, alpha, i - 1);
      assert alpha * ys[i] == EwmAt(ys, alpha, i) - (1.0 - alpha) * EwmAt(ys, alpha, i - 1);
      Cancel(xs[i], ys[i], alpha);
    } else {
      assert EwmAt(xs, alpha, 0) == EwmAt(ys, alpha, 0);
    }
  }

  predicate InputsAgree(xs: seq<real>, ys: seq<real>, i: nat)
    requires i < |xs| && i < |ys|
  {
    forall k :: 0 <= k <= i ==> xs[k] == ys[k]
  }

  predicate AveragesAgree(xs: seq<real>, ys: seq<real>, alpha: real, i: nat)
    requires i < |xs| && i < |ys|
  {
    forall k :: 0 <= k <= i ==> EwmAt(xs, alpha, k) == EwmAt(ys, alpha, k)
  }

  /** Two smoothed series agree through bar `i` exactly when their inputs do. */
  lemma EwmAgreeExactlyWhen(xs: seq<real>, ys: seq<real>, alpha: real, i: nat)
    requires i < |xs| && i < |ys| && alpha != 0.0
    ensures AveragesAgree(xs, ys, alpha, i) <==> InputsAgree(xs, ys, i)
  {
    hide EwmAt;
    if AveragesAgree(xs, ys, alpha, i) {
      EwmInjective(xs, ys, alpha, i);
    }
    if InputsAgree(xs, ys, i) {
      forall k | 0 <= k <= i
        ensures EwmAt(xs, alpha, k) == EwmAt(ys, alpha, k)
      {
        EwmCausal(xs, ys, alpha, k);
      }
    }
  }

  predicate RowsAgree(ind: Indicator, a: seq<Candle>, b: seq<Candle>, barIndex: nat)
    requires ind.Valid() && barIndex < |a| && barIndex < |b|
  {
    forall k :: 0 <= k <= barIndex ==> RowAt(ind, a, k) == RowAt(ind, b, k)
  }

  lemma PrefixesEqual(x: Series, y: Series, n: nat)
    requires n <= |x| && n <= |y|
    ensures x[..n] == y[..n] <==> forall k :: 0 <= k < n ==> x[k] == y[k]
  {
    if x[..n] == y[..n] {
      assert forall k :: 0 <= k < n ==> x[k] == x[..n][k] && y[k] == y[..n][k];
    }
  }

  lemma ComputedPrefixesEqual(ind: Indicator, a: seq<Candle>, b: seq<Candle>, barIndex: nat)
    requires ind.Valid() && barIndex < |a| && barIndex < |b|
    ensures Compute(ind, a)[..barIndex + 1] == Compute(ind, b)[..barIndex + 1] <==> RowsAgree(ind, a, b, barIndex)
  {
    var x, y := Compute(ind, a), Compute(ind, b);
    assert forall k :: 0 <= k <= barIndex ==> x[k] == RowAt(ind, a, k) && y[k] == RowAt(ind, b, k);
    hide RowAt, Compute;
    PrefixesEqual(x, y, barIndex + 1);
  }

  /** What reuse on another frame comes down to, for every indicator: it is right
      exactly when the cache cannot serve or the rows of both frames agree. */
  lemma ReuseIsAgreement(ind: Indicator, a: seq<Candle>, b: seq<Candle>, barIndex: nat)
    requires ind.Valid() && barIndex < |b|
    ensures var served := Serve(map[ind := Compute(ind, a)], ind, ClosedBars(b, barIndex));
            && |served| > barIndex
            && (served[..barIndex + 1] == Compute(ind, ClosedBars(b, barIndex)) <==>
                  |a| < barIndex + 1 || RowsAgree(ind, a, b, barIndex))
  {
    PrefixComputes(ind, b, barIndex + 1);
    if |a| >= barIndex + 1 {
      ComputedPrefixesEqual(ind, a, b, barIndex);
    }
    hide RowAt, Compute, RowsAgree;
  }

  predicate SameCloses(a: seq<Candle>, b: seq<Candle>, barIndex: nat)
    requires barIndex < |a| && barIndex < |b|
  {
    forall k :: 0 <= k <= barIndex ==> a[k].close == b[k].close
  }

  /** For the EMA this is exact: reusing a cache filled on frame `a` is right on
      frame `b` if and only if it cannot serve, or all the closes agree. */
  lemma EmaReuseRightExactlyWhen(span: int, a: seq<Candle>, b: seq<Candle>, barIndex: nat)
    requires span >= 1 && barIndex < |b|
    ensures var ind := EMA(span);
            var served := Serve(map[ind := Compute(ind, a)], ind, ClosedBars(b, barIndex));
            && |served| > barIndex
            && (served[..barIndex + 1] == Compute(ind, ClosedBars(b, barIndex))
                <==> |a| < barIndex + 1 || SameCloses(a, b, barIndex))
  {
    ReuseIsAgreement(EMA(span), a, b, barIndex);
    if |a| >= barIndex + 1 {
      EmaRowsAgreeExactlyWhen(span, a, b, barIndex);
    }
    hide Compute, RowsAgree, SameCloses;
  }

  lemma EmaRowsAgreeExactlyWhen(span: int, a: seq<Candle>, b: seq<Candle>, barIndex: nat)
    requires span >= 1 && barIndex < |a| && barIndex < |b|
    ensures RowsAgree(EMA(span), a, b, barIndex) <==> SameCloses(a, b, barIndex)
  {
    var xs, ys, alpha := Closes(a), Closes(b), EmaAlpha(span);
    AlphaInRange(span);
    EwmAgreeExactlyWhen(xs, ys, alpha, barIndex);
    assert InputsAgree(xs, ys, barIndex) <==> SameCloses(a, b, barIndex) by {
      assert forall k :: 0 <= k <= barIndex ==> xs[k] == a[k].close && ys[k] == b[k].close;
    }
    hide EwmAt, EmaAlpha, InputsAgree, SameCloses;
    RowsAreAverages(EMA(span), a, b, xs, ys, alpha, barIndex);
  }

  lemma RowsAreAverages(ind: Indicator, a: seq<Candle>, b: seq<Candle>, xs: seq<real>, ys: seq<real>, alpha: real, i: nat)
    requires ind.Valid() && i < |a| == |xs| && i < |b| == |ys|
    requires forall k :: 0 <= k <= i ==> RowAt(ind, a, k) == Scalar(Val(EwmAt(xs, alpha, k)))
    requires forall k :: 0 <= k <= i ==> RowAt(ind, b, k) == Scalar(Val(EwmAt(ys, alpha, k)))
    ensures RowsAgree(ind, a, b, i) <==> AveragesAgree(xs, ys, alpha, i)
  {
    hide RowAt, EwmAt;
    if RowsAgree(ind, a, b, i) {
      forall k | 0 <= k <= i
        ensures EwmAt(xs, alpha, k) == EwmAt(ys, alpha, k)
      {
        assert RowAt(ind, a, k) == RowAt(ind, b, k);
      }
    }
  }

  predicate SameTrueRanges(a: seq<Candle>, b: seq<Candle>, barIndex: nat)
    requires barIndex < |a| && barIndex < |b|
  {
    forall k :: 0 <= k <= barIndex ==> TrueRangeAt(a, k) == TrueRangeAt(b, k)
  }

  /** For the ATR likewise, on the true ranges. */
  lemma AtrReuseRightExactlyWhen(period: int, a: seq<Candle>, b: seq<Candle>, barIndex: nat)
    requires period >= 1 && barIndex < |b|
    ensures var ind := ATR(period);
            var served := Serve(map[ind := Compute(ind, a)], ind, ClosedBars(b, barIndex));
            && |served| > barIndex
            && (served[..barIndex + 1] == Compute(ind, ClosedBars(b, barIndex))
                <==> |a| < barIndex + 1 || SameTrueRanges(a, b, barIndex))
  {
    ReuseIsAgreement(ATR(period), a, b, barIndex);
    if |a| >= barIndex + 1 {
      AtrRowsAgreeExactlyWhen(period, a, b, barIndex);
    }
    hide Compute, RowsAgree, SameTrueRanges;
  }

  lemma AtrRowsAgreeExactlyWhen(period: int, a: seq<Candle>, b: seq<Candle>, barIndex: nat)
    requires period >= 1 && barIndex < |a| && barIndex < |b|
    ensures RowsAgree(ATR(period), a, b, barIndex) <==> SameTrueRanges(a, b, barIndex)
  {
    var xs, ys, alpha := TrueRanges(a), TrueRanges(b), 1.0 / (period as real);
    AlphaInRange(period);
    EwmAgreeExactlyWhen(xs, ys, alpha, barIndex);
    hide EwmAt, TrueRangeAt;
    assert InputsAgree(xs, ys, barIndex) <==> SameTrueRanges(a, b, barIndex) by {
      assert forall k :: 0 <= k <= barIndex ==> xs[k] == TrueRangeAt(a, k) && ys[k] == TrueRangeAt(b, k);
    }
    hide InputsAgree, SameTrueRanges;
    RowsAreAverages(ATR(period), a, b, xs, ys, alpha, barIndex);
  }

  /** A wrong value handed out: a strategy that has seen a one-bar frame closing at
      100 is asked about the first bar of a frame that closes at 250. */
  lemma AnotherFramesValueServed(span: int)
    requires span >= 1
    ensures var a, b := [Candle(100.0, 100.0, 100.0)], [Candle(250.0, 250.0, 250.0)];
            var ind := EMA(span);
            && Serve(map[ind := Compute(ind, a)], ind, ClosedBars(b, 0)) == [Scalar(Val(100.0))]
            && Compute(ind, ClosedBars(b, 0)) == [Scalar(Val(250.0))]
  {
    var a, b := [Candle(100.0, 100.0, 100.0)], [Candle(250.0, 250.0, 250.0)];
    assert Compute(EMA(span), a) == [Scalar(Val(100.0))] && Compute(EMA(span), b) == [Scalar(Val(250.0))];
    assert ClosedBars(b, 0) == b;
  }
}
