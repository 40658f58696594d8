// Small shared vocabulary: optional values, results, and a few facts about
// numbers that the other modules would otherwise each restate.

module Wrappers {

  datatype Option<+T> = None | Some(value: T)

  datatype Result<+T, +E> = Ok(value: T) | Err(error: E)

  /** The zero- or one-element sequence holding an optional value. */
  function ToSeq<T>(o: Option<T>): seq<T> {
    match o
    case None => []
    case Some(v) => [v]
  }

  lemma AnyElement<X>(s: set<X>) returns (x: X)
    requires s != {}
    ensures x in s
  {
    x :| x in s;
  }
}

module IntMath {

  /** A product is on the same side of zero, and at least as far out, as its factor. */
  lemma MulBounds(k: int, m: int)
    requires m > 0
    ensures k >= 1 ==> k * m >= m
    ensures k <= -1 ==> k * m <= -m
    ensures k >= 0 ==> k * m >= 0
    ensures k <= 0 ==> k * m <= 0
  {
    if k >= 1 {
      assert (k - 1) * m >= 0;
    } else if k <= -1 {
      assert (-k - 1) * m >= 0;
    }
  }

  lemma ZeroRemainder(k: int, m: int)
    requires m > 0
    ensures k * m % m == 0
  {
    var p, r := k * m / m, k * m % m;
    assert (k - p) * m == r;
    MulBounds(k - p, m);
  }
}

module RealMath {

  function Max(a: real, b: real): real { if a >= b then a else b }

  function Min(a: real, b: real): real { if a <= b then a else b }

  function Abs(a: real): real { if a < 0.0 then -a else a }

  function Sum(s: seq<real>): real {
    if s == [] then 0.0 else Sum(s[..|s| - 1]) + s[|s| - 1]
  }

  lemma Cancel(a: real, b: real, k: real)
    requires k != 0.0 && a * k == b * k
    ensures a == b
  {
    assert (a - b) * k == 0.0;
    if a > b {
      MulSign(a - b, k);
    } else if a < b {
      MulSign(b - a, k);
    }
  }

  lemma MulSign(a: real, k: real)
    requires a > 0.0 && k != 0.0
    ensures a * k != 0.0
  {
  }

  lemma MulOrder(a: real, b: real, k: real)
    requires a <= b && 0.0 <= k
    ensures a * k <= b * k
  {
    assert 0.0 <= (b - a) * k;
  }
}
