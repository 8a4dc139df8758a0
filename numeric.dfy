/** Real-number helpers. Double, Float and CGFloat are all modelled as exact `real`. */
module Numeric {

  /** Swift's `max(x, y)`: `y >= x ? y : x`. */
  function Max(x: real, y: real): (r: real)
    ensures r >= x && r >= y && (r == x || r == y)
  {
    if y >= x then y else x
  }

  /** Swift's `min(x, y)`: `y < x ? y : x`. */
  function Min(x: real, y: real): (r: real)
    ensures r <= x && r <= y && (r == x || r == y)
  {
    if y < x then y else x
  }

  function Abs(x: real): (r: real)
    ensures r >= 0.0 && (r == x || r == -x)
  {
    if x < 0.0 then -x else x
  }

  /** Left-to-right sum, the value of `reduce(0, +)`. */
  function Sum(s: seq<real>): real
  {
    if |s| == 0 then 0.0 else Sum(s[..|s| - 1]) + s[|s| - 1]
  }

  function Mean(s: seq<real>): real
    requires |s| > 0
  {
    Sum(s) / (|s| as real)
  }

  ghost predicate AllNonNegative(s: seq<real>)
  {
    forall i | 0 <= i < |s| :: s[i] >= 0.0
  }

  lemma SumAppend(s: seq<real>, x: real)
    ensures Sum(s + [x]) == Sum(s) + x
  {
    assert (s + [x])[..|s|] == s;
  }

  lemma {:induction false} SumNonNegative(s: seq<real>)
    requires AllNonNegative(s)
    ensures Sum(s) >= 0.0
  {
    if |s| > 0 {
      SumNonNegative(s[..|s| - 1]);
    }
  }

  /** Multiplication is monotone on non-negative reals. */
  lemma MulMonotone(a: real, b: real, c: real, d: real)
    requires 0.0 <= a <= c && 0.0 <= b <= d
    ensures a * b <= c * d
  {
    assert a * b <= c * b by {
      assert (c - a) * b >= 0.0;
    }
    assert c * b <= c * d by {
      assert c * (d - b) >= 0.0;
    }
  }

  lemma SquareNonNegative(x: real)
    ensures x * x >= 0.0
  {
    if x < 0.0 {
      MulMonotone(0.0, 0.0, -x, -x);
    } else {
      MulMonotone(0.0, 0.0, x, x);
    }
  }

  /** A quotient of a non-negative number by a not smaller positive one lies in [0, 1]. */
  lemma QuotientInUnit(n: real, d: real)
    requires 0.0 <= n <= d && d > 0.0
    ensures 0.0 <= n / d <= 1.0
  {
    var q := n / d;
    assert q * d == n;
    assert q <= 1.0 by {
      if q > 1.0 {
        MulMonotone(1.0, d, q, d);
      }
    }
  }
}
