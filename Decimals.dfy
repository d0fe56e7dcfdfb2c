/** .NET `decimal` amounts, modelled as reals, and Math.Round(decimal, 2),
    whose default midpoint rule rounds half to even. */
module Decimals {

  /** The amount is a whole number of hundredths. */
  predicate HasTwoDecimals(x: real)
  {
    (x * 100.0).Floor as real == x * 100.0
  }

  /** The hundredths count that Math.Round(x, 2) picks: the nearest whole
      number to x * 100, the even one on a tie. */
  function RoundedHundredths(x: real): (n: int)
    ensures -0.5 <= n as real - x * 100.0 <= 0.5
    ensures n as real - x * 100.0 == 0.5 || n as real - x * 100.0 == -0.5 ==> n % 2 == 0
  {
    var scaled := x * 100.0;
    var f := scaled.Floor;
    var frac := scaled - f as real;
    if frac < 0.5 then f
    else if frac > 0.5 then f + 1
    else if f % 2 == 0 then f
    else f + 1
  }

  /** Math.Round(x, 2): a whole number of hundredths, within half a
      hundredth of x, never negative for a non-negative x. */
  function Round2(x: real): (r: real)
    ensures HasTwoDecimals(r)
    ensures -0.005 <= r - x <= 0.005
    ensures x >= 0.0 ==> r >= 0.0
  {
    var n := RoundedHundredths(x);
    var r := n as real / 100.0;
    assert r * 100.0 == n as real;
    assert (n as real).Floor == n;
    assert r - x == (n as real - x * 100.0) / 100.0;
    r
  }

  /** Rounding an amount that already has two decimals gives it back. */
  lemma Round2OfTwoDecimals(x: real)
    requires HasTwoDecimals(x)
    ensures Round2(x) == x
  {
  }

  /** Rounding is idempotent. */
  lemma Round2Idempotent(x: real)
    ensures Round2(Round2(x)) == Round2(x)
  {
  }

  /** No amount with two decimals is nearer to x than Round2(x). */
  lemma {:induction false} Round2IsNearest(x: real, y: real)
    requires HasTwoDecimals(y)
    ensures Abs(Round2(x) - x) <= Abs(y - x)
  {
    var n := RoundedHundredths(x);
    var m := (y * 100.0).Floor;
    assert y == m as real / 100.0;
    if m < n {
      assert m <= n - 1;
    } else if m > n {
      assert m >= n + 1;
    }
  }

  /** Midpoints go to the even hundredth. */
  lemma Round2Midpoints()
    ensures Round2(0.125) == 0.12
    ensures Round2(0.135) == 0.14
    ensures Round2(2.675) == 2.68
    ensures Round2(9.999) == 10.0
  {
  }

  function Abs(x: real): real { if x < 0.0 then -x else x }
}
