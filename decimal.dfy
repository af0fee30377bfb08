/**
 * The C# `decimal` arithmetic the pipeline performs, over Dafny's exact
 * `real`: `Math.Round(d, 2)` with its default midpoint-to-even rule, and the
 * running sums the report accumulates.
 */
module Decimal {

  /** `x` has at most two digits after the decimal point. */
  predicate IsCents(x: real) {
    (x * 100.0).Floor as real == x * 100.0
  }

  /** The number of cents `Math.Round(x, 2)` keeps: `x * 100` rounded to the
      nearest integer, and at an exact tie to the even one. */
  function RoundedCents(x: real): (n: int)
    ensures -0.5 <= n as real - x * 100.0 <= 0.5
    ensures n as real - x * 100.0 == 0.5 || n as real - x * 100.0 == -0.5 ==> n % 2 == 0
  {
    var y := x * 100.0;
    var f := y.Floor;
    var fraction := y - f as real;
    if fraction < 0.5 then f
    else if fraction > 0.5 then f + 1
    else if f % 2 == 0 then f
    else f + 1
  }

  /** `Math.Round(x, 2)` (MidpointRounding.ToEven): a value with at most two
      decimals, within half a cent of `x`, never negative for a non-negative
      input, and `x` itself when `x` already has at most two decimals. */
  function Round2(x: real): (r: real)
    ensures IsCents(r)
    ensures -0.005 <= r - x <= 0.005
    ensures 0.0 <= x ==> 0.0 <= r
    ensures IsCents(x) ==> r == x
  {
    var n := RoundedCents(x);
    var r := n as real / 100.0;
    assert r * 100.0 == n as real;
    r
  }

  /** Rounding twice is rounding once. */
  lemma Round2Idempotent(x: real)
    ensures Round2(Round2(x)) == Round2(x)
  {
  }

  /** At an exact half cent, `Math.Round` goes to the even number of cents. */
  lemma Round2MidpointToEven(x: real)
    requires (x * 100.0 - (x * 100.0).Floor as real) == 0.5
    ensures (Round2(x) * 100.0).Floor % 2 == 0
  {
    var n := RoundedCents(x);
    assert Round2(x) * 100.0 == n as real;
  }

  /** Sum of the amounts, accumulated left to right as the report does. */
  function Sum(xs: seq<real>): real {
    if xs == [] then 0.0 else Sum(xs[..|xs| - 1]) + xs[|xs| - 1]
  }

  lemma SumAppend(xs: seq<real>, x: real)
    ensures Sum(xs + [x]) == Sum(xs) + x
  {
    assert (xs + [x])[..|xs|] == xs;
  }

  /** Sums add up over concatenation: the order of accumulation does not
      matter for the total. */
  lemma {:induction false} SumConcat(xs: seq<real>, ys: seq<real>)
    ensures Sum(xs + ys) == Sum(xs) + Sum(ys)
  {
    if ys == [] {
      assert xs + ys == xs;
    } else {
      var n := |ys|;
      assert (xs + ys)[..|xs + ys| - 1] == xs + ys[..n - 1];
      SumConcat(xs, ys[..n - 1]);
    }
  }

  /** A sum of zeros is zero. */
  lemma {:induction false} SumOfZeros(xs: seq<real>)
    requires forall i :: 0 <= i < |xs| ==> xs[i] == 0.0
    ensures Sum(xs) == 0.0
  {
    if xs != [] {
      SumOfZeros(xs[..|xs| - 1]);
    }
  }
}
