/** Banker's rounding of an exact rational to an integer (`MidpointNearestEven`). */
module Rounding {

  function RoundHalfEven(x: real): int
  {
    var f := x.Floor;
    var d := x - f as real;
    if d < 0.5 then f
    else if d > 0.5 then f + 1
    else if f % 2 == 0 then f
    else f + 1
  }

  /** The nearest integer, the even one when two are equally near; unique by that description. */
  lemma RoundsToNearest(x: real, n: int)
    ensures RoundHalfEven(x) == n <==>
            -0.5 <= n as real - x <= 0.5 && ((n as real - x == 0.5 || n as real - x == -0.5) ==> n % 2 == 0)
  {
    var f := x.Floor;
    assert f as real <= x < f as real + 1.0;
    if -0.5 <= n as real - x <= 0.5 {
      assert n == f || n == f + 1;
    }
  }

  lemma RoundOddSymmetry(x: real)
    ensures RoundHalfEven(-x) == -RoundHalfEven(x)
  {
    RoundsToNearest(x, RoundHalfEven(x));
    RoundsToNearest(-x, -RoundHalfEven(x));
  }

  lemma RoundExact(n: int)
    ensures RoundHalfEven(n as real) == n
  {
    RoundsToNearest(n as real, n);
  }
}
