/** Python's built-in `round` on a number, which rounds ties to the even integer. */
module Numeric {

  /** `round(x)` in Python 3: the nearest integer, ties going to the even neighbour. */
  function RoundHalfEven(x: real): (r: int)
    ensures -1.0 / 2.0 <= r as real - x <= 1.0 / 2.0
    ensures (r as real - x == 1.0 / 2.0 || x - r as real == 1.0 / 2.0) ==> r % 2 == 0
  {
    var f := x.Floor;
    var frac := x - f as real;
    if frac < 1.0 / 2.0 then f
    else if frac > 1.0 / 2.0 then f + 1
    else if f % 2 == 0 then f
    else f + 1
  }

  /** The two properties in the contract of `RoundHalfEven` pin the result down:
      no other integer satisfies both. */
  lemma RoundHalfEvenUnique(x: real, n: int)
    requires -1.0 / 2.0 <= n as real - x <= 1.0 / 2.0
    requires (n as real - x == 1.0 / 2.0 || x - n as real == 1.0 / 2.0) ==> n % 2 == 0
    ensures n == RoundHalfEven(x)
  {
  }

  /** Rounding never reverses the order of two numbers. */
  lemma RoundHalfEvenMonotone(x: real, y: real)
    requires x <= y
    ensures RoundHalfEven(x) <= RoundHalfEven(y)
  {
    if x.Floor < y.Floor {
      assert RoundHalfEven(x) <= x.Floor + 1 <= y.Floor <= RoundHalfEven(y);
    }
  }

  /** Rounding an integer-valued number gives that integer back. */
  lemma RoundHalfEvenOfInt(n: int)
    ensures RoundHalfEven(n as real) == n
  {
    RoundHalfEvenUnique(n as real, n);
  }
}
