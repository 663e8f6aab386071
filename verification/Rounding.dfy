/** Python's round() on reals: to the nearest integer, ties to the even one. */
module Rounding {

  function RoundHalfEven(x: real): (n: int)
    ensures -0.5 <= x - n as real <= 0.5
    ensures x - n as real == 0.5 || x - n as real == -0.5 ==> n % 2 == 0
  {
    var below := x.Floor;
    var part := x - below as real;
    if part < 0.5 || (part == 0.5 && below % 2 == 0) then below else below + 1
  }

  /** The contract of RoundHalfEven has one solution: any even-tied nearest integer is it. */
  lemma {:induction false} RoundIsUnique(x: real, n: int)
    requires -0.5 <= x - n as real <= 0.5
    requires x - n as real == 0.5 || x - n as real == -0.5 ==> n % 2 == 0
    ensures RoundHalfEven(x) == n
  {
    var m := RoundHalfEven(x);
    assert -1.0 <= m as real - n as real <= 1.0;
  }

  lemma {:induction false} RoundIsMonotone(x: real, y: real)
    requires x <= y
    ensures RoundHalfEven(x) <= RoundHalfEven(y)
  {
  }
}
