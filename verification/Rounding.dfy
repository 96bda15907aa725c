/** Python's `round` over exact reals: nearest value, ties to even. */
module Rounding {

  function RoundHalfEven(x: real): (r: int)
    ensures -0.5 <= r as real - x <= 0.5
    ensures (r as real - x == 0.5 || r as real - x == -0.5) ==> r % 2 == 0
  {
    var f := x.Floor;
    var d := x - f as real;
    if d < 0.5 then f else if d > 0.5 then f + 1 else if f % 2 == 0 then f else f + 1
  }

  /** The contract of RoundHalfEven leaves no other choice. */
  lemma RoundHalfEvenUnique(x: real, n: int)
    requires -0.5 <= n as real - x <= 0.5
    requires (n as real - x == 0.5 || n as real - x == -0.5) ==> n % 2 == 0
    ensures n == RoundHalfEven(x)
  {
  }

  lemma RoundMonotone(x: real, y: real)
    requires x <= y
    ensures RoundHalfEven(x) <= RoundHalfEven(y)
  {
    assert RoundHalfEven(x) > RoundHalfEven(y) ==> x == y;
  }

  lemma RoundSeparates(x: real, y: real)
    requires y - x > 1.0
    ensures RoundHalfEven(x) < RoundHalfEven(y)
  {
  }

  lemma RoundInteger(n: int)
    ensures RoundHalfEven(n as real) == n
  {
  }

  const NANO := 1000000000.0

  /** `round(x, 9)`, counted in units of 1e-9. */
  function Round9(x: real): int { RoundHalfEven(x * NANO) }

  /** Points further apart than 1e-9 never share a key, two points exactly 1e-9 apart may. */
  lemma Round9CollidesAtOneNano()
    ensures exists x: real :: Round9(x) == Round9(x + 0.000000001)
  {
    var x := 0.0000000015;
    assert x * NANO == 1.5;
    RoundHalfEvenUnique(1.5, 2);
    assert (x + 0.000000001) * NANO == 2.5;
    RoundHalfEvenUnique(2.5, 2);
    assert Round9(x) == Round9(x + 0.000000001);
  }
}
