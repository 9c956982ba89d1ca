/**
 Decimal quantising, half up and half even. A quantised value is an integer number of quanta, of
 which `scale` make one.
 */
module Rounding {

  /** ROUND_HALF_UP of a non-negative value. */
  function HalfUp(x: real, scale: int): int {
    (x * scale as real + 0.5).Floor
  }

  /** The integer nearest to `y`, the even one of two. */
  function Nearest(y: real): int {
    var rest := y - y.Floor as real;
    if rest < 0.5 || (rest == 0.5 && y.Floor % 2 == 0) then y.Floor else y.Floor + 1
  }

  /** ROUND_HALF_EVEN, the default context of `decimal` and of Python's `round`. */
  function HalfEven(x: real, scale: int): int {
    Nearest(x * scale as real)
  }

  lemma NearestMonotone(a: real, b: real)
    requires a <= b
    ensures Nearest(a) <= Nearest(b)
  {
    assert a.Floor <= b.Floor;
    if a.Floor == b.Floor {
      assert a - a.Floor as real <= b - b.Floor as real;
    }
  }

  lemma ScaleMonotone(x: real, y: real, scale: int)
    requires scale > 0 && x <= y
    ensures x * scale as real <= y * scale as real
  {}

  lemma HalfUpMonotone(x: real, y: real, scale: int)
    requires scale > 0 && x <= y
    ensures HalfUp(x, scale) <= HalfUp(y, scale)
  {
    ScaleMonotone(x, y, scale);
  }

  lemma HalfEvenMonotone(x: real, y: real, scale: int)
    requires scale > 0 && x <= y
    ensures HalfEven(x, scale) <= HalfEven(y, scale)
  {
    ScaleMonotone(x, y, scale);
    NearestMonotone(x * scale as real, y * scale as real);
  }

  /** Rounding is off by at most half a quantum. */
  lemma HalfEvenClose(x: real, scale: int)
    ensures -0.5 <= HalfEven(x, scale) as real - x * scale as real <= 0.5
  {}

  /** Quanta are fixed points. */
  lemma HalfEvenExact(n: int, scale: int)
    requires scale > 0
    ensures HalfEven(n as real / scale as real, scale) == n
  {
    assert n as real / scale as real * scale as real == n as real;
  }

  /** Half up is the integer nearest, the greater one of two. */
  lemma HalfUpIs(x: real, scale: int, n: int)
    ensures n == HalfUp(x, scale) <==> -0.5 < n as real - x * scale as real <= 0.5
  {}

  lemma NearestIs(y: real, n: int)
    ensures n == Nearest(y) <==>
      -0.5 < n as real - y < 0.5 || ((n as real - y == 0.5 || y - n as real == 0.5) && n % 2 == 0)
  {
    var f := y.Floor;
    assert f as real <= y < f as real + 1.0;
    assert n == f || n == f + 1 || n < f || n > f + 1;
  }

  /** Half even is the integer nearest, the even one of two. */
  lemma HalfEvenIs(x: real, scale: int, n: int)
    ensures var e := n as real - x * scale as real;
      n == HalfEven(x, scale) <==> -0.5 < e < 0.5 || ((e == 0.5 || e == -0.5) && n % 2 == 0)
  {
    NearestIs(x * scale as real, n);
  }
}
