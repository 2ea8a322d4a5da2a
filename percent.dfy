/** `Math.round((part / whole) * 100)` on exact rationals: round half up
    to the nearest whole percent. */
module Percent {

  lemma MulCancelLess(b: int, x: int, y: int)
    requires b > 0 && b * x < b * y
    ensures x < y
  {
  }

  lemma DivBetween(a: int, b: int, q: int)
    requires b > 0 && b * q <= a < b * (q + 1)
    ensures a / b == q
  {
    var d, m := a / b, a % b;
    assert a == b * d + m && 0 <= m < b;
    MulCancelLess(b, q, d + 1);
    MulCancelLess(b, d, q + 1);
  }

  lemma HalfUpBounds(part: nat, whole: nat)
    requires 0 < whole && part <= whole
    ensures var r := (200 * part + whole) / (2 * whole);
      && 0 <= r <= 100
      && -(whole as int) < 2 * whole * r - 200 * part <= whole
      && (part == 0 ==> r == 0)
      && (part == whole ==> r == 100)
  {
    var r := (200 * part + whole) / (2 * whole);
    var m := (200 * part + whole) % (2 * whole);
    assert 200 * part + whole == 2 * whole * r + m && 0 <= m < 2 * whole;
    if part == 0 {
      DivBetween(whole, 2 * whole, 0);
    }
    if part == whole {
      DivBetween(201 * whole, 2 * whole, 100);
    }
    MulCancelLess(2 * whole, r, 101);
    MulCancelLess(2 * whole, -1, r);
  }

  /** The whole percentage nearest to part / whole, halves rounded up. */
  function RoundedPercent(part: nat, whole: nat): (r: nat)
    requires 0 < whole && part <= whole
    ensures r <= 100
    ensures -(whole as int) < 2 * whole * r - 200 * part <= whole
    ensures part == 0 ==> r == 0
    ensures part == whole ==> r == 100
  {
    HalfUpBounds(part, whole);
    (200 * part + whole) / (2 * whole)
  }
}
