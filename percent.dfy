/** `Math.round((part / whole) * 100)` on exact rationals: the percentage
    rounded to the nearest integer, halves rounded up. */
module Percent {

  /** The nearest integer to `100 * part / whole`, a tie going up. */
  function RoundPercent(part: nat, whole: nat): (r: nat)
    requires whole > 0
    ensures 2 * whole * r <= 200 * part + whole < 2 * whole * (r + 1)
  {
    (200 * part + whole) / (2 * whole)
  }

  /** A share of a whole is between 0 and 100 percent; none of it is 0 and
      all of it is 100. */
  lemma RoundPercentBounds(part: nat, whole: nat)
    requires 0 < whole && part <= whole
    ensures RoundPercent(part, whole) <= 100
    ensures part == 0 ==> RoundPercent(part, whole) == 0
    ensures part == whole ==> RoundPercent(part, whole) == 100
  {
    var r := RoundPercent(part, whole);
    if r > 100 {
      assert 2 * whole * r >= 2 * whole * 101 by {
        MulMonotone(2 * whole, 101, r);
      }
      assert false;
    }
    if part == 0 && r > 0 {
      assert 2 * whole * r >= 2 * whole by {
        MulMonotone(2 * whole, 1, r);
      }
      assert false;
    }
    if part == whole && r < 100 {
      assert 2 * whole * (r + 1) <= 2 * whole * 100 by {
        MulMonotone(2 * whole, r + 1, 100);
      }
      assert false;
    }
  }

  /** More completed items never give a smaller percentage. */
  lemma RoundPercentMonotone(a: nat, b: nat, whole: nat)
    requires 0 < whole && a <= b
    ensures RoundPercent(a, whole) <= RoundPercent(b, whole)
  {
    var ra, rb := RoundPercent(a, whole), RoundPercent(b, whole);
    if ra > rb {
      assert 2 * whole * (rb + 1) <= 2 * whole * ra by {
        MulMonotone(2 * whole, rb + 1, ra);
      }
      assert false;
    }
  }

  lemma MulMonotone(k: nat, x: nat, y: nat)
    requires x <= y
    ensures k * x <= k * y
  {
  }
}
