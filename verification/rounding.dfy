/** Facts about rounded division of natural numbers. */
module Rounding {

  lemma MulMonotone(a: int, b: int, d: nat)
    requires a <= b
    ensures a * d <= b * d
  {
  }

  /** Rounded-down division is the right adjoint of multiplication. */
  lemma FloorIff(a: nat, d: nat, e: nat)
    requires d > 0
    ensures e <= a / d <==> e * d <= a
  {
    var q := a / d;
    assert q * d <= a < q * d + d;
    if e <= q {
      MulMonotone(e, q, d);
    } else {
      MulMonotone(q + 1, e, d);
      assert (q + 1) * d == q * d + d;
    }
  }

  /** Rounded-up division is the left adjoint. */
  lemma CeilIff(a: nat, d: nat, m: nat)
    requires d > 0
    ensures (a + (d - 1)) / d <= m <==> a <= m * d
  {
    FloorIff(a + (d - 1), d, m + 1);
    assert (m + 1) * d == m * d + d;
  }

  lemma Remainder(a: nat, d: nat)
    requires d > 0
    ensures 0 <= a - a / d * d < d
  {
  }

  lemma QuotientMonotone(x: nat, y: nat, d: nat)
    requires d > 0 && x <= y
    ensures 0 <= x / d <= y / d
  {
    FloorIff(x, d, 0);
    FloorIff(x, d, x / d);
    FloorIff(y, d, x / d);
  }

  /** Dividing a sum of a multiple and less than two divisors. */
  lemma QuotientOf(a: nat, d: nat, q: nat, rest: nat)
    requires d > 0 && a == q * d + rest && rest < 2 * d
    ensures a / d == if rest < d then q else q + 1
  {
    assert (q + 1) * d == q * d + d;
    assert (q + 2) * d == q * d + 2 * d;
    FloorIff(a, d, q);
    FloorIff(a, d, q + 1);
    FloorIff(a, d, q + 2);
  }

  /** Rounded-down counts of a growing quantity differ by the growth, rounded either down or up. */
  lemma DifferenceOfFloors(a: nat, b: nat, d: nat)
    requires d > 0
    ensures a / d <= (a + b) / d
    ensures (a + b) / d - a / d == b / d || (a + b) / d - a / d == (b + (d - 1)) / d
  {
    var p, q := a / d, b / d;
    FloorIff(a, d, 0);
    FloorIff(b, d, 0);
    Remainder(a, d);
    Remainder(b, d);
    hide *;
    var x, y := a - p * d, b - q * d;
    SumOfMultiples(p, q, d);
    QuotientOf(a + b, d, p + q, x + y);
    QuotientOf(b + (d - 1), d, q, y + (d - 1));
  }

  lemma SumOfMultiples(p: int, q: int, d: int)
    ensures (p + q) * d == p * d + q * d
  {
  }

  /** Taking off a multiple of the divisor takes off that many from the quotient. */
  lemma QuotientShifts(a: nat, d: nat, k: nat)
    requires d > 0 && k * d <= a
    ensures (a - k * d) / d == a / d - k
  {
    var q := a / d;
    FloorIff(a, d, k);
    Remainder(a, d);
    SumOfMultiples(q - k, k, d);
    QuotientOf(a - k * d, d, q - k, a - q * d);
  }
}
