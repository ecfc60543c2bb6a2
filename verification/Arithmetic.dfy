// Remainders by repeated subtraction, so that ring arithmetic stays linear.
module Arithmetic {

  function Wrap(a: nat, m: nat): (r: nat)
    requires m > 0
    ensures r < m
  {
    if a < m then a else Wrap(a - m, m)
  }

  lemma {:induction false} WrapIsRemainder(a: nat, m: nat)
    requires m > 0
    ensures Wrap(a, m) == a % m == a - (a / m) * m
  {
    if a >= m {
      WrapIsRemainder(a - m, m);
      var q := (a - m) / m;
      assert a == (q + 1) * m + Wrap(a, m);
      QuotientUnique(a, q + 1, Wrap(a, m), m);
    } else {
      QuotientUnique(a, 0, a, m);
    }
  }

  lemma QuotientUnique(x: int, quotient: int, remainder: int, m: int)
    requires 0 <= remainder < m
    requires x == quotient * m + remainder
    ensures x / m == quotient && x % m == remainder
  {
    assert (quotient - x / m) * m == x % m - remainder;
    if quotient > x / m { MulAtLeast(quotient - x / m, m); }
    if quotient < x / m { MulAtLeast(x / m - quotient, m); }
  }

  lemma MulAtLeast(k: int, m: int)
    requires k >= 1 && m >= 0
    ensures k * m >= m
  {
    assert k * m == (k - 1) * m + m;
    assert (k - 1) * m >= 0;
  }

  lemma {:induction false} WrapDistinct(a: nat, b: nat, m: nat)
    requires a < b < a + m
    ensures Wrap(a, m) != Wrap(b, m)
    decreases a
  {
    if a < m {
    } else {
      WrapDistinct(a - m, b - m, m);
    }
  }

  // Any `m` consecutive numbers reach every remainder.
  lemma {:induction false} WrapReaches(a: nat, m: nat, r: nat) returns (x: nat)
    requires r < m
    ensures a <= x < a + m && Wrap(x, m) == r
  {
    if a >= m {
      x := WrapReaches(a - m, m, r);
      x := x + m;
    } else {
      x := if r >= a then r else r + m;
    }
  }
}
