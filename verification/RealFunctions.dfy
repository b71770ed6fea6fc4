/**
 The C library's real functions as parameters, known only by their defining equations.
 Rounding is not modelled.
 */
module RealFunctions {

  ghost predicate IsSqrt(sqrt: real -> real) {
    forall x: real :: x >= 0.0 ==> sqrt(x) >= 0.0 && sqrt(x) * sqrt(x) == x
  }

  lemma SquareUnique(a: real, b: real)
    requires a >= 0.0 && b >= 0.0 && a * a == b * b
    ensures a == b
  {
    if a < b {
      SquareGrows(a, b);
    } else if b < a {
      SquareGrows(b, a);
    }
  }

  lemma SquareGrows(a: real, b: real)
    requires 0.0 <= a < b
    ensures a * a < b * b
  {
    var d := b - a;
    assert b * b == a * a + 2.0 * (a * d) + d * d;
    assert a * d >= 0.0;
    assert d * d > 0.0;
  }

  lemma SquareMonotone(a: real, b: real)
    requires a >= 0.0 && b >= 0.0
    ensures a < b <==> a * a < b * b
  {
    if a < b {
      SquareGrows(a, b);
    } else if b < a {
      SquareGrows(b, a);
    }
  }

  lemma SquareNonneg(a: real)
    ensures a * a >= 0.0
  {
  }

  lemma NegativeProduct(d: real, m: real)
    requires d > 0.0 && m < 0.0
    ensures d * m < 0.0
  {
  }

  /** A 2×2 block with diagonal d, e and corner c, of negative determinant, is negative at (c, −d). */
  lemma MinorNegative(d: real, e: real, c: real, n: real, v: real)
    requires d > 0.0 && d * e < c * c && n == -d
    requires v == (c * d + n * c) * c + (c * c + n * e) * n
    ensures v < 0.0
  {
    assert v == d * (d * e - c * c);
    NegativeProduct(d, d * e - c * c);
  }
}
