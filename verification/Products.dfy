/** Order and sign of products of reals, with the products named. */
module Products {
  lemma Positive(x: real, y: real, p: real)
    requires x >= 0.0 && y >= 0.0 && p == x * y
    ensures p >= 0.0
  {
  }

  lemma Less(x: real, y: real, k: real, p: real, q: real)
    requires x <= y && k >= 0.0 && p == x * k && q == y * k
    ensures p <= q
  {
    Positive(y - x, k, q - p);
  }

  lemma Unit(a: real, b: real, p: real)
    requires 0.0 <= a <= 1.0 && 0.0 <= b <= 1.0 && p == a * b
    ensures 0.0 <= p <= 1.0
  {
    Positive(a, b, p);
    Less(a, 1.0, b, p, b);
  }

  lemma Bounded(t: real, l: real, k: real, p: real, m: real)
    requires -l <= t <= l && k >= 0.0 && p == t * k && m == l * k
    ensures -m <= p <= m
  {
    Less(t, l, k, p, m);
    Less(-l, t, k, -m, p);
  }

  lemma Negate(t: real, k: real, p: real, q: real)
    requires p == t * k && q == t * -k
    ensures q == -p
  {
  }

  lemma Strict(x: real, y: real, k: real, p: real, q: real)
    requires x < y && k > 0.0 && p == x * k && q == y * k
    ensures p < q
  {
    StrictlyPositive(y - x, k, q - p);
  }

  lemma StrictlyPositive(x: real, y: real, p: real)
    requires x > 0.0 && y > 0.0 && p == x * y
    ensures p > 0.0
  {
  }
}
