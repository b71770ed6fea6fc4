/** Quaternion multiplication, scalar first. */
module Hamilton {
  datatype Quat = Quat(w: real, x: real, y: real, z: real)

  function QuatMul(a: Quat, b: Quat): Quat {
    Quat(a.w * b.w - a.x * b.x - a.y * b.y - a.z * b.z,
         a.w * b.x + a.x * b.w + a.y * b.z - a.z * b.y,
         a.w * b.y - a.x * b.z + a.y * b.w + a.z * b.x,
         a.w * b.z + a.x * b.y - a.y * b.x + a.z * b.w)
  }

  function QuatConj(q: Quat): Quat {
    Quat(q.w, -q.x, -q.y, -q.z)
  }

  function QuatDot(a: Quat, b: Quat): real {
    a.w * b.w + a.x * b.x + a.y * b.y + a.z * b.z
  }

  function Norm2(q: Quat): real {
    q.w * q.w + q.x * q.x + q.y * q.y + q.z * q.z
  }

  function Scale(s: real, q: Quat): Quat {
    Quat(s * q.w, s * q.x, s * q.y, s * q.z)
  }

  /** p = ab over plain components; the polynomial identities below are stated this way. */
  predicate IsProduct(aw: real, ax: real, ay: real, az: real, bw: real, bx: real, by_: real, bz: real,
                      pw: real, px: real, py: real, pz: real)
  {
    && pw == aw * bw - ax * bx - ay * by_ - az * bz
    && px == aw * bx + ax * bw + ay * bz - az * by_
    && py == aw * by_ - ax * bz + ay * bw + az * bx
    && pz == aw * bz + ax * by_ - ay * bx + az * bw
  }

  predicate IsNorm2(n: real, w: real, x: real, y: real, z: real) {
    n == w * w + x * x + y * y + z * z
  }

  lemma ProductSquares(a: real, b: real, c: real, d: real, e: real, f: real, g: real, h: real,
                       p: real, q: real, r: real, s: real)
    requires p == a * e - b * f - c * g - d * h
    requires q == a * f + b * e + c * h - d * g
    requires r == a * g - b * h + c * e + d * f
    requires s == a * h + b * g - c * f + d * e
    ensures p * p + q * q + r * r + s * s
         == (a * a) * (e * e) + (a * a) * (f * f) + (a * a) * (g * g) + (a * a) * (h * h)
          + (b * b) * (e * e) + (b * b) * (f * f) + (b * b) * (g * g) + (b * b) * (h * h)
          + (c * c) * (e * e) + (c * c) * (f * f) + (c * c) * (g * g) + (c * c) * (h * h)
          + (d * d) * (e * e) + (d * d) * (f * f) + (d * d) * (g * g) + (d * d) * (h * h)
  {
  }

  lemma SumsProduct(m: real, k: real, a: real, b: real, c: real, d: real, e: real, f: real, g: real, h: real)
    requires m == a + b + c + d && k == e + f + g + h
    ensures m * k == a * e + a * f + a * g + a * h + b * e + b * f + b * g + b * h
                   + c * e + c * f + c * g + c * h + d * e + d * f + d * g + d * h
  {
  }

  /** Euler's four-square identity. */
  lemma FourSquares(a: real, b: real, c: real, d: real, e: real, f: real, g: real, h: real,
                    p: real, q: real, r: real, s: real, n: real, m: real, k: real)
    requires IsProduct(a, b, c, d, e, f, g, h, p, q, r, s)
    requires IsNorm2(n, p, q, r, s) && IsNorm2(m, a, b, c, d) && IsNorm2(k, e, f, g, h)
    ensures n == m * k
  {
    ProductSquares(a, b, c, d, e, f, g, h, p, q, r, s);
    SumsProduct(m, k, a * a, b * b, c * c, d * d, e * e, f * f, g * g, h * h);
  }

  lemma Norm2Is(q: Quat, n: real)
    requires n == Norm2(q)
    ensures IsNorm2(n, q.w, q.x, q.y, q.z)
  {
  }

  lemma MulIs(a: Quat, b: Quat, p: Quat)
    requires p == QuatMul(a, b)
    ensures IsProduct(a.w, a.x, a.y, a.z, b.w, b.x, b.y, b.z, p.w, p.x, p.y, p.z)
  {
  }

  lemma FourSquaresOf(a: Quat, b: Quat, p: Quat, n: real, m: real, k: real)
    requires IsProduct(a.w, a.x, a.y, a.z, b.w, b.x, b.y, b.z, p.w, p.x, p.y, p.z)
    requires IsNorm2(n, p.w, p.x, p.y, p.z) && IsNorm2(m, a.w, a.x, a.y, a.z) && IsNorm2(k, b.w, b.x, b.y, b.z)
    ensures n == m * k
  {
    FourSquares(a.w, a.x, a.y, a.z, b.w, b.x, b.y, b.z, p.w, p.x, p.y, p.z, n, m, k);
  }

  /** The product multiplies norms. */
  lemma MulNorm2(a: Quat, b: Quat)
    ensures Norm2(QuatMul(a, b)) == Norm2(a) * Norm2(b)
  {
    var p := QuatMul(a, b);
    Norm2Is(p, Norm2(p));
    Norm2Is(a, Norm2(a));
    Norm2Is(b, Norm2(b));
    MulIs(a, b, p);
    FourSquaresOf(a, b, p, Norm2(p), Norm2(a), Norm2(b));
  }

  lemma ConjugateEntries(w: real, x: real, y: real, z: real, x': real, y': real, z': real)
    requires x' == -x && y' == -y && z' == -z
    ensures x' * x' == x * x && y' * y' == y * y && z' * z' == z * z
    ensures x' * y' == x * y && x' * z' == x * z && y' * z' == y * z
    ensures w * x' == -(w * x) && w * y' == -(w * y) && w * z' == -(w * z)
  {
  }
}
