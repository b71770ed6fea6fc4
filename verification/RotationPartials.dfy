/**
 The partial derivatives of R(q)v·dt by the quaternion components. The rows of R are cyclic
 relabellings of one another, so the first row stands for all three.
 */
module RotationPartials {

  /** First row of R(q)v, for q = (w, x, y, z) and v = (a, b, c). */
  function RowX(w: real, x: real, y: real, z: real, a: real, b: real, c: real): real {
    (1.0 - 2.0 * (y * y + z * z)) * a + 2.0 * (x * y - w * z) * b + 2.0 * (x * z + w * y) * c
  }

  function ByW(w: real, x: real, y: real, z: real, a: real, b: real, c: real, dt: real): real {
    dt * 2.0 * (y * c - z * b)
  }

  function ByX(w: real, x: real, y: real, z: real, a: real, b: real, c: real, dt: real): real {
    dt * 2.0 * (y * b + z * c)
  }

  function ByY(w: real, x: real, y: real, z: real, a: real, b: real, c: real, dt: real): real {
    dt * 2.0 * (-2.0 * y * a + x * b + w * c)
  }

  function ByZ(w: real, x: real, y: real, z: real, a: real, b: real, c: real, dt: real): real {
    dt * 2.0 * (-2.0 * z * a - w * b + x * c)
  }

  // The row is quadratic in each component, so its central difference over any ±h is exactly 2h
  // times its partial derivative.

  lemma SlopeW(w: real, x: real, y: real, z: real, a: real, b: real, c: real, dt: real, h: real, k: real)
    requires k == -h
    ensures dt * RowX(w + h, x, y, z, a, b, c) - dt * RowX(w + k, x, y, z, a, b, c) == 2.0 * h * ByW(w, x, y, z, a, b, c, dt)
  {
  }

  lemma SlopeX(w: real, x: real, y: real, z: real, a: real, b: real, c: real, dt: real, h: real, k: real)
    requires k == -h
    ensures dt * RowX(w, x + h, y, z, a, b, c) - dt * RowX(w, x + k, y, z, a, b, c) == 2.0 * h * ByX(w, x, y, z, a, b, c, dt)
  {
  }

  lemma SlopeY(w: real, x: real, y: real, z: real, a: real, b: real, c: real, dt: real, h: real, k: real)
    requires k == -h
    ensures dt * RowX(w, x, y + h, z, a, b, c) - dt * RowX(w, x, y + k, z, a, b, c) == 2.0 * h * ByY(w, x, y, z, a, b, c, dt)
  {
  }

  lemma SlopeZ(w: real, x: real, y: real, z: real, a: real, b: real, c: real, dt: real, h: real, k: real)
    requires k == -h
    ensures dt * RowX(w, x, y, z + h, a, b, c) - dt * RowX(w, x, y, z + k, a, b, c) == 2.0 * h * ByZ(w, x, y, z, a, b, c, dt)
  {
  }

  /** The central difference of the first row over ±h of the last component. */
  function DifferenceZ(h: real, w: real, x: real, y: real, z: real, a: real, b: real, c: real, dt: real): real {
    dt * RowX(w, x, y, z + h, a, b, c) - dt * RowX(w, x, y, z + -h, a, b, c)
  }

  /** e is the partial of the first row by the last component. */
  ghost predicate IsPartialByZ(e: real, w: real, x: real, y: real, z: real, a: real, b: real, c: real, dt: real) {
    forall h: real :: DifferenceZ(h, w, x, y, z, a, b, c, dt) == 2.0 * h * e
  }

  lemma PartialByZ(e: real, w: real, x: real, y: real, z: real, a: real, b: real, c: real, dt: real)
    ensures IsPartialByZ(e, w, x, y, z, a, b, c, dt) <==> e == ByZ(w, x, y, z, a, b, c, dt)
  {
    if IsPartialByZ(e, w, x, y, z, a, b, c, dt) {
      assert DifferenceZ(1.0, w, x, y, z, a, b, c, dt) == 2.0 * 1.0 * e;
      SlopeZ(w, x, y, z, a, b, c, dt, 1.0, -1.0);
    }
    if e == ByZ(w, x, y, z, a, b, c, dt) {
      forall h: real ensures DifferenceZ(h, w, x, y, z, a, b, c, dt) == 2.0 * h * e {
        SlopeZ(w, x, y, z, a, b, c, dt, h, -h);
      }
    }
  }

  /** The entry the filter writes there: y where the derivative has x. */
  function LastEntry(w: real, x: real, y: real, z: real, a: real, b: real, c: real, dt: real): real {
    dt * 2.0 * (-2.0 * z * a - w * b + y * c)
  }

  lemma EntryError(w: real, x: real, y: real, z: real, a: real, b: real, c: real, dt: real)
    ensures LastEntry(w, x, y, z, a, b, c, dt) == ByZ(w, x, y, z, a, b, c, dt) - 2.0 * (dt * ((x - y) * c))
  {
  }

  lemma ZeroProduct(p: real, q: real, r: real)
    ensures p * (q * r) == 0.0 <==> p == 0.0 || q == 0.0 || r == 0.0
  {
    if p != 0.0 && q != 0.0 && r != 0.0 {
      assert q * r != 0.0;
    }
  }

  /**
   The filter's entry for the first row by the last component is the partial derivative exactly when
   its x and y components agree, or no vertical velocity or no time multiplies them.
   */
  lemma LastEntryOfFirstRow(w: real, x: real, y: real, z: real, a: real, b: real, c: real, dt: real)
    ensures IsPartialByZ(LastEntry(w, x, y, z, a, b, c, dt), w, x, y, z, a, b, c, dt) <==> dt == 0.0 || x == y || c == 0.0
  {
    PartialByZ(LastEntry(w, x, y, z, a, b, c, dt), w, x, y, z, a, b, c, dt);
    EntryError(w, x, y, z, a, b, c, dt);
    ZeroProduct(dt, x - y, c);
  }

  // ---- the 3×4 block as the filter writes it ----

  function PosAttRow0(w: real, x: real, y: real, z: real, a: real, b: real, c: real, dt: real): (r: seq<real>)
    ensures |r| == 4
  {
    [dt * 2.0 * (y * c - z * b), dt * 2.0 * (y * b + z * c),
     dt * 2.0 * (-2.0 * y * a + x * b + w * c), dt * 2.0 * (-2.0 * z * a - w * b + y * c)]
  }

  function PosAttRow1(w: real, x: real, y: real, z: real, a: real, b: real, c: real, dt: real): (r: seq<real>)
    ensures |r| == 4
  {
    [dt * 2.0 * (z * a - x * c), dt * 2.0 * (y * a - 2.0 * x * b - w * c),
     dt * 2.0 * (x * a + z * c), dt * 2.0 * (w * a - 2.0 * z * b + y * c)]
  }

  function PosAttRow2(w: real, x: real, y: real, z: real, a: real, b: real, c: real, dt: real): (r: seq<real>)
    ensures |r| == 4
  {
    [dt * 2.0 * (x * b - y * a), dt * 2.0 * (z * a + w * b - 2.0 * x * c),
     dt * 2.0 * (-w * a + z * b - 2.0 * y * c), dt * 2.0 * (x * a + y * b)]
  }

  /** Eleven of the twelve entries are the exact partials; the twelfth is LastEntry. */
  lemma BlockEntries(w: real, x: real, y: real, z: real, a: real, b: real, c: real, dt: real)
    ensures PosAttRow0(w, x, y, z, a, b, c, dt)
         == [ByW(w, x, y, z, a, b, c, dt), ByX(w, x, y, z, a, b, c, dt),
             ByY(w, x, y, z, a, b, c, dt), LastEntry(w, x, y, z, a, b, c, dt)]
    ensures PosAttRow1(w, x, y, z, a, b, c, dt)
         == [ByW(w, y, z, x, b, c, a, dt), ByZ(w, y, z, x, b, c, a, dt),
             ByX(w, y, z, x, b, c, a, dt), ByY(w, y, z, x, b, c, a, dt)]
    ensures PosAttRow2(w, x, y, z, a, b, c, dt)
         == [ByW(w, z, x, y, c, a, b, dt), ByY(w, z, x, y, c, a, b, dt),
             ByZ(w, z, x, y, c, a, b, dt), ByX(w, z, x, y, c, a, b, dt)]
  {
  }

  /** The difference of dt times a row, over two quaternions, is 2h times an entry. */
  predicate Slope(hi: real, lo: real, h: real, e: real, dt: real) {
    dt * hi - dt * lo == 2.0 * h * e
  }

  lemma FirstRowPartials(w: real, x: real, y: real, z: real, a: real, b: real, c: real, dt: real, h: real, k: real)
    requires k == -h
    ensures var e := PosAttRow0(w, x, y, z, a, b, c, dt);
            && Slope(RowX(w + h, x, y, z, a, b, c), RowX(w + k, x, y, z, a, b, c), h, e[0], dt)
            && Slope(RowX(w, x + h, y, z, a, b, c), RowX(w, x + k, y, z, a, b, c), h, e[1], dt)
            && Slope(RowX(w, x, y + h, z, a, b, c), RowX(w, x, y + k, z, a, b, c), h, e[2], dt)
  {
    BlockEntries(w, x, y, z, a, b, c, dt);
    SlopeW(w, x, y, z, a, b, c, dt, h, k);
    SlopeX(w, x, y, z, a, b, c, dt, h, k);
    SlopeY(w, x, y, z, a, b, c, dt, h, k);
  }

  /** All four entries of the second row are the partials of that row. */
  lemma SecondRowPartials(w: real, x: real, y: real, z: real, a: real, b: real, c: real, dt: real, h: real, k: real)
    requires k == -h
    ensures var e := PosAttRow1(w, x, y, z, a, b, c, dt);
            && Slope(RowX(w + h, y, z, x, b, c, a), RowX(w + k, y, z, x, b, c, a), h, e[0], dt)
            && Slope(RowX(w, y, z, x + h, b, c, a), RowX(w, y, z, x + k, b, c, a), h, e[1], dt)
            && Slope(RowX(w, y + h, z, x, b, c, a), RowX(w, y + k, z, x, b, c, a), h, e[2], dt)
            && Slope(RowX(w, y, z + h, x, b, c, a), RowX(w, y, z + k, x, b, c, a), h, e[3], dt)
  {
    BlockEntries(w, x, y, z, a, b, c, dt);
    SlopeW(w, y, z, x, b, c, a, dt, h, k);
    SlopeX(w, y, z, x, b, c, a, dt, h, k);
    SlopeY(w, y, z, x, b, c, a, dt, h, k);
    SlopeZ(w, y, z, x, b, c, a, dt, h, k);
  }

  /** And of the third row. */
  lemma ThirdRowPartials(w: real, x: real, y: real, z: real, a: real, b: real, c: real, dt: real, h: real, k: real)
    requires k == -h
    ensures var e := PosAttRow2(w, x, y, z, a, b, c, dt);
            && Slope(RowX(w + h, z, x, y, c, a, b), RowX(w + k, z, x, y, c, a, b), h, e[0], dt)
            && Slope(RowX(w, z, x + h, y, c, a, b), RowX(w, z, x + k, y, c, a, b), h, e[1], dt)
            && Slope(RowX(w, z, x, y + h, c, a, b), RowX(w, z, x, y + k, c, a, b), h, e[2], dt)
            && Slope(RowX(w, z + h, x, y, c, a, b), RowX(w, z + k, x, y, c, a, b), h, e[3], dt)
  {
    BlockEntries(w, x, y, z, a, b, c, dt);
    SlopeW(w, z, x, y, c, a, b, dt, h, k);
    SlopeX(w, z, x, y, c, a, b, dt, h, k);
    SlopeY(w, z, x, y, c, a, b, dt, h, k);
    SlopeZ(w, z, x, y, c, a, b, dt, h, k);
  }

  // ---- rows of products, for components given one by one ----

  /** The product of a row and a vector. */
  function RowDot(m: real, n: real, o: real, a: real, b: real, c: real): real {
    m * a + n * b + o * c
  }

  lemma RowXIsDot(w: real, x: real, y: real, z: real, a: real, b: real, c: real)
    ensures RowX(w, x, y, z, a, b, c)
         == RowDot(1.0 - 2.0 * (y * y + z * z), 2.0 * (x * y - w * z), 2.0 * (x * z + w * y), a, b, c)
  {
  }

  lemma RowDotCycled(m: real, n: real, o: real, a: real, b: real, c: real)
    ensures RowDot(m, n, o, a, b, c) == RowDot(n, o, m, b, c, a) == RowDot(o, m, n, c, a, b)
  {
  }

  /** The rows of R(q)v after the first, as the first row of the relabelled quaternion. */
  lemma RowsAreCyclic(w: real, x: real, y: real, z: real, a: real, b: real, c: real)
    ensures RowX(w, y, z, x, b, c, a)
         == RowDot(2.0 * (x * y + w * z), 1.0 - 2.0 * (x * x + z * z), 2.0 * (y * z - w * x), a, b, c)
    ensures RowX(w, z, x, y, c, a, b)
         == RowDot(2.0 * (x * z - w * y), 2.0 * (y * z + w * x), 1.0 - 2.0 * (x * x + y * y), a, b, c)
  {
    RowXIsDot(w, y, z, x, b, c, a);
    RowXIsDot(w, z, x, y, c, a, b);
    RowDotCycled(2.0 * (x * y + w * z), 1.0 - 2.0 * (x * x + z * z), 2.0 * (y * z - w * x), a, b, c);
    RowDotCycled(2.0 * (x * z - w * y), 2.0 * (y * z + w * x), 1.0 - 2.0 * (x * x + y * y), a, b, c);
  }

  /** The product of a row and a quaternion. */
  function RowSum(m: real, n: real, o: real, p: real, w: real, x: real, y: real, z: real): real {
    m * w + n * x + o * y + p * z
  }

  lemma StepW(w: real, x: real, y: real, z: real, d: real, e: real, f: real, k: real, m: real, n: real, o: real, p: real, u: real)
    requires k == 1.0 && m == 1.0 && n == -d && o == -e && p == -f && u == w * k - x * d - y * e - z * f
    ensures u == RowSum(m, n, o, p, w, x, y, z)
  {
  }

  lemma StepX(w: real, x: real, y: real, z: real, d: real, e: real, f: real, k: real, m: real, n: real, o: real, p: real, u: real)
    requires k == 1.0 && m == d && n == 1.0 && o == f && p == -e && u == w * d + x * k + y * f - z * e
    ensures u == RowSum(m, n, o, p, w, x, y, z)
  {
  }

  lemma StepY(w: real, x: real, y: real, z: real, d: real, e: real, f: real, k: real, m: real, n: real, o: real, p: real, u: real)
    requires k == 1.0 && m == e && n == -f && o == 1.0 && p == d && u == w * e - x * f + y * k + z * d
    ensures u == RowSum(m, n, o, p, w, x, y, z)
  {
  }

  lemma StepZ(w: real, x: real, y: real, z: real, d: real, e: real, f: real, k: real, m: real, n: real, o: real, p: real, u: real)
    requires k == 1.0 && m == f && n == e && o == -d && p == 1.0 && u == w * f + x * e - y * d + z * k
    ensures u == RowSum(m, n, o, p, w, x, y, z)
  {
  }

  lemma Halved(a: real, dt: real, d: real)
    requires d == 0.5 * a * dt
    ensures a * (0.5 * dt) == d && -a * (0.5 * dt) == -d
  {
  }
}
