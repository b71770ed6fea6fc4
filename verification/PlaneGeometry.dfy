/** Two circles in the plane, in coordinates along and across the line of centres. */
module PlaneGeometry {
  import opened RealFunctions

  lemma Quotient(d: real, x: real, u: real)
    requires d != 0.0 && u == (1.0 / d) * x
    ensures d * u == x
  {
    assert d * (1.0 / d) == 1.0;
    assert d * ((1.0 / d) * x) == (d * (1.0 / d)) * x;
  }

  lemma Distribute(k: real, s: real, x: real, y: real)
    requires s == x + y
    ensures k * s == k * x + k * y
  {
  }

  lemma SquareOfProduct(k: real, d: real, u: real, p: real, x: real)
    requires k == d * d && p == u * u && d * u == x
    ensures k * p == x * x
  {
    assert (d * u) * (d * u) == (d * d) * (u * u);
  }

  lemma SquarePositive(d: real, k: real)
    requires d > 0.0 && k == d * d
    ensures k > 0.0
  {
    Positive(d, d, k);
  }

  lemma Positive(x: real, y: real, k: real)
    requires x > 0.0 && y > 0.0 && k == x * y
    ensures k > 0.0
  {
  }

  lemma CancelFactor(k: real, w: real, s: real)
    requires k > 0.0 && k * w == s && s == k
    ensures w == 1.0
  {
  }

  lemma ScaledDirection(d: real, dx: real, dy: real, ux: real, uy: real, k: real, w: real)
    requires k == d * d && w == ux * ux + uy * uy && d * ux == dx && d * uy == dy
    ensures k * w == dx * dx + dy * dy
  {
    SquareOfProduct(k, d, ux, ux * ux, dx);
    SquareOfProduct(k, d, uy, uy * uy, dy);
    Distribute(k, w, ux * ux, uy * uy);
  }

  lemma UnitDirection(d: real, dx: real, dy: real, ux: real, uy: real)
    requires d > 0.0 && d * ux == dx && d * uy == dy && d * d == dx * dx + dy * dy
    ensures ux * ux + uy * uy == 1.0
  {
    var k, w := d * d, ux * ux + uy * uy;
    ScaledDirection(d, dx, dy, ux, uy, k, w);
    SquarePositive(d, k);
    CancelFactor(k, w, dx * dx + dy * dy);
  }

  lemma Negative(x: real, y: real)
    requires x > 0.0 && y < 0.0
    ensures x * y < 0.0
  {
  }

  lemma Cancel(k: real, x: real, y: real)
    requires k > 0.0 && k * x == k * y
    ensures x == y
  {
  }

  lemma NonnegProduct(x: real, y: real)
    requires x >= 0.0 && y >= 0.0
    ensures x * y >= 0.0
  {
  }

  lemma SixteenAreas(r: real, s: real, d: real, t: real)
    requires t == r * r - s * s + d * d
    ensures 4.0 * (d * d) * (r * r) - t * t == ((r + d - s) * (r + d + s)) * ((s - r + d) * (s + r - d))
  {
    var u, v := 2.0 * (d * r), t;
    assert (r + d - s) * (r + d + s) == u + v;
    assert (s - r + d) * (s + r - d) == u - v;
    assert (u + v) * (u - v) == u * u - v * v;
    assert u * u == 4.0 * (d * d) * (r * r);
  }

  /** Within reach, the foot of the perpendicular lies inside the first circle. */
  lemma InsideCircle(r: real, s: real, d: real, a: real)
    requires d > 0.0 && d <= r + s && r - s <= d && s - r <= d
    requires 2.0 * d * a == r * r - s * s + d * d
    ensures r * r - a * a >= 0.0
  {
    var t := 2.0 * d * a;
    SixteenAreas(r, s, d, t);
    NonnegProduct(r + d - s, r + d + s);
    NonnegProduct(s - r + d, s + r - d);
    var x, y := (r + d - s) * (r + d + s), (s - r + d) * (s + r - d);
    NonnegProduct(x, y);
    var k := 4.0 * (d * d);
    FourSquares(d, k);
    assert t * t == k * (a * a);
    Areas(k, r * r, a * a, r * r - a * a, t * t, x * y);
  }

  lemma FourSquares(d: real, k: real)
    requires d > 0.0 && k == 4.0 * (d * d)
    ensures k > 0.0
  {
    SquarePositive(d, d * d);
  }

  lemma Areas(k: real, r2: real, a2: real, w: real, t2: real, z: real)
    requires w == r2 - a2 && k * a2 == t2 && k * r2 - t2 == z && z >= 0.0 && k > 0.0
    ensures w >= 0.0
  {
    Distribute(k, r2, w, a2);
    if w < 0.0 {
      Negative(k, w);
    }
  }

  lemma OnFirstCircle(r: real, a: real, h: real, ux: real, uy: real)
    requires ux * ux + uy * uy == 1.0 && h * h == r * r - a * a
    ensures (a * ux - h * uy) * (a * ux - h * uy) + (a * uy + h * ux) * (a * uy + h * ux) == r * r
  {
    assert (a * ux - h * uy) * (a * ux - h * uy) + (a * uy + h * ux) * (a * uy + h * ux)
        == (a * a + h * h) * (ux * ux + uy * uy);
  }

  lemma OnSecondCircle(r: real, s: real, d: real, a: real, h: real, ux: real, uy: real)
    requires ux * ux + uy * uy == 1.0 && h * h == r * r - a * a
    requires 2.0 * d * a == r * r - s * s + d * d
    ensures (a * ux - h * uy - d * ux) * (a * ux - h * uy - d * ux)
          + (a * uy + h * ux - d * uy) * (a * uy + h * ux - d * uy) == s * s
  {
    var b := a - d;
    assert a * ux - h * uy - d * ux == b * ux - h * uy;
    assert a * uy + h * ux - d * uy == b * uy + h * ux;
    assert b * b == a * a - 2.0 * d * a + d * d;
    var q := s * s;
    assert h * h == q - b * b;
    assert (b * ux - h * uy) * (b * ux - h * uy) + (b * uy + h * ux) * (b * uy + h * ux)
        == (b * b + h * h) * (ux * ux + uy * uy);
  }

  /** Along the line of centres, a common point is where the code puts it. */
  lemma Along(r: real, s: real, d: real, a: real, px: real, py: real, ux: real, uy: real)
    requires ux * ux + uy * uy == 1.0 && d > 0.0
    requires 2.0 * d * a == r * r - s * s + d * d
    requires px * px + py * py == r * r
    requires (px - d * ux) * (px - d * ux) + (py - d * uy) * (py - d * uy) == s * s
    ensures px * ux + py * uy == a
  {
    var c := px * ux + py * uy;
    assert (px - d * ux) * (px - d * ux) + (py - d * uy) * (py - d * uy)
        == (px * px + py * py) - 2.0 * d * c + d * d * (ux * ux + uy * uy);
    assert 2.0 * d * c == 2.0 * d * a;
    Cancel(2.0 * d, c, a);
  }

  lemma Rebuild(px: real, py: real, ux: real, uy: real, a: real, q: real)
    requires ux * ux + uy * uy == 1.0
    requires a == px * ux + py * uy && q == py * ux - px * uy
    ensures px == a * ux - q * uy && py == a * uy + q * ux
  {
    assert a * ux - q * uy == px * (ux * ux + uy * uy);
    assert a * uy + q * ux == py * (ux * ux + uy * uy);
  }

  lemma Across(px: real, py: real, ux: real, uy: real, a: real, q: real, r: real)
    requires ux * ux + uy * uy == 1.0
    requires a == px * ux + py * uy && q == py * ux - px * uy
    requires px * px + py * py == r * r
    ensures q * q == r * r - a * a
  {
    assert a * a + q * q == (px * px + py * py) * (ux * ux + uy * uy);
  }

  lemma SquareRoots(q: real, h: real)
    requires q * q == h * h && h >= 0.0
    ensures q == if q >= 0.0 then h else -h
  {
    if q > h {
      SquareGrows(h, q);
    } else if 0.0 <= q < h {
      SquareGrows(q, h);
    } else if -h < q < 0.0 {
      SquareGrows(-q, h);
    } else if q < -h {
      SquareGrows(h, -q);
    }
  }

  lemma LessBySquare(x: real, y: real)
    requires x * x <= y * y && y >= 0.0
    ensures -y <= x <= y
  {
    if x > y {
      SquareGrows(y, x);
    } else if x < -y {
      SquareGrows(y, -x);
    }
  }

  predicate OnCircle(x: real, y: real, cx: real, cy: real, r: real) {
    (x - cx) * (x - cx) + (y - cy) * (y - cy) == r * r
  }

  /** A point a along and q across the line of centres, with q² + a² = r², lies on both circles. */
  lemma CircleBy(x: real, y: real, cx: real, cy: real, r: real, dx: real, dy: real)
    requires x - cx == dx && y - cy == dy && dx * dx + dy * dy == r * r
    ensures OnCircle(x, y, cx, cy, r)
  {
  }

  lemma OnBothCircles(cx: real, cy: real, r: real, ex: real, ey: real, s: real,
                      d: real, a: real, q: real, ux: real, uy: real, x: real, y: real)
    requires ux * ux + uy * uy == 1.0 && q * q == r * r - a * a
    requires 2.0 * d * a == r * r - s * s + d * d
    requires ex == cx + d * ux && ey == cy + d * uy
    requires x == cx + a * ux - q * uy && y == cy + a * uy + q * ux
    ensures OnCircle(x, y, cx, cy, r) && OnCircle(x, y, ex, ey, s)
  {
    OnFirstCircle(r, a, q, ux, uy);
    OnSecondCircle(r, s, d, a, q, ux, uy);
    CircleBy(x, y, cx, cy, r, a * ux - q * uy, a * uy + q * ux);
    CircleBy(x, y, ex, ey, s, a * ux - q * uy - d * ux, a * uy + q * ux - d * uy);
  }

  lemma CommonPointSquares(cx: real, cy: real, r: real, ex: real, ey: real, s: real,
                           d: real, a: real, ux: real, uy: real, x: real, y: real, px: real, py: real, side: real)
    requires ux * ux + uy * uy == 1.0 && d > 0.0
    requires 2.0 * d * a == r * r - s * s + d * d
    requires ex == cx + d * ux && ey == cy + d * uy
    requires OnCircle(x, y, cx, cy, r) && OnCircle(x, y, ex, ey, s)
    requires px == x - cx && py == y - cy && side == py * ux - px * uy
    ensures a == px * ux + py * uy && side * side == r * r - a * a
  {
    RelativeSecond(d, ux, uy, x, y, px, py, cx, cy, ex, ey, s);
    Along(r, s, d, a, px, py, ux, uy);
    Across(px, py, ux, uy, a, side, r);
  }

  lemma RelativeSecond(d: real, ux: real, uy: real, x: real, y: real, px: real, py: real,
                       cx: real, cy: real, ex: real, ey: real, s: real)
    requires ex == cx + d * ux && ey == cy + d * uy && px == x - cx && py == y - cy
    requires OnCircle(x, y, ex, ey, s)
    ensures (px - d * ux) * (px - d * ux) + (py - d * uy) * (py - d * uy) == s * s
  {
    var qx, qy := px - d * ux, py - d * uy;
    assert qx == x - ex && qy == y - ey;
  }

  /** Every common point is one of the two the code considers. */
  lemma CommonPoint(cx: real, cy: real, r: real, ex: real, ey: real, s: real,
                    d: real, a: real, h: real, ux: real, uy: real, x: real, y: real, px: real, py: real, side: real)
    requires ux * ux + uy * uy == 1.0 && d > 0.0
    requires 2.0 * d * a == r * r - s * s + d * d
    requires ex == cx + d * ux && ey == cy + d * uy
    requires OnCircle(x, y, cx, cy, r) && OnCircle(x, y, ex, ey, s)
    requires px == x - cx && py == y - cy && side == py * ux - px * uy
    requires h >= 0.0 && h * h == r * r - a * a
    ensures side == if side >= 0.0 then h else -h
    ensures px == a * ux - side * uy && py == a * uy + side * ux
  {
    CommonPointSquares(cx, cy, r, ex, ey, s, d, a, ux, uy, x, y, px, py, side);
    SquareRoots(side, h);
    Rebuild(px, py, ux, uy, a, side);
  }

  lemma DotProductBound(px: real, py: real, qx: real, qy: real, c: real, rr: real, ss: real)
    requires c == px * qx + py * qy && rr == px * px + py * py && ss == qx * qx + qy * qy
    ensures c * c <= rr * ss
  {
    var t := px * qy - py * qx;
    SquareNonneg(t);
    assert rr * ss == c * c + t * t;
  }

  /** Triangle inequality for the sides p, q and p − q. */
  lemma Triangle(px: real, py: real, qx: real, qy: real, r: real, s: real, d: real)
    requires r >= 0.0 && s >= 0.0 && d >= 0.0
    requires px * px + py * py == r * r && qx * qx + qy * qy == s * s
    requires (px - qx) * (px - qx) + (py - qy) * (py - qy) == d * d
    ensures d <= r + s && r - s <= d && s - r <= d
  {
    var c := px * qx + py * qy;
    DotProductBound(px, py, qx, qy, c, r * r, s * s);
    NonnegProduct(r, s);
    assert (r * s) * (r * s) == (r * r) * (s * s);
    LessBySquare(c, r * s);
    assert d * d == r * r - 2.0 * c + s * s;
    assert (r + s) * (r + s) == r * r + 2.0 * (r * s) + s * s;
    assert (r - s) * (r - s) == r * r - 2.0 * (r * s) + s * s;
    LessBySquare(d, r + s);
    LessBySquare(r - s, d);
  }

  /** A common point puts the centres within reach of each other. */
  lemma CentresReach(cx: real, cy: real, r: real, ex: real, ey: real, s: real, x: real, y: real,
                     wx: real, wy: real, d: real)
    requires OnCircle(x, y, cx, cy, r) && OnCircle(x, y, ex, ey, s)
    requires r >= 0.0 && s >= 0.0 && d >= 0.0
    requires wx == ex - cx && wy == ey - cy && d * d == wx * wx + wy * wy
    ensures d <= r + s && r - s <= d && s - r <= d
  {
    var px, py, qx, qy := x - cx, y - cy, x - ex, y - ey;
    assert px - qx == wx && py - qy == wy;
    Triangle(px, py, qx, qy, r, s, d);
  }
}
