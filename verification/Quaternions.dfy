/** Hamilton quaternions, scalar first, and the body-to-NED rotation matrix. */
module Quaternions {
  import opened RealFunctions
  import opened Hamilton
  import opened Matrices
  import opened MatrixLoops

  const NORM_GUARD := 0.0000000001

  function QuatNorm(sqrt: real -> real, q: Quat): Quat {
    var n := sqrt(Norm2(q));
    if n < NORM_GUARD then Quat(1.0, 0.0, 0.0, 0.0)
    else
      var inv := 1.0 / n;
      Quat(q.w * inv, q.x * inv, q.y * inv, q.z * inv)
  }

  lemma Norm2Nonneg(q: Quat)
    ensures Norm2(q) >= 0.0
  {
    SquareNonneg(q.w);
    SquareNonneg(q.x);
    SquareNonneg(q.y);
    SquareNonneg(q.z);
  }

  lemma ScaleSquare(s: real, a: real)
    ensures (s * a) * (s * a) == s * s * (a * a)
  {
    assert (s * a) * (s * a) == s * (a * (s * a));
    assert a * (s * a) == s * (a * a);
  }

  lemma ScaleNorm2(s: real, q: Quat)
    ensures Norm2(Scale(s, q)) == s * s * Norm2(q)
  {
    ScaleSquare(s, q.w);
    ScaleSquare(s, q.x);
    ScaleSquare(s, q.y);
    ScaleSquare(s, q.z);
    var t := s * s;
    assert t * (q.w * q.w + q.x * q.x + q.y * q.y + q.z * q.z)
        == t * (q.w * q.w) + t * (q.x * q.x) + t * (q.y * q.y) + t * (q.z * q.z);
  }

  /**
   Normalising yields a unit quaternion for every input; it is q over its norm unless the
   squared norm is below 1e-20, when it is the identity.
   */
  lemma {:induction false} QuatNormIsUnit(sqrt: real -> real, q: Quat)
    requires IsSqrt(sqrt)
    ensures Norm2(QuatNorm(sqrt, q)) == 1.0
    ensures Norm2(q) >= NORM_GUARD * NORM_GUARD
            ==> exists n: real :: n > 0.0 && n * n == Norm2(q) && Scale(n, QuatNorm(sqrt, q)) == q
    ensures Norm2(q) < NORM_GUARD * NORM_GUARD ==> QuatNorm(sqrt, q) == Quat(1.0, 0.0, 0.0, 0.0)
  {
    Norm2Nonneg(q);
    var n := sqrt(Norm2(q));
    SquareMonotone(n, NORM_GUARD);
    if n >= NORM_GUARD {
      Reciprocal(n);
      ScaledBack(n, 1.0 / n, q, QuatNorm(sqrt, q));
    }
  }

  lemma Reciprocal(n: real)
    requires n > 0.0
    ensures n * (1.0 / n) == 1.0
  {
  }

  /** Scaling by the inverse of its norm makes a quaternion a unit one, and the norm scales it back. */
  lemma ScaledBack(n: real, inv: real, q: Quat, r: Quat)
    requires n * inv == 1.0 && n * n == Norm2(q) && r == Quat(q.w * inv, q.x * inv, q.y * inv, q.z * inv)
    ensures Norm2(r) == 1.0 && Scale(n, r) == q
  {
    assert r == Scale(inv, q);
    ScaleNorm2(inv, q);
    ScaleSquare(n, inv);
    ScaleBack(n, inv, q.w);
    ScaleBack(n, inv, q.x);
    ScaleBack(n, inv, q.y);
    ScaleBack(n, inv, q.z);
  }

  lemma ScaleBack(n: real, inv: real, a: real)
    requires n * inv == 1.0
    ensures n * (a * inv) == a
  {
    assert n * (a * inv) == a * (n * inv);
  }

  // ---- rotation ----

  datatype Mat3 = Mat3(
    r00: real, r01: real, r02: real,
    r10: real, r11: real, r12: real,
    r20: real, r21: real, r22: real)

  datatype Vec3 = Vec3(x: real, y: real, z: real)

  function Rotation(q: Quat): Mat3 {
    var Quat(w, x, y, z) := q;
    Mat3(1.0 - 2.0 * (y * y + z * z), 2.0 * (x * y - w * z), 2.0 * (x * z + w * y),
         2.0 * (x * y + w * z), 1.0 - 2.0 * (x * x + z * z), 2.0 * (y * z - w * x),
         2.0 * (x * z - w * y), 2.0 * (y * z + w * x), 1.0 - 2.0 * (x * x + y * y))
  }

  function Mul3(a: Mat3, b: Mat3): Mat3 {
    Mat3(a.r00 * b.r00 + a.r01 * b.r10 + a.r02 * b.r20,
         a.r00 * b.r01 + a.r01 * b.r11 + a.r02 * b.r21,
         a.r00 * b.r02 + a.r01 * b.r12 + a.r02 * b.r22,
         a.r10 * b.r00 + a.r11 * b.r10 + a.r12 * b.r20,
         a.r10 * b.r01 + a.r11 * b.r11 + a.r12 * b.r21,
         a.r10 * b.r02 + a.r11 * b.r12 + a.r12 * b.r22,
         a.r20 * b.r00 + a.r21 * b.r10 + a.r22 * b.r20,
         a.r20 * b.r01 + a.r21 * b.r11 + a.r22 * b.r21,
         a.r20 * b.r02 + a.r21 * b.r12 + a.r22 * b.r22)
  }

  function Tr3(a: Mat3): Mat3 {
    Mat3(a.r00, a.r10, a.r20, a.r01, a.r11, a.r21, a.r02, a.r12, a.r22)
  }

  function Apply3(a: Mat3, v: Vec3): Vec3 {
    Vec3(a.r00 * v.x + a.r01 * v.y + a.r02 * v.z,
         a.r10 * v.x + a.r11 * v.y + a.r12 * v.z,
         a.r20 * v.x + a.r21 * v.y + a.r22 * v.z)
  }

  const ID3 := Mat3(1.0, 0.0, 0.0, 0.0, 1.0, 0.0, 0.0, 0.0, 1.0)

  /** The rotation matrix with its diagonal written homogeneously; equal to Rotation at unit norm. */
  function HomogeneousRotation(q: Quat): Mat3 {
    var Quat(w, x, y, z) := q;
    Mat3(w * w + x * x - y * y - z * z, 2.0 * (x * y - w * z), 2.0 * (x * z + w * y),
         2.0 * (x * y + w * z), w * w - x * x + y * y - z * z, 2.0 * (y * z - w * x),
         2.0 * (x * z - w * y), 2.0 * (y * z + w * x), w * w - x * x - y * y + z * z)
  }

  lemma UnitRotation(q: Quat)
    requires Norm2(q) == 1.0
    ensures Rotation(q) == HomogeneousRotation(q)
  {
  }

  function Pure(v: Vec3): Quat {
    Quat(0.0, v.x, v.y, v.z)
  }

  predicate Product(a: Quat, b: Quat, p: Quat) {
    IsProduct(a.w, a.x, a.y, a.z, b.w, b.x, b.y, b.z, p.w, p.x, p.y, p.z)
  }

  lemma ProductIsMul(a: Quat, b: Quat, p: Quat)
    ensures Product(a, b, p) <==> p == QuatMul(a, b)
  {
  }

  // The components of q ⊗ (0, a, b, c) ⊗ q*, multiplied out.

  function ActX(w: real, x: real, y: real, z: real, a: real, b: real, c: real): real {
    (w * w + x * x - y * y - z * z) * a + 2.0 * (x * y - w * z) * b + 2.0 * (x * z + w * y) * c
  }

  function ActY(w: real, x: real, y: real, z: real, a: real, b: real, c: real): real {
    2.0 * (x * y + w * z) * a + (w * w - x * x + y * y - z * z) * b + 2.0 * (y * z - w * x) * c
  }

  function ActZ(w: real, x: real, y: real, z: real, a: real, b: real, c: real): real {
    2.0 * (x * z - w * y) * a + 2.0 * (y * z + w * x) * b + (w * w - x * x - y * y + z * z) * c
  }

  lemma ConjugationW(w: real, x: real, y: real, z: real, a: real, b: real, c: real,
                     pw: real, px: real, py: real, pz: real, cx: real, cy: real, cz: real,
                     lw: real, lx: real, ly: real, lz: real)
    requires IsProduct(w, x, y, z, 0.0, a, b, c, pw, px, py, pz)
    requires IsProduct(pw, px, py, pz, w, cx, cy, cz, lw, lx, ly, lz) && cx == -x && cy == -y && cz == -z
    ensures lw == 0.0
  {
  }

  lemma ConjugationX(w: real, x: real, y: real, z: real, a: real, b: real, c: real,
                     pw: real, px: real, py: real, pz: real, cx: real, cy: real, cz: real,
                     lw: real, lx: real, ly: real, lz: real)
    requires IsProduct(w, x, y, z, 0.0, a, b, c, pw, px, py, pz)
    requires IsProduct(pw, px, py, pz, w, cx, cy, cz, lw, lx, ly, lz) && cx == -x && cy == -y && cz == -z
    ensures lx == ActX(w, x, y, z, a, b, c)
  {
  }

  lemma ConjugationY(w: real, x: real, y: real, z: real, a: real, b: real, c: real,
                     pw: real, px: real, py: real, pz: real, cx: real, cy: real, cz: real,
                     lw: real, lx: real, ly: real, lz: real)
    requires IsProduct(w, x, y, z, 0.0, a, b, c, pw, px, py, pz)
    requires IsProduct(pw, px, py, pz, w, cx, cy, cz, lw, lx, ly, lz) && cx == -x && cy == -y && cz == -z
    ensures ly == ActY(w, x, y, z, a, b, c)
  {
  }

  lemma ConjugationZ(w: real, x: real, y: real, z: real, a: real, b: real, c: real,
                     pw: real, px: real, py: real, pz: real, cx: real, cy: real, cz: real,
                     lw: real, lx: real, ly: real, lz: real)
    requires IsProduct(w, x, y, z, 0.0, a, b, c, pw, px, py, pz)
    requires IsProduct(pw, px, py, pz, w, cx, cy, cz, lw, lx, ly, lz) && cx == -x && cy == -y && cz == -z
    ensures lz == ActZ(w, x, y, z, a, b, c)
  {
  }

  predicate IsAction(w: real, x: real, y: real, z: real, a: real, b: real, c: real, ux: real, uy: real, uz: real) {
    ux == ActX(w, x, y, z, a, b, c) && uy == ActY(w, x, y, z, a, b, c) && uz == ActZ(w, x, y, z, a, b, c)
  }

  lemma ActionIsApply(q: Quat, v: Vec3, u: Vec3)
    requires IsAction(q.w, q.x, q.y, q.z, v.x, v.y, v.z, u.x, u.y, u.z)
    ensures u == Apply3(HomogeneousRotation(q), v)
  {
  }

  lemma {:induction false} ConjugationActs(q: Quat, v: Vec3, p: Quat, l: Quat)
    requires Product(q, Pure(v), p)
    requires Product(p, QuatConj(q), l)
    ensures l.w == 0.0 && IsAction(q.w, q.x, q.y, q.z, v.x, v.y, v.z, l.x, l.y, l.z)
  {
    var c := QuatConj(q);
    ConjugationW(q.w, q.x, q.y, q.z, v.x, v.y, v.z, p.w, p.x, p.y, p.z, c.x, c.y, c.z, l.w, l.x, l.y, l.z);
    ConjugationX(q.w, q.x, q.y, q.z, v.x, v.y, v.z, p.w, p.x, p.y, p.z, c.x, c.y, c.z, l.w, l.x, l.y, l.z);
    ConjugationY(q.w, q.x, q.y, q.z, v.x, v.y, v.z, p.w, p.x, p.y, p.z, c.x, c.y, c.z, l.w, l.x, l.y, l.z);
    ConjugationZ(q.w, q.x, q.y, q.z, v.x, v.y, v.z, p.w, p.x, p.y, p.z, c.x, c.y, c.z, l.w, l.x, l.y, l.z);
  }

  /** The homogeneous matrix acts as v ↦ q ⊗ (0, v) ⊗ q*, for every q. */
  lemma HomogeneousIsConjugation(q: Quat, v: Vec3)
    ensures QuatMul(QuatMul(q, Pure(v)), QuatConj(q)) == Pure(Apply3(HomogeneousRotation(q), v))
  {
    var p := QuatMul(q, Pure(v));
    var l := QuatMul(p, QuatConj(q));
    ProductIsMul(q, Pure(v), p);
    ProductIsMul(p, QuatConj(q), l);
    ConjugationActs(q, v, p, l);
    ActionIsApply(q, v, Vec3(l.x, l.y, l.z));
  }

  /** For a unit quaternion the matrix is that action. */
  lemma RotationIsConjugation(q: Quat, v: Vec3)
    requires Norm2(q) == 1.0
    ensures QuatMul(QuatMul(q, Pure(v)), QuatConj(q)) == Pure(Apply3(Rotation(q), v))
  {
    UnitRotation(q);
    HomogeneousIsConjugation(q, v);
  }

  lemma AssocW(aw: real, ax: real, ay: real, az: real, bw: real, bx: real, by_: real, bz: real,
               cw: real, cx: real, cy: real, cz: real,
               pw: real, px: real, py: real, pz: real, qw: real, qx: real, qy: real, qz: real)
    requires IsProduct(aw, ax, ay, az, bw, bx, by_, bz, pw, px, py, pz)
    requires IsProduct(bw, bx, by_, bz, cw, cx, cy, cz, qw, qx, qy, qz)
    ensures pw * cw - px * cx - py * cy - pz * cz == aw * qw - ax * qx - ay * qy - az * qz
  {
  }

  lemma AssocX(aw: real, ax: real, ay: real, az: real, bw: real, bx: real, by_: real, bz: real,
               cw: real, cx: real, cy: real, cz: real,
               pw: real, px: real, py: real, pz: real, qw: real, qx: real, qy: real, qz: real)
    requires IsProduct(aw, ax, ay, az, bw, bx, by_, bz, pw, px, py, pz)
    requires IsProduct(bw, bx, by_, bz, cw, cx, cy, cz, qw, qx, qy, qz)
    ensures pw * cx + px * cw + py * cz - pz * cy == aw * qx + ax * qw + ay * qz - az * qy
  {
  }

  lemma AssocY(aw: real, ax: real, ay: real, az: real, bw: real, bx: real, by_: real, bz: real,
               cw: real, cx: real, cy: real, cz: real,
               pw: real, px: real, py: real, pz: real, qw: real, qx: real, qy: real, qz: real)
    requires IsProduct(aw, ax, ay, az, bw, bx, by_, bz, pw, px, py, pz)
    requires IsProduct(bw, bx, by_, bz, cw, cx, cy, cz, qw, qx, qy, qz)
    ensures pw * cy - px * cz + py * cw + pz * cx == aw * qy - ax * qz + ay * qw + az * qx
  {
  }

  lemma AssocZ(aw: real, ax: real, ay: real, az: real, bw: real, bx: real, by_: real, bz: real,
               cw: real, cx: real, cy: real, cz: real,
               pw: real, px: real, py: real, pz: real, qw: real, qx: real, qy: real, qz: real)
    requires IsProduct(aw, ax, ay, az, bw, bx, by_, bz, pw, px, py, pz)
    requires IsProduct(bw, bx, by_, bz, cw, cx, cy, cz, qw, qx, qy, qz)
    ensures pw * cz + px * cy - py * cx + pz * cw == aw * qz + ax * qy - ay * qx + az * qw
  {
  }

  lemma ProductAssoc(a: Quat, b: Quat, c: Quat, p: Quat, q: Quat, l: Quat)
    requires Product(a, b, p) && Product(b, c, q) && Product(p, c, l)
    ensures Product(a, q, l)
  {
    AssocW(a.w, a.x, a.y, a.z, b.w, b.x, b.y, b.z, c.w, c.x, c.y, c.z, p.w, p.x, p.y, p.z, q.w, q.x, q.y, q.z);
    AssocX(a.w, a.x, a.y, a.z, b.w, b.x, b.y, b.z, c.w, c.x, c.y, c.z, p.w, p.x, p.y, p.z, q.w, q.x, q.y, q.z);
    AssocY(a.w, a.x, a.y, a.z, b.w, b.x, b.y, b.z, c.w, c.x, c.y, c.z, p.w, p.x, p.y, p.z, q.w, q.x, q.y, q.z);
    AssocZ(a.w, a.x, a.y, a.z, b.w, b.x, b.y, b.z, c.w, c.x, c.y, c.z, p.w, p.x, p.y, p.z, q.w, q.x, q.y, q.z);
  }

  lemma QuatMulAssoc(a: Quat, b: Quat, c: Quat)
    ensures QuatMul(QuatMul(a, b), c) == QuatMul(a, QuatMul(b, c))
  {
    var p, q := QuatMul(a, b), QuatMul(b, c);
    var l := QuatMul(p, c);
    ProductIsMul(a, b, p);
    ProductIsMul(b, c, q);
    ProductIsMul(p, c, l);
    ProductAssoc(a, b, c, p, q, l);
    ProductIsMul(a, q, l);
  }

  lemma ConjProduct(aw: real, ax: real, ay: real, az: real, bw: real, bx: real, by_: real, bz: real,
                    pw: real, px: real, py: real, pz: real)
    requires IsProduct(aw, ax, ay, az, bw, bx, by_, bz, pw, px, py, pz)
    ensures IsProduct(bw, -bx, -by_, -bz, aw, -ax, -ay, -az, pw, -px, -py, -pz)
  {
  }

  lemma ConjMul(a: Quat, b: Quat)
    ensures QuatConj(QuatMul(a, b)) == QuatMul(QuatConj(b), QuatConj(a))
  {
    var p := QuatMul(a, b);
    ProductIsMul(a, b, p);
    ConjProduct(a.w, a.x, a.y, a.z, b.w, b.x, b.y, b.z, p.w, p.x, p.y, p.z);
    ProductIsMul(QuatConj(b), QuatConj(a), QuatConj(p));
  }

  lemma ProductActs(a: Quat, b: Quat, v: Vec3)
    requires Norm2(a) == 1.0 && Norm2(b) == 1.0
    ensures Apply3(Rotation(QuatMul(a, b)), v) == Apply3(Rotation(a), Apply3(Rotation(b), v))
  {
    var u := Apply3(Rotation(b), v);
    MulNorm2(a, b);
    RotationIsConjugation(QuatMul(a, b), v);
    RotationIsConjugation(a, u);
    RotationIsConjugation(b, v);
    var ca, cb := QuatConj(a), QuatConj(b);
    calc {
      QuatMul(QuatMul(QuatMul(a, b), Pure(v)), QuatConj(QuatMul(a, b)));
      { ConjMul(a, b); QuatMulAssoc(a, b, Pure(v)); }
      QuatMul(QuatMul(a, QuatMul(b, Pure(v))), QuatMul(cb, ca));
      { QuatMulAssoc(QuatMul(a, QuatMul(b, Pure(v))), cb, ca); }
      QuatMul(QuatMul(QuatMul(a, QuatMul(b, Pure(v))), cb), ca);
      { QuatMulAssoc(a, QuatMul(b, Pure(v)), cb); }
      QuatMul(QuatMul(a, QuatMul(QuatMul(b, Pure(v)), cb)), ca);
    }
  }

  lemma ActionOnBasis(m: Mat3)
    ensures Apply3(m, Vec3(1.0, 0.0, 0.0)) == Vec3(m.r00, m.r10, m.r20)
    ensures Apply3(m, Vec3(0.0, 1.0, 0.0)) == Vec3(m.r01, m.r11, m.r21)
    ensures Apply3(m, Vec3(0.0, 0.0, 1.0)) == Vec3(m.r02, m.r12, m.r22)
  {
  }

  lemma ColumnsOfProduct(a: Mat3, b: Mat3)
    ensures var m := Mul3(a, b);
            && Vec3(m.r00, m.r10, m.r20) == Apply3(a, Vec3(b.r00, b.r10, b.r20))
            && Vec3(m.r01, m.r11, m.r21) == Apply3(a, Vec3(b.r01, b.r11, b.r21))
            && Vec3(m.r02, m.r12, m.r22) == Apply3(a, Vec3(b.r02, b.r12, b.r22))
  {
  }

  /** A matrix that acts as b and then a is their product. */
  lemma SameAction(m: Mat3, a: Mat3, b: Mat3)
    requires forall v: Vec3 {:trigger Apply3(m, v)} :: Apply3(m, v) == Apply3(a, Apply3(b, v))
    ensures m == Mul3(a, b)
  {
    ActionOnBasis(m);
    ActionOnBasis(b);
    ColumnsOfProduct(a, b);
  }

  /** R(a ⊗ b) = R(a)R(b). */
  lemma RotationIsHomomorphism(a: Quat, b: Quat)
    requires Norm2(a) == 1.0 && Norm2(b) == 1.0
    ensures Rotation(QuatMul(a, b)) == Mul3(Rotation(a), Rotation(b))
  {
    forall v: Vec3 ensures Apply3(Rotation(QuatMul(a, b)), v) == Apply3(Rotation(a), Apply3(Rotation(b), v)) {
      ProductActs(a, b, v);
    }
    SameAction(Rotation(QuatMul(a, b)), Rotation(a), Rotation(b));
  }

  lemma ConjInverts(q: Quat)
    requires Norm2(q) == 1.0
    ensures QuatMul(q, QuatConj(q)) == Quat(1.0, 0.0, 0.0, 0.0)
    ensures QuatMul(QuatConj(q), q) == Quat(1.0, 0.0, 0.0, 0.0)
    ensures Norm2(QuatConj(q)) == 1.0
  {
  }

  lemma ConjTransposes(q: Quat)
    ensures Rotation(QuatConj(q)) == Tr3(Rotation(q))
  {
    var c := QuatConj(q);
    ConjugateEntries(q.w, q.x, q.y, q.z, c.x, c.y, c.z);
    var r, t := Rotation(c), Rotation(q);
    assert r.r00 == t.r00 && r.r11 == t.r11 && r.r22 == t.r22;
    assert r.r01 == t.r10 && r.r10 == t.r01 && r.r02 == t.r20 && r.r20 == t.r02 && r.r12 == t.r21 && r.r21 == t.r12;
  }

  /** R Rᵀ = RᵀR = I for a unit quaternion. */
  lemma RotationOrthogonal(q: Quat)
    requires Norm2(q) == 1.0
    ensures Mul3(Rotation(q), Tr3(Rotation(q))) == ID3
    ensures Mul3(Tr3(Rotation(q)), Rotation(q)) == ID3
  {
    ConjInverts(q);
    ConjTransposes(q);
    RotationIsHomomorphism(q, QuatConj(q));
    RotationIsHomomorphism(QuatConj(q), q);
    assert Rotation(Quat(1.0, 0.0, 0.0, 0.0)) == ID3;
  }

  /** A turn about the vertical by the angle whose half has cosine c and sine s takes the first axis toward the second. */
  lemma {:induction false} YawTurns(c: real, s: real)
    requires c * c + s * s == 1.0
    ensures Apply3(Rotation(Quat(c, 0.0, 0.0, s)), Vec3(1.0, 0.0, 0.0)) == Vec3(c * c - s * s, 2.0 * (c * s), 0.0)
  {
  }

  method QuatToRot(q: Quat, R: array2<real>)
    requires R.Length0 == R.Length1 == 3
    modifies R
    ensures var r := Rotation(q);
            && R[0, 0] == r.r00 && R[0, 1] == r.r01 && R[0, 2] == r.r02
            && R[1, 0] == r.r10 && R[1, 1] == r.r11 && R[1, 2] == r.r12
            && R[2, 0] == r.r20 && R[2, 1] == r.r21 && R[2, 2] == r.r22
  {
    var r := RotEntries(q);
    FillMatrix(R, r);
  }

  method RotEntries(q: Quat) returns (r: Mat3)
    ensures r == Rotation(q)
  {
    var w, x, y, z := q.w, q.x, q.y, q.z;
    var r00, r01, r02 := 1.0 - 2.0 * (y * y + z * z), 2.0 * (x * y - w * z), 2.0 * (x * z + w * y);
    var r10, r11, r12 := 2.0 * (x * y + w * z), 1.0 - 2.0 * (x * x + z * z), 2.0 * (y * z - w * x);
    var r20, r21, r22 := 2.0 * (x * z - w * y), 2.0 * (y * z + w * x), 1.0 - 2.0 * (x * x + y * y);
    r := Mat3(r00, r01, r02, r10, r11, r12, r20, r21, r22);
  }

  method FillMatrix(R: array2<real>, r: Mat3)
    requires R.Length0 == R.Length1 == 3
    modifies R
    ensures R[0, 0] == r.r00 && R[0, 1] == r.r01 && R[0, 2] == r.r02
    ensures R[1, 0] == r.r10 && R[1, 1] == r.r11 && R[1, 2] == r.r12
    ensures R[2, 0] == r.r20 && R[2, 1] == r.r21 && R[2, 2] == r.r22
  {
    R[0, 0], R[0, 1], R[0, 2] := r.r00, r.r01, r.r02;
    R[1, 0], R[1, 1], R[1, 2] := r.r10, r.r11, r.r12;
    R[2, 0], R[2, 1], R[2, 2] := r.r20, r.r21, r.r22;
  }

  // ---- attitude propagation ----

  /** The first-order step dq = (1, ½·ω·dt). */
  function RateStep(gx: real, gy: real, gz: real, dt: real): Quat {
    Quat(1.0, 0.5 * gx * dt, 0.5 * gy * dt, 0.5 * gz * dt)
  }

  function Propagated(sqrt: real -> real, q: Quat, gx: real, gy: real, gz: real, dt: real): Quat {
    QuatNorm(sqrt, QuatMul(q, RateStep(gx, gy, gz, dt)))
  }

  /**
   Propagation ends on the unit sphere from anywhere, and from a quaternion at or above the guard it
   is the true direction of q ⊗ dq: the step only lengthens, so the guard does not fire.
   */
  lemma {:induction false} PropagationIsUnit(sqrt: real -> real, q: Quat, gx: real, gy: real, gz: real, dt: real)
    requires IsSqrt(sqrt)
    ensures Norm2(Propagated(sqrt, q, gx, gy, gz, dt)) == 1.0
    ensures Norm2(QuatMul(q, RateStep(gx, gy, gz, dt))) >= Norm2(q)
    ensures Norm2(q) >= NORM_GUARD * NORM_GUARD
            ==> exists n: real :: n > 0.0 && Scale(n, Propagated(sqrt, q, gx, gy, gz, dt)) == QuatMul(q, RateStep(gx, gy, gz, dt))
  {
    StepLengthens(q, RateStep(gx, gy, gz, dt));
    QuatNormIsUnit(sqrt, QuatMul(q, RateStep(gx, gy, gz, dt)));
  }

  lemma StepLengthens(q: Quat, d: Quat)
    requires d.w == 1.0
    ensures Norm2(QuatMul(q, d)) >= Norm2(q)
  {
    MulNorm2(q, d);
    SquareNonneg(d.x);
    SquareNonneg(d.y);
    SquareNonneg(d.z);
    Norm2Nonneg(q);
    GrowsBy(Norm2(q), Norm2(d));
  }

  lemma GrowsBy(a: real, b: real)
    requires a >= 0.0 && b >= 1.0
    ensures a * b >= a
  {
  }
}
