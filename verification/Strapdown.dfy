/** What the prediction does to position and velocity: at rest nothing, and otherwise what Newton says. */
module Strapdown {
  import opened FilterRuns
  import opened Hamilton
  import opened Quaternions
  import opened GravityModel
  import opened Ekf

  const ZERO := Vec3(0.0, 0.0, 0.0)

  /** The accelerometer reading predicted at rest, biases included. */
  function RestReading(x: seq<real>): Vec3
    requires |x| == N
  {
    Vec3(ReadingOf(x, 0), ReadingOf(x, 1), ReadingOf(x, 2))
  }

  /**
   From standstill, whatever the attitude, the rates and the biases, the predicted velocity stays zero
   exactly when no time passes or the accelerometer reads what it reads at rest.
   */
  lemma {:induction false} RestStays(sqrt: real -> real, x: seq<real>, x': seq<real>, dt: real, accel: Vec3, gyro: Vec3)
    requires |x| == N && |x'| == N && Propagates(sqrt, x, x', dt, accel, gyro) && VecAt(x, IU) == ZERO
    ensures VecAt(x', IU) == ZERO <==> dt == 0.0 || accel == RestReading(x)
    ensures VecAt(x', IX) == VecAt(x, IX)
  {
    var q, R := Attitude(x), Rotation(Attitude(x));
    DownIsLastRow(q, R);
    StandsStill(sqrt, x, x', dt, accel, gyro, R);
  }

  lemma {:induction false} StandsStill(sqrt: real -> real, x: seq<real>, x': seq<real>, dt: real, accel: Vec3, gyro: Vec3, R: Mat3)
    requires |x| == N && |x'| == N && Propagates(sqrt, x, x', dt, accel, gyro) && VecAt(x, IU) == ZERO
    requires R == Rotation(Attitude(x))
    requires ReadingOf(x, 0) == -R.r20 * GRAVITY + x[10] && ReadingOf(x, 1) == -R.r21 * GRAVITY + x[11]
    requires ReadingOf(x, 2) == -R.r22 * GRAVITY + x[12]
    ensures VecAt(x', IU) == ZERO <==> dt == 0.0 || accel == RestReading(x)
    ensures VecAt(x', IX) == VecAt(x, IX)
  {
  }

  // ---- in motion ----

  /** a × b, written out. */
  predicate IsCross(c: Vec3, a: Vec3, b: Vec3) {
    c.x == a.y * b.z - a.z * b.y && c.y == a.z * b.x - a.x * b.z && c.z == a.x * b.y - a.y * b.x
  }

  /** d is s times v. */
  predicate IsScaled(d: Vec3, s: real, v: Vec3) {
    d.x == s * v.x && d.y == s * v.y && d.z == s * v.z
  }

  /** The change of the body velocity in a turning frame: the difference plus what the turn takes, dt·(ω × v). */
  predicate IsInertialChange(d: Vec3, v: Vec3, v': Vec3, dt: real, c: Vec3) {
    d.x == v'.x - v.x + dt * c.x && d.y == v'.y - v.y + dt * c.y && d.z == v'.z - v.z + dt * c.z
  }

  lemma ChangePart(v: real, v': real, dt: real, t: real, c: real, d: real, f: real)
    requires v' == v + t * dt && d == v' - v + dt * c && f == t + c
    ensures d == dt * f
  {
  }

  /** The specific force plus gravity, in the body. */
  function Force(a: Vec3, R: Mat3): Vec3 {
    Vec3(a.x + R.r20 * GRAVITY, a.y + R.r21 * GRAVITY, a.z + R.r22 * GRAVITY)
  }

  lemma {:induction false} TrueAccelParts(a: Vec3, w: Vec3, v: Vec3, R: Mat3, c: Vec3)
    requires IsCross(c, w, v)
    ensures TrueAccel(a, w, v, R)
         == Vec3(a.x + R.r20 * GRAVITY - c.x, a.y + R.r21 * GRAVITY - c.y, a.z + R.r22 * GRAVITY - c.z)
  {
    assert c == Cross3(w, v);
  }

  lemma {:induction false} ChangeIsScaled(v: Vec3, v': Vec3, dt: real, t: Vec3, c: Vec3, d: Vec3, f: Vec3)
    requires v' == AddScaled3(v, dt, t) && IsInertialChange(d, v, v', dt, c)
    requires f == Vec3(t.x + c.x, t.y + c.y, t.z + c.z)
    ensures IsScaled(d, dt, f)
  {
    ChangePart(v.x, v'.x, dt, t.x, c.x, d.x, f.x);
    ChangePart(v.y, v'.y, dt, t.y, c.y, d.y, f.y);
    ChangePart(v.z, v'.z, dt, t.z, c.z, d.z, f.z);
  }

  lemma {:induction false} ChangeIsForce(v: Vec3, v': Vec3, dt: real, a: Vec3, w: Vec3, R: Mat3, c: Vec3, d: Vec3)
    requires v' == AddScaled3(v, dt, TrueAccel(a, w, v, R)) && IsCross(c, w, v) && IsInertialChange(d, v, v', dt, c)
    ensures IsScaled(d, dt, Force(a, R))
  {
    TrueAccelParts(a, w, v, R, c);
    ChangeIsScaled(v, v', dt, TrueAccel(a, w, v, R), c, d, Force(a, R));
  }

  function Dot(a: Vec3, b: Vec3): real {
    a.x * b.x + a.y * b.y + a.z * b.z
  }

  lemma ScaledDot(r: Vec3, d: Vec3, dt: real, f: Vec3)
    requires IsScaled(d, dt, f)
    ensures Dot(r, d) == dt * Dot(r, f)
  {
    assert r.x * (dt * f.x) == dt * (r.x * f.x);
    assert r.y * (dt * f.y) == dt * (r.y * f.y);
    assert r.z * (dt * f.z) == dt * (r.z * f.z);
  }

  lemma ForceDot(r: Vec3, a: Vec3, R: Mat3, k: real)
    requires Dot(r, Vec3(R.r20, R.r21, R.r22)) == k
    ensures Dot(r, Force(a, R)) == Dot(r, a) + k * GRAVITY
  {
  }

  lemma AppliedDots(R: Mat3, v: Vec3)
    ensures Apply3(R, v) == Vec3(Dot(Vec3(R.r00, R.r01, R.r02), v), Dot(Vec3(R.r10, R.r11, R.r12), v), Dot(Vec3(R.r20, R.r21, R.r22), v))
  {
  }

  lemma OrthogonalDots(R: Mat3)
    requires Mul3(R, Tr3(R)) == ID3
    ensures Dot(Vec3(R.r00, R.r01, R.r02), Vec3(R.r20, R.r21, R.r22)) == 0.0
    ensures Dot(Vec3(R.r10, R.r11, R.r12), Vec3(R.r20, R.r21, R.r22)) == 0.0
    ensures Dot(Vec3(R.r20, R.r21, R.r22), Vec3(R.r20, R.r21, R.r22)) == 1.0
  {
  }

  lemma {:induction false} ForceInWorld(R: Mat3, a: Vec3, dt: real, d: Vec3)
    requires Mul3(R, Tr3(R)) == ID3 && IsScaled(d, dt, Force(a, R))
    ensures var u := Apply3(R, a); IsScaled(Apply3(R, d), dt, Vec3(u.x, u.y, u.z + GRAVITY))
  {
    var r0, r1, r2 := Vec3(R.r00, R.r01, R.r02), Vec3(R.r10, R.r11, R.r12), Vec3(R.r20, R.r21, R.r22);
    var f := Force(a, R);
    OrthogonalDots(R);
    AppliedDots(R, a);
    AppliedDots(R, d);
    ScaledDot(r0, d, dt, f);
    ScaledDot(r1, d, dt, f);
    ScaledDot(r2, d, dt, f);
    ForceDot(r0, a, R, 0.0);
    ForceDot(r1, a, R, 0.0);
    ForceDot(r2, a, R, 1.0);
  }

  /**
   For a unit attitude the predicted velocity changes, seen from the world and with the turn of the body
   taken out, by dt times the specific force turned into the world plus gravity, which points down.
   */
  lemma {:induction false} InertialLaw(sqrt: real -> real, x: seq<real>, x': seq<real>, dt: real, accel: Vec3, gyro: Vec3,
                                       c: Vec3, d: Vec3)
    requires |x| == N && |x'| == N && Propagates(sqrt, x, x', dt, accel, gyro) && Norm2(Attitude(x)) == 1.0
    requires IsCross(c, Vec3(gyro.x - x[13], gyro.y - x[14], gyro.z - x[15]), VecAt(x, IU))
    requires IsInertialChange(d, VecAt(x, IU), VecAt(x', IU), dt, c)
    ensures var R := Rotation(Attitude(x));
            var u := Apply3(R, Vec3(accel.x - x[10], accel.y - x[11], accel.z - x[12]));
            IsScaled(Apply3(R, d), dt, Vec3(u.x, u.y, u.z + GRAVITY))
  {
    var R := Rotation(Attitude(x));
    var a, w := Vec3(accel.x - x[10], accel.y - x[11], accel.z - x[12]), Vec3(gyro.x - x[13], gyro.y - x[14], gyro.z - x[15]);
    RotationOrthogonal(Attitude(x));
    ChangeIsForce(VecAt(x, IU), VecAt(x', IU), dt, a, w, R, c, d);
    ForceInWorld(R, a, dt, d);
  }

  // ---- position ----

  lemma {:induction false} BackInBody(R: Mat3, v: Vec3, d: Vec3, dt: real)
    requires Mul3(Tr3(R), R) == ID3 && IsScaled(d, dt, Apply3(R, v))
    ensures IsScaled(Apply3(Tr3(R), d), dt, v)
  {
    var T := Tr3(R);
    AppliedDots(T, d);
    AppliedDots(T, Apply3(R, v));
    ScaledDot(Vec3(T.r00, T.r01, T.r02), d, dt, Apply3(R, v));
    ScaledDot(Vec3(T.r10, T.r11, T.r12), d, dt, Apply3(R, v));
    ScaledDot(Vec3(T.r20, T.r21, T.r22), d, dt, Apply3(R, v));
    Undone(R, v);
  }

  lemma Undone(R: Mat3, v: Vec3)
    requires Mul3(Tr3(R), R) == ID3
    ensures Apply3(Tr3(R), Apply3(R, v)) == v
  {
    AppliedTwice(Tr3(R), R, v);
    IdentityApplied(v);
  }

  lemma IdentityApplied(v: Vec3)
    ensures Apply3(ID3, v) == v
  {
  }

  lemma AppliedTwice(A: Mat3, B: Mat3, v: Vec3)
    ensures Apply3(A, Apply3(B, v)) == Apply3(Mul3(A, B), v)
  {
    RowTwice(A.r00, A.r01, A.r02, B, v, Apply3(B, v));
    RowTwice(A.r10, A.r11, A.r12, B, v, Apply3(B, v));
    RowTwice(A.r20, A.r21, A.r22, B, v, Apply3(B, v));
  }

  lemma RowTwice(a: real, b: real, c: real, B: Mat3, v: Vec3, u: Vec3)
    requires u == Apply3(B, v)
    ensures a * u.x + b * u.y + c * u.z == (a * B.r00 + b * B.r10 + c * B.r20) * v.x
                                         + (a * B.r01 + b * B.r11 + c * B.r21) * v.y
                                         + (a * B.r02 + b * B.r12 + c * B.r22) * v.z
  {
  }

  /** For a unit attitude the predicted displacement, seen in the body, is dt times the velocity. */
  lemma {:induction false} DisplacementLaw(sqrt: real -> real, x: seq<real>, x': seq<real>, dt: real, accel: Vec3, gyro: Vec3, d: Vec3)
    requires |x| == N && |x'| == N && Propagates(sqrt, x, x', dt, accel, gyro) && Norm2(Attitude(x)) == 1.0
    requires d.x == x'[0] - x[0] && d.y == x'[1] - x[1] && d.z == x'[2] - x[2]
    ensures IsScaled(Apply3(Tr3(Rotation(Attitude(x))), d), dt, VecAt(x, IU))
  {
    var R := Rotation(Attitude(x));
    RotationOrthogonal(Attitude(x));
    Displaced(VecAt(x, IX), VecAt(x', IX), dt, Apply3(R, VecAt(x, IU)), d);
    BackInBody(R, VecAt(x, IU), d, dt);
  }

  lemma Displaced(p: Vec3, p': Vec3, dt: real, u: Vec3, d: Vec3)
    requires p' == AddScaled3(p, dt, u) && d.x == p'.x - p.x && d.y == p'.y - p.y && d.z == p'.z - p.z
    ensures IsScaled(d, dt, u)
  {
  }
}
