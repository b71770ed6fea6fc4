/** The innovations the filter feeds to its update: what they measure, and what an update leaves of them. */
module Measurements {
  import opened RealFunctions
  import opened Matrices
  import opened Covariance
  import opened FilterRuns
  import opened Hamilton
  import opened Quaternions
  import opened GravityModel
  import opened StateUpdate
  import opened Ekf

  // ---- attitude ----

  function Negated(q: Quat): Quat {
    Quat(-q.w, -q.x, -q.y, -q.z)
  }

  function Added4(a: Quat, b: Quat): Quat {
    Quat(a.w + b.w, a.x + b.x, a.y + b.y, a.z + b.z)
  }

  function Less4(a: Quat, b: Quat): Quat {
    Quat(a.w - b.w, a.x - b.x, a.y - b.y, a.z - b.z)
  }

  /** Both antipodes stand for the same attitude. */
  lemma {:induction false} AntipodeTurnsAlike(q: Quat)
    ensures Rotation(Negated(q)) == Rotation(q)
  {
    BothNegated(q.w, q.x);
    BothNegated(q.w, q.y);
    BothNegated(q.w, q.z);
    BothNegated(q.x, q.y);
    BothNegated(q.x, q.z);
    BothNegated(q.y, q.z);
  }

  lemma BothNegated(a: real, b: real)
    ensures -a * -b == a * b && -a * -a == a * a && -b * -b == b * b
  {
  }

  lemma DistanceParts(mw: real, mx: real, my: real, mz: real, pw: real, px: real, py: real, pz: real, dot: real)
    requires dot == mw * pw + mx * px + my * py + mz * pz
    ensures (mw - pw) * (mw - pw) + (mx - px) * (mx - px) + (my - py) * (my - py) + (mz - pz) * (mz - pz)
         == (mw * mw + mx * mx + my * my + mz * mz) + (pw * pw + px * px + py * py + pz * pz) - 2.0 * dot
    ensures (-mw - pw) * (-mw - pw) + (-mx - px) * (-mx - px) + (-my - py) * (-my - py) + (-mz - pz) * (-mz - pz)
         == (mw * mw + mx * mx + my * my + mz * mz) + (pw * pw + px * px + py * py + pz * pz) + 2.0 * dot
  {
  }

  /** The attitude innovation leads from the prediction to whichever antipode of the measurement is nearer. */
  lemma {:induction false} InnovationIsNearest(measured: Quat, pred: Quat, d: Quat)
    requires d == QuatInnovation(measured, pred)
    ensures Added4(pred, d) == measured || Added4(pred, d) == Negated(measured)
    ensures Norm2(d) <= Norm2(Less4(measured, pred)) && Norm2(d) <= Norm2(Less4(Negated(measured), pred))
  {
    var m, p := measured, pred;
    DistanceParts(m.w, m.x, m.y, m.z, p.w, p.x, p.y, p.z, QuatDot(m, p));
    if QuatDot(m, p) < 0.0 {
      assert d == Less4(Negated(m), p);
    } else {
      assert d == Less4(m, p);
    }
  }

  function QuatPart(q: Quat, r: nat): real {
    if r == 0 then q.w else if r == 1 then q.x else if r == 2 then q.y else q.z
  }

  /**
   After an update by the attitude innovation, the antipode measured differs from the new quaternion, before
   it is normalised, by the noise times y, where S·y is what it differed from the old one.
   */
  lemma {:induction false} AttitudeLeft(x: seq<real>, x': seq<real>, P: Mat, rVar: real, m: Quat, d: Quat, y: Mat, r: nat)
    requires |x| == |x'| == N && P.rows == P.cols == N && r < 4 && d == Less4(m, Attitude(x))
    requires MovesBy(x, x', P, AttitudeSelector(), QuatNoise(rVar), Components(d), y)
    ensures QuatPart(m, r) - x'[IQ0 + r] == rVar * y.at[r][0]
    ensures Mul(Innovation(P, AttitudeSelector(), QuatNoise(rVar)), y).at[r][0] == QuatPart(m, r) - x[IQ0 + r]
  {
    ResidualLeft(x, x', P, AttitudeSelector(), QuatNoise(rVar), Components(d), y, r);
    SelectorSees(x, x', r);
  }

  // ---- gravity ----

  /** The length of the reading, the size of an innovation, and the noise that shaking adds. */
  lemma {:induction false} LengthAndSize(sqrt: real -> real, v: Vec3, innov: seq<real>)
    requires IsSqrt(sqrt) && |innov| == 3
    ensures Length(sqrt, v) >= 0.0 && Length(sqrt, v) * Length(sqrt, v) == v.x * v.x + v.y * v.y + v.z * v.z
    ensures Size(innov) == ColDot(innov, ColumnOf(innov), 0, 3)
  {
    SquareNonneg(v.x);
    SquareNonneg(v.y);
    SquareNonneg(v.z);
    var C := ColumnOf(innov);
    assert ColDot(innov, C, 0, 3) == ColDot(innov, C, 0, 2) + innov[2] * C.at[2][0];
    assert ColDot(innov, C, 0, 2) == ColDot(innov, C, 0, 1) + innov[1] * C.at[1][0];
  }

  /** A vibration adds a quarter of itself to the noise. */
  lemma {:induction false} NoiseAdded(rVar: real, x: real)
    ensures Noise(rVar, 4.0 * x) == rVar + x
  {
  }

  function Reading(accel: Vec3, r: nat): real {
    if r == 0 then accel.x else if r == 1 then accel.y else accel.z
  }

  /**
   After an update by the gravity innovation, the accelerometer differs from the linearised prediction
   at the new state by the noise times y, where S·y is what it differed from the prediction before.
   */
  lemma {:induction false} GravityLeft(x: seq<real>, x': seq<real>, P: Mat, noise: real, accel: Vec3, y: Mat, r: nat)
    requires |x| == |x'| == N && P.rows == P.cols == N && r < 3
    requires MovesBy(x, x', P, GravityH(Attitude(x)), Noise3(noise), GravityInnovation(x, accel), y)
    ensures Reading(accel, r) - (ReadingOf(x, r) + Seen(GravityH(Attitude(x)), x, x', r)) == noise * y.at[r][0]
    ensures Mul(Innovation(P, GravityH(Attitude(x)), Noise3(noise)), y).at[r][0] == Reading(accel, r) - ReadingOf(x, r)
  {
    ResidualLeft(x, x', P, GravityH(Attitude(x)), Noise3(noise), GravityInnovation(x, accel), y, r);
  }

  /** The selector of the attitude sees exactly the change of the quaternion. */
  lemma {:induction false} SelectorSees(x: seq<real>, x': seq<real>, r: nat)
    requires |x| == |x'| == N && r < 4
    ensures Seen(AttitudeSelector(), x, x', r) == x'[IQ0 + r] - x[IQ0 + r]
  {
    ColDotOne(AttitudeSelector().at[r], ColumnOf(Change(x, x')), 0, N, IQ0 + r);
  }

  // ---- smoothing ----

  function Power(k: real, n: nat): real {
    if n == 0 then 1.0 else k * Power(k, n - 1)
  }

  /** The smoothed innovation magnitude, and the vibration filter, after n equal inputs. */
  function SmoothedFor(prev: real, m: real, n: nat): real {
    if n == 0 then prev else Smoothed(SmoothedFor(prev, m, n - 1), m)
  }

  function VibrationFor(prev: real, norm: real, n: nat): real {
    if n == 0 then prev else Vibration(VibrationFor(prev, norm, n - 1), norm)
  }

  lemma GapStep(k: real, p: real, g: real, gap: real, next: real)
    requires gap == p * g && next == k * gap
    ensures next == k * p * g
  {
  }

  /** Under a constant input the smoothed magnitude closes a tenth of what separates it from the input every time. */
  lemma {:induction false} SmoothedSettles(prev: real, m: real, n: nat)
    ensures SmoothedFor(prev, m, n) - m == Power(0.9, n) * (prev - m)
  {
    if n > 0 {
      SmoothedSettles(prev, m, n - 1);
      var gap := SmoothedFor(prev, m, n - 1) - m;
      GapStep(0.9, Power(0.9, n - 1), prev - m, gap, SmoothedFor(prev, m, n) - m);
    }
  }

  /** So does the vibration filter, by a fiftieth, toward the squared deviation from gravity. */
  lemma {:induction false} VibrationSettles(prev: real, norm: real, n: nat, dev: real)
    requires dev == (norm - GRAVITY) * (norm - GRAVITY)
    ensures VibrationFor(prev, norm, n) - dev == Power(0.98, n) * (prev - dev)
  {
    if n > 0 {
      VibrationSettles(prev, norm, n - 1, dev);
      var gap := VibrationFor(prev, norm, n - 1) - dev;
      VibrationStep(VibrationFor(prev, norm, n - 1), norm, dev);
      GapStep(0.98, Power(0.98, n - 1), prev - dev, gap, VibrationFor(prev, norm, n) - dev);
    }
  }

  lemma {:induction false} VibrationStep(prev: real, norm: real, dev: real)
    requires dev == (norm - GRAVITY) * (norm - GRAVITY)
    ensures Vibration(prev, norm) - dev == 0.98 * (prev - dev)
  {
  }
}
