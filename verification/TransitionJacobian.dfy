/** What the entries of the transition matrix mean: derivatives of the propagation they linearise. */
module TransitionJacobian {
  import opened Hamilton
  import opened Quaternions
  import opened RotationPartials
  import opened GravityModel
  import opened Ekf

  // ---- position by attitude ----

  /** Component r of the velocity v turned by the matrix of q. */
  function TurnedBy(q: Quat, v: Vec3, r: nat): real {
    var u := Apply3(Rotation(q), v);
    if r == 0 then u.x else if r == 1 then u.y else u.z
  }

  /**
   e is the partial derivative, by component i of the quaternion, of component r of the distance
   travelled in dt: for every h the difference over ±h is 2h times e.
   */
  ghost predicate IsPartial(q: Quat, v: Vec3, dt: real, r: nat, i: nat, e: real) {
    forall h: real :: Slope(TurnedBy(Shifted(q, i, h), v, r), TurnedBy(Shifted(q, i, -h), v, r), h, e, dt)
  }

  lemma AppliedRows(R: Mat3, v: Vec3)
    ensures Apply3(R, v) == Vec3(RowDot(R.r00, R.r01, R.r02, v.x, v.y, v.z), RowDot(R.r10, R.r11, R.r12, v.x, v.y, v.z),
                                 RowDot(R.r20, R.r21, R.r22, v.x, v.y, v.z))
  {
  }

  lemma TurnedFirst(q: Quat, v: Vec3)
    ensures TurnedBy(q, v, 0) == RowX(q.w, q.x, q.y, q.z, v.x, v.y, v.z)
  {
    AppliedRows(Rotation(q), v);
    RowXIsDot(q.w, q.x, q.y, q.z, v.x, v.y, v.z);
  }

  lemma TurnedSecond(q: Quat, v: Vec3)
    ensures TurnedBy(q, v, 1) == RowX(q.w, q.y, q.z, q.x, v.y, v.z, v.x)
  {
    AppliedRows(Rotation(q), v);
    RowsAreCyclic(q.w, q.x, q.y, q.z, v.x, v.y, v.z);
  }

  lemma TurnedThird(q: Quat, v: Vec3)
    ensures TurnedBy(q, v, 2) == RowX(q.w, q.z, q.x, q.y, v.z, v.x, v.y)
  {
    AppliedRows(Rotation(q), v);
    RowsAreCyclic(q.w, q.x, q.y, q.z, v.x, v.y, v.z);
  }

  lemma FirstRow(q: Quat, v: Vec3, dt: real, i: nat, h: real, k: real)
    requires i < 3 && k == -h
    ensures Slope(TurnedBy(Shifted(q, i, h), v, 0), TurnedBy(Shifted(q, i, k), v, 0), h, PosAttBlock(q, v, dt)[0][i], dt)
  {
    TurnedFirst(Shifted(q, i, h), v);
    TurnedFirst(Shifted(q, i, k), v);
    FirstRowPartials(q.w, q.x, q.y, q.z, v.x, v.y, v.z, dt, h, k);
  }

  lemma SecondRow(q: Quat, v: Vec3, dt: real, i: nat, h: real, k: real)
    requires i < 4 && k == -h
    ensures Slope(TurnedBy(Shifted(q, i, h), v, 1), TurnedBy(Shifted(q, i, k), v, 1), h, PosAttBlock(q, v, dt)[1][i], dt)
  {
    TurnedSecond(Shifted(q, i, h), v);
    TurnedSecond(Shifted(q, i, k), v);
    SecondRowPartials(q.w, q.x, q.y, q.z, v.x, v.y, v.z, dt, h, k);
  }

  lemma ThirdRow(q: Quat, v: Vec3, dt: real, i: nat, h: real, k: real)
    requires i < 4 && k == -h
    ensures Slope(TurnedBy(Shifted(q, i, h), v, 2), TurnedBy(Shifted(q, i, k), v, 2), h, PosAttBlock(q, v, dt)[2][i], dt)
  {
    TurnedThird(Shifted(q, i, h), v);
    TurnedThird(Shifted(q, i, k), v);
    ThirdRowPartials(q.w, q.x, q.y, q.z, v.x, v.y, v.z, dt, h, k);
  }

  lemma Difference(q: Quat, v: Vec3, dt: real, r: nat, i: nat, h: real)
    requires r < 3 && i < 4 && !(r == 0 && i == 3)
    ensures Slope(TurnedBy(Shifted(q, i, h), v, r), TurnedBy(Shifted(q, i, -h), v, r), h, PosAttBlock(q, v, dt)[r][i], dt)
  {
    match r
    case 0 => FirstRow(q, v, dt, i, h, -h);
    case 1 => SecondRow(q, v, dt, i, h, -h);
    case _ => ThirdRow(q, v, dt, i, h, -h);
  }

  lemma LastDifference(q: Quat, v: Vec3, dt: real, h: real, e: real)
    ensures Slope(TurnedBy(Shifted(q, 3, h), v, 0), TurnedBy(Shifted(q, 3, -h), v, 0), h, e, dt)
       <==> DifferenceZ(h, q.w, q.x, q.y, q.z, v.x, v.y, v.z, dt) == 2.0 * h * e
  {
    TurnedFirst(Shifted(q, 3, h), v);
    TurnedFirst(Shifted(q, 3, -h), v);
  }

  /**
   Every entry of the position-by-attitude block is the partial derivative of the distance travelled,
   except the first row's last, which is one exactly when no time passes, qx = qy, or the vertical
   velocity is zero.
   */
  lemma PositionPartials(q: Quat, v: Vec3, dt: real, r: nat, i: nat)
    requires r < 3 && i < 4
    ensures IsPartial(q, v, dt, r, i, PosAttBlock(q, v, dt)[r][i]) <==>
              !(r == 0 && i == 3) || dt == 0.0 || q.x == q.y || v.z == 0.0
  {
    if r == 0 && i == 3 {
      LastPartial(q, v, dt, PosAttBlock(q, v, dt)[0][3]);
      LastEntryOfFirstRow(q.w, q.x, q.y, q.z, v.x, v.y, v.z, dt);
    } else {
      forall h: real
        ensures Slope(TurnedBy(Shifted(q, i, h), v, r), TurnedBy(Shifted(q, i, -h), v, r), h, PosAttBlock(q, v, dt)[r][i], dt)
      {
        Difference(q, v, dt, r, i, h);
      }
    }
  }

  lemma LastPartial(q: Quat, v: Vec3, dt: real, e: real)
    ensures IsPartial(q, v, dt, 0, 3, e) <==> IsPartialByZ(e, q.w, q.x, q.y, q.z, v.x, v.y, v.z, dt)
  {
    if IsPartial(q, v, dt, 0, 3, e) {
      forall h: real ensures DifferenceZ(h, q.w, q.x, q.y, q.z, v.x, v.y, v.z, dt) == 2.0 * h * e {
        LastDifference(q, v, dt, h, e);
        assert Slope(TurnedBy(Shifted(q, 3, h), v, 0), TurnedBy(Shifted(q, 3, -h), v, 0), h, e, dt);
      }
    }
    if IsPartialByZ(e, q.w, q.x, q.y, q.z, v.x, v.y, v.z, dt) {
      forall h: real ensures Slope(TurnedBy(Shifted(q, 3, h), v, 0), TurnedBy(Shifted(q, 3, -h), v, 0), h, e, dt) {
        LastDifference(q, v, dt, h, e);
        assert DifferenceZ(h, q.w, q.x, q.y, q.z, v.x, v.y, v.z, dt) == 2.0 * h * e;
      }
    }
  }

  // ---- attitude by attitude and by gyro bias ----

  function DotRow(row: seq<real>, q: Quat): real
    requires |row| == 4
  {
    RowSum(row[0], row[1], row[2], row[3], q.w, q.x, q.y, q.z)
  }

  /** A 4×4 block times a quaternion. */
  function BlockTimes(b: Block, q: Quat): Quat
    requires BlockDims(b, 4, 4)
  {
    Quat(DotRow(b[0], q), DotRow(b[1], q), DotRow(b[2], q), DotRow(b[3], q))
  }

  lemma StepEntries(g: Vec3, dt: real, d: Quat)
    requires d == RateStep(g.x, g.y, g.z, dt)
    ensures AttBlock(g, 0.5 * dt)
         == [[1.0, -d.x, -d.y, -d.z], [d.x, 1.0, d.z, -d.y], [d.y, -d.z, 1.0, d.x], [d.z, d.y, -d.x, 1.0]]
  {
    Halved(g.x, dt, d.x);
    Halved(g.y, dt, d.y);
    Halved(g.z, dt, d.z);
    var b := AttBlock(g, 0.5 * dt);
    assert b[0][1] == -d.x && b[0][2] == -d.y && b[0][3] == -d.z;
    assert b[0] == [1.0, -d.x, -d.y, -d.z];
    assert b[1] == [d.x, 1.0, d.z, -d.y];
    assert b[2] == [d.y, -d.z, 1.0, d.x];
    assert b[3] == [d.z, d.y, -d.x, 1.0];
  }

  lemma StepTimes(q: Quat, d: Quat, u: Quat)
    requires d.w == 1.0 && u == QuatMul(q, d)
    ensures u == BlockTimes([[1.0, -d.x, -d.y, -d.z], [d.x, 1.0, d.z, -d.y], [d.y, -d.z, 1.0, d.x], [d.z, d.y, -d.x, 1.0]], q)
  {
    StepW(q.w, q.x, q.y, q.z, d.x, d.y, d.z, d.w, 1.0, -d.x, -d.y, -d.z, u.w);
    StepX(q.w, q.x, q.y, q.z, d.x, d.y, d.z, d.w, d.x, 1.0, d.z, -d.y, u.x);
    StepY(q.w, q.x, q.y, q.z, d.x, d.y, d.z, d.w, d.y, -d.z, 1.0, d.x, u.y);
    StepZ(q.w, q.x, q.y, q.z, d.x, d.y, d.z, d.w, d.z, d.y, -d.x, 1.0, u.z);
  }

  /** The attitude block is the propagation before normalisation, which is linear in the quaternion. */
  lemma AttitudeBlockPropagates(q: Quat, g: Vec3, dt: real)
    ensures BlockTimes(AttBlock(g, 0.5 * dt), q) == QuatMul(q, RateStep(g.x, g.y, g.z, dt))
  {
    var d := RateStep(g.x, g.y, g.z, dt);
    StepEntries(g, dt, d);
    StepTimes(q, d, QuatMul(q, d));
  }

  function DotRow3(row: seq<real>, v: Vec3): real
    requires |row| == 3
  {
    row[0] * v.x + row[1] * v.y + row[2] * v.z
  }

  /** A 4×3 block times a vector. */
  function BlockTimes3(b: Block, d: Vec3): Quat
    requires BlockDims(b, 4, 3)
  {
    Quat(DotRow3(b[0], d), DotRow3(b[1], d), DotRow3(b[2], d), DotRow3(b[3], d))
  }

  function Added(p: Quat, q: Quat): Quat {
    Quat(p.w + q.w, p.x + q.x, p.y + q.y, p.z + q.z)
  }

  /** The step of a rate less a bias, as the step of the rate and a rest; and a product of it. */
  lemma BiasSplit(a: real, d: real, dt: real, s: real)
    ensures s * (0.5 * (a - d) * dt) == s * (0.5 * a * dt) - ((0.5 * dt) * s) * d
    ensures (-(0.5 * dt) * s) * d == -(((0.5 * dt) * s) * d)
  {
  }

  lemma BiasedW(q: Quat, g: Vec3, d: Vec3, dt: real)
    ensures QuatMul(q, RateStep(g.x - d.x, g.y - d.y, g.z - d.z, dt)).w
         == QuatMul(q, RateStep(g.x, g.y, g.z, dt)).w + DotRow3(AttBiasBlock(q, 0.5 * dt)[0], d)
  {
    BiasSplit(g.x, d.x, dt, q.x);
    BiasSplit(g.y, d.y, dt, q.y);
    BiasSplit(g.z, d.z, dt, q.z);
  }

  lemma BiasedX(q: Quat, g: Vec3, d: Vec3, dt: real)
    ensures QuatMul(q, RateStep(g.x - d.x, g.y - d.y, g.z - d.z, dt)).x
         == QuatMul(q, RateStep(g.x, g.y, g.z, dt)).x + DotRow3(AttBiasBlock(q, 0.5 * dt)[1], d)
  {
    BiasSplit(g.x, d.x, dt, q.w);
    BiasSplit(g.y, d.y, dt, q.z);
    BiasSplit(g.z, d.z, dt, q.y);
  }

  lemma BiasedY(q: Quat, g: Vec3, d: Vec3, dt: real)
    ensures QuatMul(q, RateStep(g.x - d.x, g.y - d.y, g.z - d.z, dt)).y
         == QuatMul(q, RateStep(g.x, g.y, g.z, dt)).y + DotRow3(AttBiasBlock(q, 0.5 * dt)[2], d)
  {
    BiasSplit(g.x, d.x, dt, q.z);
    BiasSplit(g.y, d.y, dt, q.w);
    BiasSplit(g.z, d.z, dt, q.x);
  }

  lemma BiasedZ(q: Quat, g: Vec3, d: Vec3, dt: real)
    ensures QuatMul(q, RateStep(g.x - d.x, g.y - d.y, g.z - d.z, dt)).z
         == QuatMul(q, RateStep(g.x, g.y, g.z, dt)).z + DotRow3(AttBiasBlock(q, 0.5 * dt)[3], d)
  {
    BiasSplit(g.x, d.x, dt, q.y);
    BiasSplit(g.y, d.y, dt, q.x);
    BiasSplit(g.z, d.z, dt, q.w);
  }

  /** The gyro bias block is exactly what a step d of the bias does to it. */
  lemma BiasBlockPropagates(q: Quat, g: Vec3, d: Vec3, dt: real)
    ensures QuatMul(q, RateStep(g.x - d.x, g.y - d.y, g.z - d.z, dt))
         == Added(QuatMul(q, RateStep(g.x, g.y, g.z, dt)), BlockTimes3(AttBiasBlock(q, 0.5 * dt), d))
  {
    BiasedW(q, g, d, dt);
    BiasedX(q, g, d, dt);
    BiasedY(q, g, d, dt);
    BiasedZ(q, g, d, dt);
  }
}
