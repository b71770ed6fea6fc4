/** The whole transition matrix: what each of its entries is the derivative of. */
module TransitionEntries {
  import opened FilterRuns
  import opened Hamilton
  import opened Quaternions
  import opened RotationPartials
  import opened GravityModel
  import opened Ekf
  import opened TransitionJacobian

  /** Component r of a vector, and of a quaternion. */
  function Part(v: Vec3, r: nat): real {
    if r == 0 then v.x else if r == 1 then v.y else v.z
  }

  function QuatPart(q: Quat, r: nat): real {
    if r == 0 then q.w else if r == 1 then q.x else if r == 2 then q.y else q.z
  }

  /** v with h added to component j. */
  function Bumped(v: Vec3, j: nat, h: real): Vec3 {
    if j == 0 then v.(x := v.x + h) else if j == 1 then v.(y := v.y + h) else v.(z := v.z + h)
  }

  /** Position rows, attitude columns: the partials but for the one entry named. */
  lemma {:induction false} PositionByAttitude(x: seq<real>, g: Vec3, dt: real, r: nat, i: nat)
    requires |x| == N && r < 3 && i < 4
    ensures var (q, v) := (Attitude(x), VecAt(x, IU));
            IsPartial(q, v, dt, r, i, Transition(x, g, dt).at[r][IQ0 + i]) <==>
              !(r == 0 && i == 3) || dt == 0.0 || q.x == q.y || v.z == 0.0
  {
    PositionPartials(Attitude(x), VecAt(x, IU), dt, r, i);
  }

  function Dot3(a: real, b: real, c: real, v: Vec3): real {
    a * v.x + b * v.y + c * v.z
  }

  lemma LinearRow(a: real, b: real, c: real, v: Vec3, h: real, k: real, dt: real)
    requires k == -h
    ensures Slope(Dot3(a, b, c, Bumped(v, 0, h)), Dot3(a, b, c, Bumped(v, 0, k)), h, a * dt, dt)
    ensures Slope(Dot3(a, b, c, Bumped(v, 1, h)), Dot3(a, b, c, Bumped(v, 1, k)), h, b * dt, dt)
    ensures Slope(Dot3(a, b, c, Bumped(v, 2, h)), Dot3(a, b, c, Bumped(v, 2, k)), h, c * dt, dt)
  {
  }

  function RowAt(R: Mat3, r: nat): Vec3 {
    if r == 0 then Vec3(R.r00, R.r01, R.r02) else if r == 1 then Vec3(R.r10, R.r11, R.r12) else Vec3(R.r20, R.r21, R.r22)
  }

  lemma AppliedPart(R: Mat3, v: Vec3, r: nat, u: Vec3)
    requires r < 3 && u == RowAt(R, r)
    ensures Part(Apply3(R, v), r) == Dot3(u.x, u.y, u.z, v)
  {
  }

  lemma BlockRow(R: Mat3, dt: real, r: nat, u: Vec3, row: seq<real>)
    requires r < 3 && u == RowAt(R, r) && row == RotBlock(R, dt)[r]
    ensures |row| == 3 && row[0] == u.x * dt && row[1] == u.y * dt && row[2] == u.z * dt
  {
  }

  /** Position rows, velocity columns: the partials of the distance travelled. */
  lemma {:induction false} PositionByVelocity(x: seq<real>, g: Vec3, dt: real, r: nat, j: nat, h: real, k: real)
    requires |x| == N && r < 3 && j < 3 && k == -h
    ensures var (R, v) := (Rotation(Attitude(x)), VecAt(x, IU));
            Slope(Part(Apply3(R, Bumped(v, j, h)), r), Part(Apply3(R, Bumped(v, j, k)), r), h,
                  Transition(x, g, dt).at[r][IU + j], dt)
  {
    RotationRow(Rotation(Attitude(x)), VecAt(x, IU), dt, r, j, h, k);
    assert Transition(x, g, dt).at[r][IU + j] == RotBlock(Rotation(Attitude(x)), dt)[r][j];
  }

  lemma {:induction false} RotationRow(R: Mat3, v: Vec3, dt: real, r: nat, j: nat, h: real, k: real)
    requires r < 3 && j < 3 && k == -h
    ensures Slope(Part(Apply3(R, Bumped(v, j, h)), r), Part(Apply3(R, Bumped(v, j, k)), r), h, RotBlock(R, dt)[r][j], dt)
  {
    var u := RowAt(R, r);
    AppliedPart(R, Bumped(v, j, h), r, u);
    AppliedPart(R, Bumped(v, j, k), r, u);
    BlockRow(R, dt, r, u, RotBlock(R, dt)[r]);
    RowSlopes(u.x, u.y, u.z, RotBlock(R, dt)[r], v, dt, j, h, k);
  }

  lemma {:induction false} RowSlopes(a: real, b: real, c: real, row: seq<real>, v: Vec3, dt: real, j: nat, h: real, k: real)
    requires |row| == 3 && row[0] == a * dt && row[1] == b * dt && row[2] == c * dt && j < 3 && k == -h
    ensures Slope(Dot3(a, b, c, Bumped(v, j, h)), Dot3(a, b, c, Bumped(v, j, k)), h, row[j], dt)
  {
    LinearRow(a, b, c, v, h, k, dt);
  }

  /** The velocity after a step. */
  function VelocityAfter(v: Vec3, dt: real, accel: Vec3, bias: Vec3, w: Vec3, R: Mat3): Vec3 {
    AddScaled3(v, dt, TrueAccel(Sub3(accel, bias), w, v, R))
  }

  function AfterPart(v: real, dt: real, a: real, b: real, g: real, c: real): real {
    v + (a - b + g - c) * dt
  }

  lemma BiasPart(v: real, dt: real, a: real, b: real, h: real, k: real, g: real, c: real)
    requires k == -h
    ensures Central(AfterPart(v, dt, a, b + h, g, c), AfterPart(v, dt, a, b + k, g, c), h, -dt)
    ensures Central(AfterPart(v, dt, a, b, g, c), AfterPart(v, dt, a, b, g, c), h, 0.0)
  {
  }

  lemma {:induction false} AfterParts(v: Vec3, dt: real, a: Vec3, b: Vec3, w: Vec3, R: Mat3, c: Vec3, r: nat)
    requires c == Cross3(w, v) && r < 3
    ensures Part(VelocityAfter(v, dt, a, b, w, R), r)
         == AfterPart(Part(v, r), dt, Part(a, r), Part(b, r), Part(RowAt(R, 2), r) * GRAVITY, Part(c, r))
  {
  }

  lemma BumpedPart(b: Vec3, j: nat, h: real, r: nat)
    requires r < 3 && j < 3
    ensures Part(Bumped(b, j, h), r) == if r == j then Part(b, r) + h else Part(b, r)
  {
  }

  /** Velocity rows, accelerometer bias columns: what a bias does to the predicted velocity. */
  lemma {:induction false} VelocityByBias(x: seq<real>, g: Vec3, dt: real, accel: Vec3, r: nat, j: nat, h: real, k: real)
    requires |x| == N && r < 3 && j < 3 && k == -h
    ensures var (v, b, R) := (VecAt(x, IU), VecAt(x, IBAX), Rotation(Attitude(x)));
            Central(Part(VelocityAfter(v, dt, accel, Bumped(b, j, h), g, R), r),
                    Part(VelocityAfter(v, dt, accel, Bumped(b, j, k), g, R), r), h, Transition(x, g, dt).at[IU + r][IBAX + j])
  {
    assert Transition(x, g, dt).at[IU + r][IBAX + j] == if r == j then -dt else 0.0;
    BiasedVelocity(VecAt(x, IU), VecAt(x, IBAX), dt, accel, g, Rotation(Attitude(x)), r, j, h, k);
  }

  lemma {:induction false} BiasedVelocity(v: Vec3, b: Vec3, dt: real, accel: Vec3, w: Vec3, R: Mat3, r: nat, j: nat, h: real, k: real)
    requires r < 3 && j < 3 && k == -h
    ensures Central(Part(VelocityAfter(v, dt, accel, Bumped(b, j, h), w, R), r),
                    Part(VelocityAfter(v, dt, accel, Bumped(b, j, k), w, R), r), h, if r == j then -dt else 0.0)
  {
    var c := Cross3(w, v);
    AfterParts(v, dt, accel, Bumped(b, j, h), w, R, c, r);
    AfterParts(v, dt, accel, Bumped(b, j, k), w, R, c, r);
    BumpedPart(b, j, h, r);
    BumpedPart(b, j, k, r);
    BiasPart(Part(v, r), dt, Part(accel, r), Part(b, r), h, k, Part(RowAt(R, 2), r) * GRAVITY, Part(c, r));
  }

  /** Attitude rows, attitude columns: the propagation before normalisation, which is linear in the quaternion. */
  lemma {:induction false} AttitudeByAttitude(x: seq<real>, g: Vec3, dt: real, r: nat)
    requires |x| == N && r < 4
    ensures var f := Transition(x, g, dt).at[IQ0 + r];
            QuatPart(QuatMul(Attitude(x), RateStep(g.x, g.y, g.z, dt)), r)
              == RowSum(f[6], f[7], f[8], f[9], x[6], x[7], x[8], x[9])
  {
    AttitudeBlockPropagates(Attitude(x), g, dt);
  }

  /** Attitude rows, gyro bias columns: exactly what a step d of the bias does to it. */
  lemma {:induction false} AttitudeByBias(x: seq<real>, g: Vec3, dt: real, d: Vec3, r: nat)
    requires |x| == N && r < 4
    ensures var f := Transition(x, g, dt).at[IQ0 + r];
            QuatPart(QuatMul(Attitude(x), RateStep(g.x - d.x, g.y - d.y, g.z - d.z, dt)), r)
              == QuatPart(QuatMul(Attitude(x), RateStep(g.x, g.y, g.z, dt)), r) + DotRow3(f[IBGX..], d)
  {
    BiasBlockPropagates(Attitude(x), g, d, dt);
    assert Transition(x, g, dt).at[IQ0 + r][IBGX..] == AttBiasBlock(Attitude(x), 0.5 * dt)[r];
  }

  /** The rows and columns of those blocks. */
  predicate InBlock(i: nat, j: nat) {
    || (i < IU && IU <= j < IBAX)
    || (IU <= i < IQ0 && IBAX <= j < IBGX)
    || (IQ0 <= i < IBAX && (IQ0 <= j < IBAX || IBGX <= j))
  }

  /** Every other entry is that of the identity: states stay, and nothing else couples them. */
  lemma {:induction false} IdentityElsewhere(x: seq<real>, g: Vec3, dt: real, i: nat, j: nat)
    requires |x| == N && i < N && j < N && !InBlock(i, j)
    ensures Transition(x, g, dt).at[i][j] == if i == j then 1.0 else 0.0
  {
  }
}
