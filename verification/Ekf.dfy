/** The single-lane 16-state filter: state vector, covariance, prediction and measurement update. */
module Ekf {
  import opened RealFunctions
  import opened Matrices
  import opened MatrixLoops
  import opened RowReduction
  import opened GaussJordan
  import opened Pivots
  import opened Covariance
  import opened FilterRuns
  import opened Hamilton
  import opened Quaternions
  import opened RotationPartials
  import opened GravityModel
  import opened StateUpdate

  const IX: nat := 0
  const IU: nat := 3
  const IQ0: nat := 6
  const IBAX: nat := 10
  const IBGX: nat := 13

  // ---- the state vector, by part ----

  function VecAt(x: seq<real>, i: nat): Vec3
    requires i + 3 <= |x|
  {
    Vec3(x[i], x[i + 1], x[i + 2])
  }

  function Sub3(a: Vec3, b: Vec3): Vec3 {
    Vec3(a.x - b.x, a.y - b.y, a.z - b.z)
  }

  /** a + s·b. */
  function AddScaled3(a: Vec3, s: real, b: Vec3): Vec3 {
    Vec3(a.x + b.x * s, a.y + b.y * s, a.z + b.z * s)
  }

  function Cross3(a: Vec3, b: Vec3): Vec3 {
    Vec3(a.y * b.z - a.z * b.y, a.z * b.x - a.x * b.z, a.x * b.y - a.y * b.x)
  }

  /** Body acceleration: specific force, plus gravity seen in the body, less the Coriolis term. */
  function TrueAccel(accel: Vec3, gyro: Vec3, v: Vec3, R: Mat3): Vec3 {
    var g := Vec3(R.r20 * GRAVITY, R.r21 * GRAVITY, R.r22 * GRAVITY);
    var c := Cross3(gyro, v);
    Vec3(accel.x + g.x - c.x, accel.y + g.y - c.y, accel.z + g.z - c.z)
  }

  /** The propagated state: position and velocity by Euler steps, attitude by one normalised product. */
  ghost predicate Propagates(sqrt: real -> real, x: seq<real>, x': seq<real>, dt: real, accel: Vec3, gyro: Vec3)
    requires |x| == N && |x'| == N
  {
    var R, v := Rotation(Attitude(x)), VecAt(x, IU);
    var a, w := Sub3(accel, VecAt(x, IBAX)), Sub3(gyro, VecAt(x, IBGX));
    && VecAt(x', IX) == AddScaled3(VecAt(x, IX), dt, Apply3(R, v))
    && VecAt(x', IU) == AddScaled3(v, dt, TrueAccel(a, w, v, R))
    && Attitude(x') == Propagated(sqrt, Attitude(x), w.x, w.y, w.z, dt)
    && VecAt(x', IBAX) == VecAt(x, IBAX)
    && VecAt(x', IBGX) == VecAt(x, IBGX)
  }

  /** The effect of a measurement of the attitude: update or skip, then the quaternion renormalised. */
  ghost predicate Fused(sqrt: real -> real, x: seq<real>, x': seq<real>, P: Mat, P': Mat,
                        H: Mat, innov: seq<real>, R: seq<real>, applied: bool, Sinv: Mat)
    requires |x| == |x'| == P.rows == P.cols == P'.rows == P'.cols == H.cols == N && |innov| == |R| == H.rows
  {
    var S := Innovation(P, H, R);
    if applied then
      && Sinv.rows == Sinv.cols == |R| && Mul(Sinv, S) == Id(|R|)
      && var K := Gain(P, H, Sinv);
         && P' == Constrained(BeforeClamp(P, H, R, K))
         && Renormalized(sqrt, Corrected(x, K, innov), x')
    else
      NoPivot(S) && P' == P && Renormalized(sqrt, x, x')
  }

  ghost predicate Renormalized(sqrt: real -> real, x: seq<real>, x': seq<real>)
    requires |x| == |x'| == N
  {
    && Attitude(x') == QuatNorm(sqrt, Attitude(x))
    && forall i :: 0 <= i < N && !(IQ0 <= i < IBAX) ==> x'[i] == x[i]
  }

  // ---- the transition matrix ----

  /** The partials of R(q)v·dt by the quaternion components, as the filter enters them. */
  function PosAttBlock(q: Quat, vel: Vec3, dt: real): (b: seq<seq<real>>)
    ensures |b| == 3 && forall r :: 0 <= r < 3 ==> |b[r]| == 4
  {
    [PosAttRow0(q.w, q.x, q.y, q.z, vel.x, vel.y, vel.z, dt),
     PosAttRow1(q.w, q.x, q.y, q.z, vel.x, vel.y, vel.z, dt),
     PosAttRow2(q.w, q.x, q.y, q.z, vel.x, vel.y, vel.z, dt)]
  }

  /** The transition of the quaternion by itself at corrected rate g, with h = dt/2. */
  function AttBlock(g: Vec3, h: real): (b: seq<seq<real>>)
    ensures |b| == 4 && forall r :: 0 <= r < 4 ==> |b[r]| == 4
  {
    [[1.0, -g.x * h, -g.y * h, -g.z * h],
     [g.x * h, 1.0, g.z * h, -g.y * h],
     [g.y * h, -g.z * h, 1.0, g.x * h],
     [g.z * h, g.y * h, -g.x * h, 1.0]]
  }

  /** The transition of the quaternion by the gyro bias. */
  function AttBiasBlock(q: Quat, h: real): (b: seq<seq<real>>)
    ensures |b| == 4 && forall r :: 0 <= r < 4 ==> |b[r]| == 3
  {
    [[h * q.x, h * q.y, h * q.z],
     [-h * q.w, h * q.z, -h * q.y],
     [-h * q.z, -h * q.w, h * q.x],
     [h * q.y, -h * q.x, -h * q.w]]
  }

  function RotBlock(R: Mat3, dt: real): (b: seq<seq<real>>)
    ensures |b| == 3 && forall r :: 0 <= r < 3 ==> |b[r]| == 3
  {
    [[R.r00 * dt, R.r01 * dt, R.r02 * dt], [R.r10 * dt, R.r11 * dt, R.r12 * dt], [R.r20 * dt, R.r21 * dt, R.r22 * dt]]
  }

  type Block = seq<seq<real>>

  predicate BlockDims(b: Block, r: nat, c: nat) {
    |b| == r && forall i :: 0 <= i < r ==> |b[i]| == c
  }

  /** An entry of the transition matrix: the four blocks, −dt from velocity to accelerometer bias, else identity. */
  function BlockEntry(rot: Block, posAtt: Block, att: Block, attBias: Block, dt: real, i: nat, j: nat): real
    requires BlockDims(rot, 3, 3) && BlockDims(posAtt, 3, 4) && BlockDims(att, 4, 4) && BlockDims(attBias, 4, 3)
    requires i < N && j < N
  {
    if i < IU && IU <= j < IQ0 then rot[i][j - IU]
    else if i < IU && IQ0 <= j < IBAX then posAtt[i][j - IQ0]
    else if IU <= i < IQ0 && j == i + 7 then -dt
    else if IQ0 <= i < IBAX && IQ0 <= j < IBAX then att[i - IQ0][j - IQ0]
    else if IQ0 <= i < IBAX && IBGX <= j then attBias[i - IQ0][j - IBGX]
    else if i == j then 1.0
    else 0.0
  }

  function BlockMatrix(rot: Block, posAtt: Block, att: Block, attBias: Block, dt: real): (F: Mat)
    requires BlockDims(rot, 3, 3) && BlockDims(posAtt, 3, 4) && BlockDims(att, 4, 4) && BlockDims(attBias, 4, 3)
    ensures F.rows == F.cols == N
    ensures forall i, j :: 0 <= i < N && 0 <= j < N ==> F.at[i][j] == BlockEntry(rot, posAtt, att, attBias, dt, i, j)
  {
    Matrix(N, N, seq(N, i requires 0 <= i < N =>
      seq(N, j requires 0 <= j < N => BlockEntry(rot, posAtt, att, attBias, dt, i, j))))
  }

  function Transition(x: seq<real>, g: Vec3, dt: real): (F: Mat)
    requires |x| == N
    ensures F.rows == F.cols == N
  {
    BlockMatrix(RotBlock(Rotation(Attitude(x)), dt), PosAttBlock(Attitude(x), VecAt(x, IU), dt),
                AttBlock(g, 0.5 * dt), AttBiasBlock(Attitude(x), 0.5 * dt), dt)
  }

  /** Writes a block of a matrix. */
  method SetBlock(F: array2<real>, i0: nat, j0: nat, b: seq<seq<real>>, c: nat)
    requires i0 + |b| <= F.Length0 && j0 + c <= F.Length1
    requires forall r :: 0 <= r < |b| ==> |b[r]| == c
    modifies F
    ensures forall i, j :: 0 <= i < F.Length0 && 0 <= j < F.Length1 ==>
              F[i, j] == if i0 <= i < i0 + |b| && j0 <= j < j0 + c then b[i - i0][j - j0] else old(F[i, j])
  {
    for r := 0 to |b|
      invariant forall i, j :: 0 <= i < F.Length0 && 0 <= j < F.Length1 ==>
                  F[i, j] == if i0 <= i < i0 + r && j0 <= j < j0 + c then b[i - i0][j - j0] else old(F[i, j])
    {
      for k := 0 to c
        invariant forall i, j :: 0 <= i < F.Length0 && 0 <= j < F.Length1 ==>
                    F[i, j] == if (i0 <= i < i0 + r && j0 <= j < j0 + c) || (i == i0 + r && j0 <= j < j0 + k)
                               then b[i - i0][j - j0] else old(F[i, j])
      {
        F[i0 + r, j0 + k] := b[r][k];
      }
    }
  }

  method SetIdentity(F: array2<real>)
    requires F.Length0 == F.Length1
    modifies F
    ensures forall i, j :: 0 <= i < F.Length0 && 0 <= j < F.Length1 ==> F[i, j] == if i == j then 1.0 else 0.0
  {
    Clear(F);
    for i := 0 to F.Length0
      invariant forall i', j :: 0 <= i' < F.Length0 && 0 <= j < F.Length1 ==> F[i', j] == if i' == j < i then 1.0 else 0.0
    {
      F[i, i] := 1.0;
    }
  }

  method FillTransition(F: array2<real>, rot: Block, posAtt: Block, att: Block, attBias: Block, dt: real)
    requires F.Length0 == F.Length1 == N
    requires BlockDims(rot, 3, 3) && BlockDims(posAtt, 3, 4) && BlockDims(att, 4, 4) && BlockDims(attBias, 4, 3)
    modifies F
    ensures Of(F) == BlockMatrix(rot, posAtt, att, attBias, dt)
  {
    SetIdentity(F);
    SetBlock(F, IX, IU, rot, 3);
    SetBlock(F, IX, IQ0, posAtt, 4);
    SetBlock(F, IQ0, IQ0, att, 4);
    label Blocks:
    for k := 0 to 3
      invariant forall i, j :: 0 <= i < N && 0 <= j < N ==>
                  F[i, j] == if IU <= i < IU + k && j == i + 7 then -dt else old@Blocks(F[i, j])
    {
      F[IU + k, IBAX + k] := -dt;
    }
    SetBlock(F, IQ0, IBGX, attBias, 3);
    Ext(Of(F), BlockMatrix(rot, posAtt, att, attBias, dt));
  }

  method FillDiagonal(P: array2<real>, d: seq<real>)
    requires P.Length0 == P.Length1 == |d|
    modifies P
    ensures Of(P) == Diag(d)
  {
    Clear(P);
    for i := 0 to |d|
      invariant forall a, b :: 0 <= a < |d| && 0 <= b < |d| ==> P[a, b] == if a == b < i then d[a] else 0.0
    {
      P[i, i] := d[i];
    }
    Ext(Of(P), Diag(d));
  }

  // ---- variances ----

  method Symmetrize(P: array2<real>)
    requires P.Length0 == P.Length1
    modifies P
    ensures Of(P) == Averaged(old(Of(P)))
  {
    for i := 0 to P.Length0
      invariant forall a, b :: 0 <= a < P.Length0 && 0 <= b < P.Length0 ==>
                  P[a, b] == if a != b && a < i && b < i then 0.5 * (old(P[a, b]) + old(P[b, a])) else old(P[a, b])
    {
      for j := 0 to i
        invariant forall a, b :: 0 <= a < P.Length0 && 0 <= b < P.Length0 ==>
                    P[a, b] == if a != b && ((a < i && b < i) || (a == i && b < j) || (b == i && a < j))
                               then 0.5 * (old(P[a, b]) + old(P[b, a])) else old(P[a, b])
      {
        var avg := 0.5 * (P[i, j] + P[j, i]);
        P[i, j] := avg;
        P[j, i] := avg;
      }
    }
    Ext(Of(P), Averaged(old(Of(P))));
  }

  /** The floors and ceilings of the state groups lo..hi. */
  method ClampGroup(P: array2<real>, lo: nat, hi: nat)
    requires P.Length0 == P.Length1 == N && lo <= hi < N
    modifies P
    ensures forall i, j :: 0 <= i < N && 0 <= j < N ==>
              P[i, j] == if i == j && lo <= i <= hi then ClampVariance(i, old(P[i, i])) else old(P[i, j])
  {
    for i := lo to hi + 1
      invariant forall a, b :: 0 <= a < N && 0 <= b < N ==>
                  P[a, b] == if a == b && lo <= a < i then ClampVariance(a, old(P[a, a])) else old(P[a, b])
    {
      if HasFloor(i) && P[i, i] < P_MIN { P[i, i] := P_MIN; }
      if HasCeiling(i) && P[i, i] > Ceiling(i) { P[i, i] := Ceiling(i); }
    }
  }

  method ConstrainVariances(P: array2<real>)
    requires P.Length0 == P.Length1 == N
    modifies P
    ensures Of(P) == Constrained(old(Of(P)))
  {
    ClampGroup(P, 6, 9);
    ClampGroup(P, 10, 12);
    ClampGroup(P, 13, 15);
    Ext(Of(P), Constrained(old(Of(P))));
  }

  class EKF {
    const sqrt: real -> real
    var initialized: bool
    var innovNorm: real
    var vibeFilt: real
    const x: array<real>
    const P: array2<real>
    const Q: array2<real>
    const F: array2<real>
    const wA: array2<real>
    const wB: array2<real>

    ghost predicate Valid()
      reads this, x, P, Q, F, wA, wB
    {
      && IsSqrt(sqrt)
      && x.Length == N
      && P.Length0 == P.Length1 == N && Q.Length0 == Q.Length1 == N && F.Length0 == F.Length1 == N
      && wA.Length0 == wA.Length1 == N && wB.Length0 == wB.Length1 == N
      && P != Q && P != F && P != wA && P != wB && Q != F && Q != wA && Q != wB && F != wA && F != wB && wA != wB
    }

    /** The covariance is symmetric, and the process noise a covariance. */
    ghost predicate Sound()
      requires Valid()
      reads this, x, P, Q, F, wA, wB
    {
      Symmetric(Of(P)) && Symmetric(Of(Q)) && Psd(Of(Q))
    }

    constructor (sqrt: real -> real)
      requires IsSqrt(sqrt)
      ensures Valid() && fresh(x) && fresh(P) && fresh(Q) && fresh(F) && fresh(wA) && fresh(wB)
      ensures !initialized && vibeFilt == 0.0 && this.sqrt == sqrt
    {
      var x := new real[N];
      var P := new real[N, N];
      var Q := new real[N, N];
      var F := new real[N, N];
      var wA := new real[N, N];
      var wB := new real[N, N];
      this.sqrt, initialized, innovNorm, vibeFilt := sqrt, false, 0.0, 0.0;
      this.x, this.P, this.Q, this.F, this.wA, this.wB := x, P, Q, F, wA, wB;
    }

    method Init()
      requires Valid()
      modifies this, x, P, Q
      ensures Valid() && Sound() && Psd(Of(P)) && initialized && vibeFilt == 0.0
      ensures Of(P) == P0() && Of(Q) == Q0()
      ensures Attitude(x[..]) == Quat(1.0, 0.0, 0.0, 0.0)
      ensures forall i :: 0 <= i < N && i != IQ0 ==> x[i] == 0.0
    {
      initialized := false;
      innovNorm, vibeFilt := 0.0, 0.0;
      for i := 0 to N
        invariant vibeFilt == 0.0 && forall i' :: 0 <= i' < i ==> x[i'] == 0.0
      {
        x[i] := 0.0;
      }
      x[IQ0] := 1.0;
      FillDiagonal(P, seq(N, i requires 0 <= i < N => InitialVariance(i)));
      FillDiagonal(Q, seq(N, i requires 0 <= i < N => ProcessVariance(i)));
      InitialCovariance();
      initialized := true;
    }

    /** The transition matrix from the state just propagated. */
    method BuildF(dt: real, gyro: Vec3)
      requires Valid()
      modifies F
      ensures Valid() && Of(F) == Transition(x[..], gyro, dt)
    {
      var q, v := Quat(x[IQ0], x[IQ0 + 1], x[IQ0 + 2], x[IQ0 + 3]), Vec3(x[IU], x[IU + 1], x[IU + 2]);
      FillTransition(F, RotBlock(Rotation(q), dt), PosAttBlock(q, v, dt), AttBlock(gyro, 0.5 * dt), AttBiasBlock(q, 0.5 * dt), dt);
    }

    method SetVec(i: nat, v: Vec3)
      requires i + 3 <= x.Length
      modifies x
      ensures VecAt(x[..], i) == v
      ensures forall k :: 0 <= k < x.Length && !(i <= k < i + 3) ==> x[k] == old(x[k])
    {
      x[i], x[i + 1], x[i + 2] := v.x, v.y, v.z;
    }

    method SetQuat(q: Quat)
      requires x.Length == N
      modifies x
      ensures Attitude(x[..]) == q
      ensures forall k :: 0 <= k < N && !(IQ0 <= k < IBAX) ==> x[k] == old(x[k])
    {
      x[IQ0], x[IQ0 + 1], x[IQ0 + 2], x[IQ0 + 3] := q.w, q.x, q.y, q.z;
    }

    /** The strapdown step on the state vector. */
    method Propagate(dt: real, a: Vec3, w: Vec3)
      requires Valid()
      modifies x
      ensures Valid()
      ensures var s, s' := old(x[..]), x[..];
              var R, v := Rotation(Attitude(s)), VecAt(s, IU);
              && VecAt(s', IX) == AddScaled3(VecAt(s, IX), dt, Apply3(R, v))
              && VecAt(s', IU) == AddScaled3(v, dt, TrueAccel(a, w, v, R))
              && Attitude(s') == Propagated(sqrt, Attitude(s), w.x, w.y, w.z, dt)
              && VecAt(s', IBAX) == VecAt(s, IBAX)
              && VecAt(s', IBGX) == VecAt(s, IBGX)
    {
      var pos, v, q := VecAt(x[..], IX), VecAt(x[..], IU), Attitude(x[..]);
      var R := Rotation(q);
      SetVec(IX, AddScaled3(pos, dt, Apply3(R, v)));
      SetVec(IU, AddScaled3(v, dt, TrueAccel(a, w, v, R)));
      SetQuat(Propagated(sqrt, q, w.x, w.y, w.z, dt));
    }

    /** P = F P Fᵀ + Q over the scratch matrices. */
    method PropagateCovariance()
      requires Valid()
      modifies P, wA, wB
      ensures Of(P) == Predicted(Of(F), old(Of(P)), Of(Q))
    {
      MatMul(F, P, wA);
      MatTrans(F, wB);
      MatMul(wA, wB, P);
      MatAdd(P, Q, P);
    }

    method Predict(dt: real, accel: Vec3, gyro: Vec3)
      requires Valid()
      modifies x, P, F, wA, wB
      ensures Valid()
      ensures !initialized ==> unchanged(x) && unchanged(P)
      ensures initialized ==>
                && Propagates(sqrt, old(x[..]), x[..], dt, accel, gyro)
                && Norm2(Attitude(x[..])) == 1.0
                && Of(P) == Predicted(Transition(x[..], Sub3(gyro, VecAt(x[..], IBGX)), dt), old(Of(P)), Of(Q))
      ensures old(Sound()) ==> Sound()
      ensures old(Sound() && Psd(Of(P))) ==> Psd(Of(P))
    {
      if !initialized { return; }
      var a, w := Sub3(accel, VecAt(x[..], IBAX)), Sub3(gyro, VecAt(x[..], IBGX));
      PropagationIsUnit(sqrt, Attitude(x[..]), w.x, w.y, w.z, dt);
      Propagate(dt, a, w);
      BuildF(dt, w);
      PropagateCovariance();
      if old(Sound()) {
        PredictedKeeps(Of(F), old(Of(P)), Of(Q));
      }
    }

    /** PHᵀ and S = H(PHᵀ) + diag(R). */
    method InnovationOf(H: array2<real>, R: seq<real>) returns (PHt: array2<real>, S: array2<real>)
      requires Valid() && H.Length1 == N && H.Length0 == |R|
      ensures fresh(PHt) && fresh(S) && PHt != S && S.Length0 == S.Length1 == |R|
      ensures Of(PHt) == Mul(Of(P), Tr(Of(H))) && Of(S) == Innovation(Of(P), Of(H), R)
    {
      PHt := new real[N, |R|];
      MatMulTransposed(P, H, PHt);
      S := new real[|R|, |R|];
      MatMulDense(H, PHt, S);
      AddDiagonal(S, R);
    }

    /** S⁻¹ and K = PHᵀS⁻¹, or no gain when S has no pivot. */
    method ComputeGain(H: array2<real>, R: seq<real>) returns (ok: bool, K: array2<real>, ghost Sinv: Mat)
      requires Valid() && H.Length1 == N && H.Length0 == |R|
      ensures fresh(K) && K.Length0 == N && K.Length1 == |R|
      ensures var S := Innovation(Of(P), Of(H), R);
              if ok
              then Sinv.rows == Sinv.cols == |R| && Mul(Sinv, S) == Id(|R|) && Mul(S, Sinv) == Id(|R|)
                   && Of(K) == Gain(Of(P), Of(H), Sinv)
              else NoPivot(S)
      ensures Psd(Of(P)) && Noisy(R) ==> ok
    {
      var PHt, S := InnovationOf(H, R);
      K := new real[N, |R|];
      var Si;
      ok, Si := Invert(S);
      Sinv := Of(Si);
      if Psd(Of(P)) && Noisy(R) {
        NoiseGivesPivots(Of(P), Of(H), R);
      }
      if !ok { return; }
      MatMulDense(PHt, Si, K);
    }

    /** x[i] += K[i]·innov. */
    method CorrectEntry(K: array2<real>, innov: seq<real>, i: nat)
      requires x.Length == N && K.Length0 == N && K.Length1 == |innov| && i < N
      modifies x
      ensures x[i] == old(x[i]) + ColDot(Of(K).at[i], Tr(Row(innov)), 0, |innov|)
      ensures forall k :: 0 <= k < N && k != i ==> x[k] == old(x[k])
    {
      ghost var u, V := Of(K).at[i], Tr(Row(innov));
      for j := 0 to |innov|
        invariant forall k :: 0 <= k < N && k != i ==> x[k] == old(x[k])
        invariant x[i] == old(x[i]) + ColDot(u, V, 0, j)
      {
        assert V.at[j][0] == innov[j];
        x[i] := x[i] + K[i, j] * innov[j];
      }
    }

    method ApplyInnovation(K: array2<real>, innov: seq<real>)
      requires x.Length == N && K.Length0 == N && K.Length1 == |innov|
      modifies x
      ensures x[..] == Corrected(old(x[..]), Of(K), innov)
    {
      ghost var target := Corrected(x[..], Of(K), innov);
      for i := 0 to N
        invariant forall k :: 0 <= k < N ==> x[k] == if k < i then target[k] else old(x[k])
      {
        CorrectEntry(K, innov, i);
      }
    }

    method JosephUpdate(H: array2<real>, R: seq<real>, K: array2<real>)
      requires Valid() && H.Length1 == N && H.Length0 == |R|
      requires K.Length0 == N && K.Length1 == |R|
      requires H != P && H != wA && H != wB && K != P && K != wA && K != wB
      modifies P, wA, wB
      ensures Of(P) == Constrained(BeforeClamp(old(Of(P)), Of(H), R, Of(K)))
    {
      ghost var P0 := Of(P);
      IdentityMinusProduct(K, H, wA);
      MatMul(wA, P, wB);
      MatMulTransposed(wB, wA, P);
      AddWeightedOuter(P, K, R);
      assert Of(P) == Joseph(P0, Of(H), R, Of(K));
      Symmetrize(P);
      ConstrainVariances(P);
    }

    /**
     The generic measurement update: skipped with the filter untouched when the innovation covariance
     has no pivot, else the gain of its two-sided inverse, applied to state and covariance.
     */
    method Update(H: array2<real>, R: seq<real>, innov: seq<real>) returns (ghost applied: bool, ghost Sinv: Mat)
      requires Valid() && H.Length1 == N && H.Length0 == |R| == |innov|
      requires H != P && H != wA && H != wB
      modifies x, P, wA, wB
      ensures Valid()
      ensures var S := Innovation(old(Of(P)), old(Of(H)), R);
              if applied
              then Sinv.rows == Sinv.cols == |R| && Mul(Sinv, S) == Id(|R|) && Mul(S, Sinv) == Id(|R|)
              else NoPivot(S)
      ensures applied ==>
                var K := Gain(old(Of(P)), old(Of(H)), Sinv);
                && x[..] == Corrected(old(x[..]), K, innov)
                && Of(P) == Constrained(BeforeClamp(old(Of(P)), old(Of(H)), R, K))
      ensures applied ==> MovesBy(old(x[..]), x[..], old(Of(P)), old(Of(H)), R, innov, Mul(Sinv, ColumnOf(innov)))
      ensures !applied ==> unchanged(x) && unchanged(P)
      ensures old(Psd(Of(P))) && Noisy(R) ==> applied
      ensures old(Sound()) ==> Sound()
      ensures old(Sound() && Psd(Of(P))) && (forall k :: 0 <= k < |R| ==> R[k] >= 0.0)
              && (applied ==> !CeilingFires(BeforeClamp(old(Of(P)), old(Of(H)), R, Gain(old(Of(P)), old(Of(H)), Sinv))))
              ==> Psd(Of(P))
    {
      var ok, K;
      ok, K, Sinv := ComputeGain(H, R);
      applied := ok;
      if !ok { return; }
      ApplyInnovation(K, innov);
      CorrectionMoves(old(x[..]), x[..], old(Of(P)), old(Of(H)), R, innov, Sinv);
      JosephUpdate(H, R, K);
      if old(Sound()) {
        MeasurementKeeps(old(Of(P)), Of(H), R, Of(K));
      }
    }

    /** The quaternion read off the state, normalised in place. */
    method NormalizeQuat()
      requires Valid()
      modifies x
      ensures Renormalized(sqrt, old(x[..]), x[..]) && Norm2(Attitude(x[..])) == 1.0
    {
      QuatNormIsUnit(sqrt, Attitude(x[..]));
      SetQuat(QuatNorm(sqrt, Attitude(x[..])));
    }

    /** The four-row update with the quaternion's selector, then renormalisation. */
    method FuseQuaternion(innov: seq<real>, R: seq<real>) returns (ghost applied: bool, ghost Sinv: Mat)
      requires Valid() && |innov| == |R| == 4
      modifies x, P, wA, wB
      ensures Valid() && Norm2(Attitude(x[..])) == 1.0
      ensures Fused(sqrt, old(x[..]), x[..], old(Of(P)), Of(P), AttitudeSelector(), innov, R, applied, Sinv)
      ensures old(Sound()) ==> Sound()
      ensures old(Psd(Of(P))) && Noisy(R) ==> applied
    {
      var H := AttitudeSelectorArray();
      applied, Sinv := Update(H, R, innov);
      NormalizeQuat();
    }

    /** An attitude measurement, taken on the nearer of the two antipodal quaternions. */
    method UpdateQuaternion(measured: Quat, rVar: real) returns (ghost applied: bool, ghost Sinv: Mat)
      requires Valid()
      modifies this`innovNorm, x, P, wA, wB
      ensures Valid()
      ensures !initialized ==> unchanged(this) && unchanged(x) && unchanged(P)
      ensures initialized ==>
                && Norm2(Attitude(x[..])) == 1.0
                && innovNorm == Smoothed(old(innovNorm), Norm2(QuatInnovation(measured, Attitude(old(x[..])))))
      ensures initialized ==>
                var d := QuatInnovation(measured, Attitude(old(x[..])));
                Fused(sqrt, old(x[..]), x[..], old(Of(P)), Of(P), AttitudeSelector(), Components(d), QuatNoise(rVar),
                      applied, Sinv)
      ensures old(Sound()) ==> Sound()
      ensures initialized && old(Psd(Of(P))) && Noisy(QuatNoise(rVar)) ==> applied
    {
      applied, Sinv := false, Id(4);
      if !initialized { return; }
      var d := QuatInnovation(measured, Attitude(x[..]));
      ghost var s, C := x[..], Of(P);
      innovNorm := Smoothed(innovNorm, Norm2(d));
      assert x[..] == s && Of(P) == C;
      applied, Sinv := FuseQuaternion(Components(d), QuatNoise(rVar));
    }

    /** The three-row update with the linearised gravity reading, then renormalisation. */
    method FuseGravity(H: array2<real>, innov: seq<real>, R: seq<real>) returns (ghost applied: bool, ghost Sinv: Mat)
      requires Valid() && |innov| == |R| == H.Length0 == 3 && H.Length1 == N && H != P && H != wA && H != wB
      modifies x, P, wA, wB
      ensures Valid() && Norm2(Attitude(x[..])) == 1.0
      ensures Fused(sqrt, old(x[..]), x[..], old(Of(P)), Of(P), old(Of(H)), innov, R, applied, Sinv)
      ensures old(Sound()) ==> Sound()
      ensures old(Psd(Of(P))) && Noisy(R) ==> applied
    {
      applied, Sinv := Update(H, R, innov);
      NormalizeQuat();
    }

    /**
     The accelerometer as a measurement of gravity: nothing out of range; else the vibration filter moves
     on, and an innovation that passes the gate is fused.
     */
    method UpdateGravity(accel: Vec3, rVar: real) returns (ghost applied: bool, ghost Sinv: Mat)
      requires Valid()
      modifies this`vibeFilt, x, P, wA, wB
      ensures Valid()
      ensures !initialized || OutOfRange(Length(sqrt, accel)) ==> unchanged(this) && unchanged(x) && unchanged(P)
      ensures initialized && !OutOfRange(Length(sqrt, accel)) ==>
                var noise := Noise(rVar, vibeFilt);
                var H, innov := GravityH(Attitude(old(x[..]))), GravityInnovation(old(x[..]), accel);
                && vibeFilt == Vibration(old(vibeFilt), Length(sqrt, accel))
                && if Passes(Innovation(old(Of(P)), H, Noise3(noise)), innov)
                   then Fused(sqrt, old(x[..]), x[..], old(Of(P)), Of(P), H, innov, Noise3(noise), applied, Sinv)
                   else !applied && unchanged(x) && unchanged(P)
      ensures old(Sound()) ==> Sound()
    {
      applied, Sinv := false, Id(3);
      if !initialized { return; }
      var norm := Length(sqrt, accel);
      if OutOfRange(norm) { return; }
      vibeFilt := Vibration(vibeFilt, norm);
      var noise, q, innov := Noise(rVar, vibeFilt), Attitude(x[..]), GravityInnovation(x[..], accel);
      var H := GravityArray(q);
      var open := GravityGate(P, H, q, noise, innov);
      if !open { return; }
      applied, Sinv := FuseGravity(H, innov, Noise3(noise));
    }
  }

  function Length(sqrt: real -> real, v: Vec3): real {
    sqrt(v.x * v.x + v.y * v.y + v.z * v.z)
  }

  /** The reading less its prediction. */
  function GravityInnovation(x: seq<real>, accel: Vec3): (innov: seq<real>)
    requires |x| == N
    ensures |innov| == 3
  {
    [accel.x - ReadingOf(x, 0), accel.y - ReadingOf(x, 1), accel.z - ReadingOf(x, 2)]
  }

  /** The exponentially smoothed innovation magnitude. */
  function Smoothed(prev: real, magnitude: real): real {
    0.9 * prev + (1.0 - 0.9) * magnitude
  }

  method AttitudeSelectorArray() returns (H: array2<real>)
    ensures fresh(H) && Of(H) == AttitudeSelector()
  {
    H := new real[4, N];
    Clear(H);
    for r := 0 to 4
      invariant forall i, j :: 0 <= i < 4 && 0 <= j < N ==> H[i, j] == if i < r && j == IQ0 + i then 1.0 else 0.0
    {
      H[r, IQ0 + r] := 1.0;
    }
    Ext(Of(H), AttitudeSelector());
  }

  /** The measured quaternion, negated if it lies on the far side, less the prediction. */
  function QuatInnovation(measured: Quat, pred: Quat): Quat {
    var m := if QuatDot(measured, pred) < 0.0
             then Quat(-measured.w, -measured.x, -measured.y, -measured.z) else measured;
    Quat(m.w - pred.w, m.x - pred.x, m.y - pred.y, m.z - pred.z)
  }

  function Components(q: Quat): (c: seq<real>)
    ensures |c| == 4
  {
    [q.w, q.x, q.y, q.z]
  }

  function QuatNoise(rVar: real): (R: seq<real>)
    ensures |R| == 4
  {
    [rVar, rVar, rVar, rVar]
  }

  lemma QuatNoiseNoisy(rVar: real)
    ensures Noisy(QuatNoise(rVar)) <==> rVar >= 4.0 * TINY
  {
    assert QuatNoise(rVar)[0] == rVar;
  }

  /** The measurement matrix that reads the quaternion. */
  function AttitudeSelector(): (H: Mat)
    ensures H.rows == 4 && H.cols == N
    ensures forall i, j :: 0 <= i < 4 && 0 <= j < N ==> H.at[i][j] == if j == IQ0 + i then 1.0 else 0.0
  {
    Matrix(4, N, seq(4, i requires 0 <= i < 4 => seq(N, j => if j == IQ0 + i then 1.0 else 0.0)))
  }
}
