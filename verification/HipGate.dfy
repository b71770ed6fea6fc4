/** The hip safety gate: soft limits, clamps and frame maps, and what they promise on every path. */
module HipGate {
  import opened Basics
  import opened Products

  const ANGLE_MIN := -1.45
  const ANGLE_MAX := 0.44
  const ANGLE_MARGIN := 0.175
  const VEL_LIMIT := 20.0
  const VEL_MARGIN := 4.0
  const TORQUE_LIMIT := 12.0
  const RATIO_MAX := 2048.0
  const SPEED_DPS_MAX := 24000.0
  const PI := 3.14159265

  predicate IsHip(id: nat) {
    1 <= id <= 4
  }

  /** Multiplication by the hip's mirror sign: hips 1 and 3 are mirrored. */
  function Flip(id: nat, x: real): real
    requires IsHip(id)
  {
    if id == 1 || id == 3 then -x else x
  }

  function Offset(id: nat): real
    requires IsHip(id)
  {
    match id
    case 1 => 3.33
    case 2 => 3.22
    case 3 => 3.18
    case _ => 3.74
  }

  function ToRobotFrame(id: nat, raw: real): real
    requires IsHip(id)
  {
    Flip(id, raw - Offset(id))
  }

  function ToRaw(id: nat, angle: real): real
    requires IsHip(id)
  {
    Offset(id) + Flip(id, angle)
  }

  /** The frame maps are inverse to each other. */
  lemma FramesInverse(id: nat, x: real)
    requires IsHip(id)
    ensures ToRobotFrame(id, ToRaw(id, x)) == x && ToRaw(id, ToRobotFrame(id, x)) == x
  {
  }

  /** Conversion to an integer, toward zero. */
  function Trunc(x: real): int {
    if x >= 0.0 then x.Floor else -((-x).Floor)
  }

  /** The scale for a quantity of the given sign: one inside, down to zero at the bound it pushes toward. */
  function LimitScale(value: real, lo: real, hi: real, margin: real, qty: real): real
    requires margin > 0.0
  {
    if qty > 0.0 then Clamp((hi - value) / margin, 0.0, 1.0)
    else if qty < 0.0 then Clamp((value - lo) / margin, 0.0, 1.0)
    else 1.0
  }

  /** Decoded feedback of a hip. */
  datatype Feedback = Feedback(valid: bool, pos: real, vel: real)

  function AngleScale(f: Feedback, qty: real): real {
    LimitScale(f.pos, ANGLE_MIN, ANGLE_MAX, ANGLE_MARGIN, qty)
  }

  function SpeedScale(f: Feedback, qty: real): real {
    LimitScale(f.vel, -VEL_LIMIT, VEL_LIMIT, VEL_MARGIN, qty)
  }

  function SoftScale(f: Feedback, qty: real): real {
    AngleScale(f, qty) * SpeedScale(f, qty)
  }

  // ---- torque ----

  function ScaledTorque(torque: real, scale: real): real {
    Clamp(torque * scale, -TORQUE_LIMIT, TORQUE_LIMIT)
  }

  /** The gated torque of a request, in the robot frame. */
  function GatedTorque(torque: real, f: Feedback): real {
    if f.valid then ScaledTorque(torque, SoftScale(f, torque)) else 0.0
  }

  /** The drive's integer for a value in its units, within its range. */
  function Ratio(x: real): int {
    Trunc(Clamp(x, -RATIO_MAX, RATIO_MAX))
  }

  /** The wire value of the single-motor command: sign, then scale, then the drive's range. */
  function TorqueRatio(id: nat, torque: real, f: Feedback, scale: real): int
    requires IsHip(id)
  {
    SingleRatio(id, GatedTorque(torque, f), scale)
  }

  function SingleRatio(id: nat, t: real, scale: real): int
    requires IsHip(id)
  {
    Ratio(Flip(id, t) * scale)
  }

  /** The wire value in the broadcast command: scale, then sign. */
  function BroadcastRatio(id: nat, torque: real, f: Feedback, scale: real): int
    requires IsHip(id)
  {
    FlippedRatio(id, GatedTorque(torque, f), scale)
  }

  function FlippedRatio(id: nat, t: real, scale: real): int
    requires IsHip(id)
  {
    Ratio(Flip(id, t * scale))
  }

  /** The raw path: the request is already in wire units. */
  function RawRatio(id: nat, ratio: int, f: Feedback): int
    requires IsHip(id)
  {
    Trunc(Flip(id, GatedRatio(ratio, f) as real))
  }

  /** A wire value seen in the robot frame. */
  function InRobotFrame(id: nat, wire: int): int
    requires IsHip(id)
  {
    if id == 1 || id == 3 then -wire else wire
  }

  // ---- the gate's promises ----

  lemma Quotient(x: real, m: real, q: real)
    requires m > 0.0 && q == x / m
    ensures (q <= 0.0 <==> x <= 0.0) && (q >= 1.0 <==> x >= m)
  {
    assert q * m == x;
    if q > 0.0 {
      Strict(0.0, q, m, 0.0, x);
    } else {
      Less(q, 0.0, m, x, 0.0);
    }
    if q >= 1.0 {
      Less(1.0, q, m, m, x);
    } else {
      Strict(q, 1.0, m, x, m);
    }
  }

  lemma LimitScaleRange(value: real, lo: real, hi: real, margin: real, qty: real)
    requires margin > 0.0
    ensures 0.0 <= LimitScale(value, lo, hi, margin, qty) <= 1.0
    ensures qty > 0.0 && value >= hi ==> LimitScale(value, lo, hi, margin, qty) == 0.0
    ensures qty < 0.0 && value <= lo ==> LimitScale(value, lo, hi, margin, qty) == 0.0
    ensures (qty > 0.0 ==> value <= hi - margin) && (qty < 0.0 ==> value >= lo + margin) ==>
              LimitScale(value, lo, hi, margin, qty) == 1.0
  {
    Quotient(hi - value, margin, (hi - value) / margin);
    Quotient(value - lo, margin, (value - lo) / margin);
  }

  /** The request pushes at or past an angle bound. */
  predicate AtAngleBound(f: Feedback, qty: real) {
    (qty > 0.0 && f.pos >= ANGLE_MAX) || (qty < 0.0 && f.pos <= ANGLE_MIN)
  }

  predicate AtSpeedBound(f: Feedback, qty: real) {
    (qty > 0.0 && f.vel >= VEL_LIMIT) || (qty < 0.0 && f.vel <= -VEL_LIMIT)
  }

  /** Far enough from every bound that the request pushes toward. */
  predicate Clear(f: Feedback, qty: real) {
    && (qty > 0.0 ==> f.pos <= ANGLE_MAX - ANGLE_MARGIN && f.vel <= VEL_LIMIT - VEL_MARGIN)
    && (qty < 0.0 ==> f.pos >= ANGLE_MIN + ANGLE_MARGIN && f.vel >= -VEL_LIMIT + VEL_MARGIN)
  }

  lemma SoftScaleRange(f: Feedback, qty: real)
    ensures 0.0 <= SoftScale(f, qty) <= 1.0
    ensures AtAngleBound(f, qty) || AtSpeedBound(f, qty) ==> SoftScale(f, qty) == 0.0
    ensures Clear(f, qty) ==> SoftScale(f, qty) == 1.0
  {
    LimitScaleRange(f.pos, ANGLE_MIN, ANGLE_MAX, ANGLE_MARGIN, qty);
    LimitScaleRange(f.vel, -VEL_LIMIT, VEL_LIMIT, VEL_MARGIN, qty);
    Unit(AngleScale(f, qty), SpeedScale(f, qty), SoftScale(f, qty));
  }

  /** x keeps the sign of the request and does not exceed it. */
  predicate Within(x: real, request: real) {
    (request >= 0.0 ==> 0.0 <= x <= request) && (request <= 0.0 ==> request <= x <= 0.0)
  }

  lemma ScaledWithin(q: real, s: real, p: real)
    requires 0.0 <= s <= 1.0 && p == q * s
    ensures Within(p, q)
  {
    if q >= 0.0 {
      Positive(q, s, p);
      Positive(q, 1.0 - s, q - p);
    } else {
      Positive(-q, s, -p);
      Positive(-q, 1.0 - s, p - q);
    }
  }

  lemma ClampWithin(x: real, request: real, limit: real)
    requires Within(x, request) && limit >= 0.0
    ensures Within(Clamp(x, -limit, limit), request) && -limit <= Clamp(x, -limit, limit) <= limit
  {
  }

  lemma TruncWithin(x: real)
    ensures Within(Trunc(x) as real, x) && Abs(x - Trunc(x) as real) < 1.0
    ensures Trunc(-x) == -Trunc(x)
  {
  }

  /** The gated torque keeps the request's sign and magnitude, the limit, and stops at every bound. */
  lemma GatedTorqueBounds(torque: real, f: Feedback)
    ensures Within(GatedTorque(torque, f), torque) && Abs(GatedTorque(torque, f)) <= TORQUE_LIMIT
    ensures !f.valid || AtAngleBound(f, torque) || AtSpeedBound(f, torque) ==> GatedTorque(torque, f) == 0.0
    ensures f.valid && Clear(f, torque) ==> GatedTorque(torque, f) == Clamp(torque, -TORQUE_LIMIT, TORQUE_LIMIT)
  {
    SoftScaleRange(f, torque);
    ScaledTorqueBounds(torque, SoftScale(f, torque));
  }

  lemma ScaledTorqueBounds(torque: real, s: real)
    requires 0.0 <= s <= 1.0
    ensures Within(ScaledTorque(torque, s), torque) && Abs(ScaledTorque(torque, s)) <= TORQUE_LIMIT
    ensures s == 0.0 ==> ScaledTorque(torque, s) == 0.0
    ensures s == 1.0 ==> ScaledTorque(torque, s) == Clamp(torque, -TORQUE_LIMIT, TORQUE_LIMIT)
  {
    ScaledWithin(torque, s, torque * s);
    ByZeroOrOne(torque, s, torque * s);
    ClampWithin(torque * s, torque, TORQUE_LIMIT);
  }

  lemma ByZeroOrOne(q: real, s: real, p: real)
    requires p == q * s
    ensures (s == 0.0 ==> p == 0.0) && (s == 1.0 ==> p == q)
  {
  }

  lemma RatioFlip(id: nat, x: real)
    requires IsHip(id)
    ensures InRobotFrame(id, Ratio(Flip(id, x))) == Ratio(x)
  {
    TruncWithin(Clamp(x, -RATIO_MAX, RATIO_MAX));
  }

  lemma FlipScaled(id: nat, t: real, scale: real, p: real)
    requires IsHip(id) && p == t * scale
    ensures Flip(id, t) * scale == Flip(id, p)
  {
    NegatedFactor(t, scale, p);
  }

  lemma NegatedFactor(t: real, scale: real, p: real)
    requires p == t * scale
    ensures -t * scale == -p
  {
  }

  /** Single-motor and broadcast frames carry the same integer. */
  lemma SameOnBothPaths(id: nat, torque: real, f: Feedback, scale: real)
    requires IsHip(id)
    ensures TorqueRatio(id, torque, f, scale) == BroadcastRatio(id, torque, f, scale)
  {
    SingleIsFlipped(id, GatedTorque(torque, f), scale);
  }

  lemma SingleIsFlipped(id: nat, t: real, scale: real)
    requires IsHip(id)
    ensures SingleRatio(id, t, scale) == FlippedRatio(id, t, scale)
  {
    FlipScaled(id, t, scale, t * scale);
  }

  /** The wire value in the robot frame is the gated torque in drive units, truncated within range. */
  lemma SingleInRobotFrame(id: nat, t: real, scale: real)
    requires IsHip(id)
    ensures InRobotFrame(id, SingleRatio(id, t, scale)) == Ratio(t * scale)
  {
    SingleIsFlipped(id, t, scale);
    RatioFlip(id, t * scale);
  }

  lemma WithinScaled(x: real, request: real, k: real, p: real, q: real)
    requires Within(x, request) && k > 0.0 && p == x * k && q == request * k
    ensures Within(p, q)
  {
    if request > 0.0 {
      Strict(0.0, request, k, 0.0, q);
      Less(0.0, x, k, 0.0, p);
      Less(x, request, k, p, q);
    } else if request < 0.0 {
      Strict(request, 0.0, k, q, 0.0);
      Less(request, x, k, q, p);
      Less(x, 0.0, k, p, 0.0);
    }
  }

  lemma RatioBounds(p: real, q: real)
    requires Within(p, q)
    ensures Within(Ratio(p) as real, q) && Abs(Ratio(p) as real) <= Abs(p) && Abs(Ratio(p) as real) <= RATIO_MAX
    ensures p == 0.0 ==> Ratio(p) == 0
  {
    TruncWithin(Clamp(p, -RATIO_MAX, RATIO_MAX));
  }

  /** For a gated torque t of a request: p is t in drive units, q the request, m the limit. */
  lemma SingleBounds(id: nat, t: real, torque: real, scale: real, q: real, m: real)
    requires IsHip(id) && Within(t, torque) && Abs(t) <= TORQUE_LIMIT && scale > 0.0
    requires q == torque * scale && m == TORQUE_LIMIT * scale
    ensures var r := InRobotFrame(id, SingleRatio(id, t, scale)) as real;
            Within(r, q) && Abs(r) <= m && Abs(r) <= RATIO_MAX && (t == 0.0 ==> r == 0.0)
  {
    var p := t * scale;
    SingleInRobotFrame(id, t, scale);
    WithinScaled(t, torque, scale, p, q);
    Bounded(t, TORQUE_LIMIT, scale, p, m);
    RatioBounds(p, q);
  }

  /**
   Every Nm torque command of a hip, in the robot frame: it keeps the request's sign, does not exceed
   the request or 12 Nm in drive units or the drive's range, and is zero without feedback and at or past
   every bound.
   */
  lemma TorqueCommandBounds(id: nat, torque: real, f: Feedback, scale: real)
    requires IsHip(id) && scale > 0.0
    ensures var r := InRobotFrame(id, TorqueRatio(id, torque, f, scale)) as real;
            && Within(r, torque * scale) && Abs(r) <= TORQUE_LIMIT * scale && Abs(r) <= RATIO_MAX
            && (!f.valid || AtAngleBound(f, torque) || AtSpeedBound(f, torque) ==> r == 0.0)
  {
    GatedTorqueBounds(torque, f);
    SingleBounds(id, GatedTorque(torque, f), torque, scale, torque * scale, TORQUE_LIMIT * scale);
  }

  /** The gated raw request, before the sign. */
  function GatedRatio(ratio: int, f: Feedback): int {
    if f.valid then ScaledRatio(ratio as real, SoftScale(f, ratio as real)) else 0
  }

  function ScaledRatio(q: real, scale: real): int {
    Ratio(q * scale)
  }

  lemma ScaledRatioBounds(q: real, s: real)
    requires 0.0 <= s <= 1.0
    ensures Within(ScaledRatio(q, s) as real, q) && Abs(ScaledRatio(q, s) as real) <= RATIO_MAX
    ensures s == 0.0 ==> ScaledRatio(q, s) == 0
  {
    ScaledWithin(q, s, q * s);
    ByZeroOrOne(q, s, q * s);
    RatioBounds(q * s, q);
  }

  lemma GatedRatioBounds(ratio: int, f: Feedback)
    ensures Within(GatedRatio(ratio, f) as real, ratio as real) && Abs(GatedRatio(ratio, f) as real) <= RATIO_MAX
    ensures !f.valid || AtAngleBound(f, ratio as real) || AtSpeedBound(f, ratio as real) ==> GatedRatio(ratio, f) == 0
  {
    SoftScaleRange(f, ratio as real);
    ScaledRatioBounds(ratio as real, SoftScale(f, ratio as real));
  }

  /** The raw command, in the robot frame, keeps the request's sign and magnitude and stops at every bound. */
  lemma RawCommandBounds(id: nat, ratio: int, f: Feedback)
    requires IsHip(id)
    ensures var (r, q) := (InRobotFrame(id, RawRatio(id, ratio, f)) as real, ratio as real);
            && Within(r, q) && Abs(r) <= RATIO_MAX
            && (!f.valid || AtAngleBound(f, q) || AtSpeedBound(f, q) ==> r == 0.0)
  {
    GatedRatioBounds(ratio, f);
    SignedInteger(id, GatedRatio(ratio, f));
  }

  lemma SignedInteger(id: nat, n: int)
    requires IsHip(id)
    ensures InRobotFrame(id, Trunc(Flip(id, n as real))) == n
  {
    TruncWithin(n as real);
  }

  // ---- the scale is not checked ----

  /** Some request at some feedback comes out with the opposite sign. */
  ghost predicate Reverses(scale: real) {
    exists id: nat, torque: real, f: Feedback :: IsHip(id) && Reversed(id, torque, f, scale)
  }

  predicate Reversed(id: nat, torque: real, f: Feedback, scale: real)
    requires IsHip(id)
  {
    var r := InRobotFrame(id, TorqueRatio(id, torque, f, scale));
    (r > 0 && torque < 0.0) || (r < 0 && torque > 0.0)
  }

  /** A scale reverses some command exactly when 12 Nm of it reach minus one drive unit. */
  lemma ReversesExactly(scale: real)
    ensures Reverses(scale) <==> TORQUE_LIMIT * scale <= -1.0
  {
    if TORQUE_LIMIT * scale <= -1.0 {
      var f := Feedback(true, 0.0, 0.0);
      GatedTorqueBounds(TORQUE_LIMIT, f);
      SingleInRobotFrame(2, GatedTorque(TORQUE_LIMIT, f), scale);
      assert Reversed(2, TORQUE_LIMIT, f, scale);
    } else {
      forall id: nat, torque: real, f: Feedback | IsHip(id) ensures !Reversed(id, torque, f, scale) {
        if scale > 0.0 {
          TorqueCommandBounds(id, torque, f, scale);
          KeepsSign(InRobotFrame(id, TorqueRatio(id, torque, f, scale)) as real, torque, scale);
        } else {
          TinyScale(id, torque, f, scale);
        }
      }
    }
  }

  lemma KeepsSign(r: real, torque: real, scale: real)
    requires scale > 0.0 && Within(r, torque * scale)
    ensures (torque > 0.0 ==> r >= 0.0) && (torque < 0.0 ==> r <= 0.0)
  {
    if torque > 0.0 {
      Less(0.0, torque, scale, 0.0, torque * scale);
    } else {
      Less(torque, 0.0, scale, torque * scale, 0.0);
    }
  }

  lemma TinyScale(id: nat, torque: real, f: Feedback, scale: real)
    requires IsHip(id) && scale <= 0.0 && TORQUE_LIMIT * scale > -1.0
    ensures InRobotFrame(id, TorqueRatio(id, torque, f, scale)) == 0
  {
    GatedTorqueBounds(torque, f);
    TinyRatio(id, GatedTorque(torque, f), scale);
  }

  lemma TinyRatio(id: nat, t: real, scale: real)
    requires IsHip(id) && Abs(t) <= TORQUE_LIMIT && scale <= 0.0 && TORQUE_LIMIT * scale > -1.0
    ensures InRobotFrame(id, SingleRatio(id, t, scale)) == 0
  {
    SingleInRobotFrame(id, t, scale);
    TinyProduct(t, scale, t * scale);
  }

  lemma TinyProduct(t: real, scale: real, p: real)
    requires Abs(t) <= TORQUE_LIMIT && scale <= 0.0 && TORQUE_LIMIT * scale > -1.0 && p == t * scale
    ensures Ratio(p) == 0
  {
    Negate(t, scale, p, t * -scale);
    Negate(TORQUE_LIMIT, scale, TORQUE_LIMIT * scale, TORQUE_LIMIT * -scale);
    Bounded(t, TORQUE_LIMIT, -scale, t * -scale, TORQUE_LIMIT * -scale);
  }

  // ---- velocity and position ----

  function ScaledVelocity(vel: real, scale: real): real {
    Clamp(vel * scale, -VEL_LIMIT, VEL_LIMIT)
  }

  function GatedVelocity(vel: real, f: Feedback): real {
    if f.valid then ScaledVelocity(vel, AngleScale(f, vel)) else 0.0
  }

  /** Wire units of the speed command, hundredths of a degree per second. */
  function SpeedWire(id: nat, vel: real, f: Feedback): int
    requires IsHip(id)
  {
    SpeedUnits(Flip(id, GatedVelocity(vel, f)))
  }

  function SpeedUnits(v: real): int {
    var dps := Clamp(v * (180.0 / PI), -SPEED_DPS_MAX, SPEED_DPS_MAX);
    Trunc(dps * 100.0)
  }

  const WIRE_PER_RAD := 18000.0 / PI

  /**
   The speed command, in the robot frame, keeps the request's sign and magnitude and 20 rad/s, and is
   zero without feedback and at or past the angle bound it pushes toward.
   */
  lemma VelocityCommandBounds(id: nat, vel: real, f: Feedback)
    requires IsHip(id)
    ensures var r := InRobotFrame(id, SpeedWire(id, vel, f)) as real;
            && Within(r, vel * WIRE_PER_RAD) && Abs(r) <= VEL_LIMIT * WIRE_PER_RAD
            && (!f.valid || AtAngleBound(f, vel) ==> r == 0.0)
  {
    GatedVelocityBounds(vel, f);
    SpeedBounds(id, GatedVelocity(vel, f), vel, GatedVelocity(vel, f) * WIRE_PER_RAD, vel * WIRE_PER_RAD);
  }

  lemma SpeedBounds(id: nat, v: real, vel: real, p: real, q: real)
    requires IsHip(id) && Abs(v) <= VEL_LIMIT && Within(v, vel) && p == v * WIRE_PER_RAD && q == vel * WIRE_PER_RAD
    ensures var r := InRobotFrame(id, SpeedUnits(Flip(id, v))) as real;
            Within(r, q) && Abs(r) <= VEL_LIMIT * WIRE_PER_RAD && (v == 0.0 ==> r == 0.0)
  {
    SpeedInRobotFrame(id, v);
    SpeedScaled(v, vel, p, q);
    TruncatedWithin(p, q, Trunc(p), VEL_LIMIT * WIRE_PER_RAD);
  }

  lemma SpeedScaled(v: real, vel: real, p: real, q: real)
    requires Abs(v) <= VEL_LIMIT && Within(v, vel) && p == v * WIRE_PER_RAD && q == vel * WIRE_PER_RAD
    ensures Within(p, q) && -VEL_LIMIT * WIRE_PER_RAD <= p <= VEL_LIMIT * WIRE_PER_RAD && (v == 0.0 ==> p == 0.0)
  {
  }

  lemma TruncatedWithin(p: real, q: real, n: int, m: real)
    requires Within(p, q) && n == Trunc(p) && -m <= p <= m
    ensures Within(n as real, q) && Abs(n as real) <= m && (p == 0.0 ==> n == 0)
  {
    TruncWithin(p);
  }

  lemma GatedVelocityBounds(vel: real, f: Feedback)
    ensures Within(GatedVelocity(vel, f), vel) && Abs(GatedVelocity(vel, f)) <= VEL_LIMIT
    ensures !f.valid || AtAngleBound(f, vel) ==> GatedVelocity(vel, f) == 0.0
  {
    LimitScaleRange(f.pos, ANGLE_MIN, ANGLE_MAX, ANGLE_MARGIN, vel);
    ScaledVelocityBounds(vel, AngleScale(f, vel));
  }

  lemma ScaledVelocityBounds(vel: real, s: real)
    requires 0.0 <= s <= 1.0
    ensures Within(ScaledVelocity(vel, s), vel) && Abs(ScaledVelocity(vel, s)) <= VEL_LIMIT
    ensures s == 0.0 ==> ScaledVelocity(vel, s) == 0.0
  {
    ScaledWithin(vel, s, vel * s);
    ByZeroOrOne(vel, s, vel * s);
    ClampWithin(vel * s, vel, VEL_LIMIT);
  }

  /** At the gated speeds the drive's own limit never acts, and the sign goes through. */
  lemma SpeedInRobotFrame(id: nat, v: real)
    requires IsHip(id) && Abs(v) <= VEL_LIMIT
    ensures InRobotFrame(id, SpeedUnits(Flip(id, v))) == Trunc(v * WIRE_PER_RAD)
  {
    TruncWithin(v * WIRE_PER_RAD);
  }

  function GatedTarget(target: real): real {
    Clamp(target, ANGLE_MIN, ANGLE_MAX)
  }

  /** Wire units of the angle command, hundredths of a degree; raw angles of in-bounds targets need no wrap. */
  function AngleWire(id: nat, target: real): int
    requires IsHip(id)
  {
    Trunc(Wrapped(ToRaw(id, GatedTarget(target))) * (180.0 / PI) * 100.0)
  }

  /** The remainder by a full turn, as fmod leaves it and the code shifts it. */
  function Wrapped(x: real): real {
    var turns := Trunc(x / (2.0 * PI));
    var r := x - turns as real * (2.0 * PI);
    if r < 0.0 then r + 2.0 * PI else r
  }

  /** The angle a position command asks for is within the hip's bounds up to one wire unit, and is the target clamped. */
  lemma PositionCommandBounds(id: nat, target: real)
    requires IsHip(id)
    ensures var back := ToRobotFrame(id, AngleWire(id, target) as real / WIRE_PER_RAD);
            Abs(back - GatedTarget(target)) < 1.0 / WIRE_PER_RAD && ANGLE_MIN <= GatedTarget(target) <= ANGLE_MAX
    ensures 0 <= AngleWire(id, target) < 36000
  {
    var raw := ToRaw(id, GatedTarget(target));
    assert 1.7 < raw < 4.9;
    NoWrap(raw);
    WireAngle(raw, AngleWire(id, target));
  }

  lemma NoWrap(x: real)
    requires 0.0 <= x < 2.0 * PI
    ensures Wrapped(x) == x
  {
    assert 0.0 <= x / (2.0 * PI) < 1.0;
  }

  lemma WireAngle(raw: real, n: int)
    requires 1.7 < raw < 4.9 && n == Trunc(raw * (180.0 / PI) * 100.0)
    ensures 0 <= n < 36000 && raw - 1.0 / WIRE_PER_RAD < n as real / WIRE_PER_RAD <= raw
  {
    TruncWithin(raw * WIRE_PER_RAD);
  }

  /** The gate gets tighter, never looser, as a joint moves toward the bound the request pushes to. */
  lemma TighterTowardBound(torque: real, f: Feedback, g: Feedback)
    requires f.valid && g.valid && f.vel == g.vel
    requires (torque >= 0.0 && f.pos <= g.pos) || (torque <= 0.0 && f.pos >= g.pos)
    ensures Within(GatedTorque(torque, g), GatedTorque(torque, f))
  {
    SoftScaleOrder(torque, f, g);
    ScaledTorqueOrder(torque, SoftScale(f, torque), SoftScale(g, torque));
  }

  lemma SoftScaleOrder(qty: real, f: Feedback, g: Feedback)
    requires f.vel == g.vel
    requires (qty >= 0.0 && f.pos <= g.pos) || (qty <= 0.0 && f.pos >= g.pos)
    ensures 0.0 <= SoftScale(g, qty) <= SoftScale(f, qty)
  {
    LimitScaleRange(f.vel, -VEL_LIMIT, VEL_LIMIT, VEL_MARGIN, qty);
    AngleScaleOrder(qty, f, g);
    Less(AngleScale(g, qty), AngleScale(f, qty), SpeedScale(f, qty), SoftScale(g, qty), SoftScale(f, qty));
    Positive(AngleScale(g, qty), SpeedScale(g, qty), SoftScale(g, qty));
  }

  lemma ScaledTorqueOrder(q: real, s: real, t: real)
    requires 0.0 <= t <= s
    ensures Within(ScaledTorque(q, t), ScaledTorque(q, s))
  {
    RequestOrder(q, t, s, q * t, q * s);
    ClampOrder(q * t, q * s);
  }

  lemma ClampOrder(x: real, y: real)
    requires Within(x, y)
    ensures Within(Clamp(x, -TORQUE_LIMIT, TORQUE_LIMIT), Clamp(y, -TORQUE_LIMIT, TORQUE_LIMIT))
  {
  }

  lemma AngleScaleOrder(qty: real, f: Feedback, g: Feedback)
    requires (qty >= 0.0 && f.pos <= g.pos) || (qty <= 0.0 && f.pos >= g.pos)
    ensures 0.0 <= AngleScale(g, qty) <= AngleScale(f, qty)
  {
    LimitScaleRange(g.pos, ANGLE_MIN, ANGLE_MAX, ANGLE_MARGIN, qty);
  }

  lemma RequestOrder(q: real, s: real, t: real, x: real, y: real)
    requires 0.0 <= s <= t && x == q * s && y == q * t
    ensures Within(x, y)
  {
    if q >= 0.0 {
      Less(s, t, q, x, y);
      Positive(q, s, x);
    } else {
      Less(s, t, -q, -x, -y);
      Positive(-q, s, -x);
    }
  }
}
