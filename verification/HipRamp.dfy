/** The soft margins of the hip gate: how much of a request goes out between the margin's edge and the bound. */
module HipRamp {
  import opened Basics
  import opened Products
  import opened HipGate

  /**
   s is the part of the margin left before the bound that the request pushes toward: one up to the margin's
   edge, zero from the bound on.
   */
  predicate MarginLeft(value: real, lo: real, hi: real, margin: real, qty: real, s: real) {
    && 0.0 <= s <= 1.0
    && (qty > 0.0 ==> if s == 1.0 then value <= hi - margin else if s == 0.0 then value >= hi else value == hi - s * margin)
    && (qty < 0.0 ==> if s == 1.0 then value >= lo + margin else if s == 0.0 then value <= lo else value == lo + s * margin)
    && (qty == 0.0 ==> s == 1.0)
  }

  lemma {:induction false} PartOfMargin(d: real, margin: real, s: real)
    requires margin > 0.0 && 0.0 <= s <= 1.0
    requires if s == 1.0 then d >= margin else if s == 0.0 then d <= 0.0 else d == s * margin
    ensures Clamp(d / margin, 0.0, 1.0) == s
  {
    Quotient(d, margin, d / margin);
    if 0.0 < s < 1.0 {
      Undone(s, margin, d);
    }
  }

  lemma Undone(s: real, margin: real, d: real)
    requires margin > 0.0 && d == s * margin
    ensures d / margin == s
  {
  }

  /** The scale is exactly the part of the margin left: a linear ramp. */
  lemma {:induction false} LimitScaleRamps(value: real, lo: real, hi: real, margin: real, qty: real, s: real)
    requires margin > 0.0 && MarginLeft(value, lo, hi, margin, qty, s)
    ensures LimitScale(value, lo, hi, margin, qty) == s
  {
    if qty > 0.0 {
      PartOfMargin(hi - value, margin, s);
    } else if qty < 0.0 {
      PartOfMargin(value - lo, margin, s);
    }
  }

  /** At every value some part of the margin is left. */
  lemma {:induction false} SomeMarginLeft(value: real, lo: real, hi: real, margin: real, qty: real)
    requires margin > 0.0
    ensures exists s: real :: MarginLeft(value, lo, hi, margin, qty, s)
  {
    var d := if qty > 0.0 then hi - value else value - lo;
    var s := if qty == 0.0 || d >= margin then 1.0 else if d <= 0.0 then 0.0 else d / margin;
    Quotient(d, margin, d / margin);
    assert d / margin * margin == d;
    assert MarginLeft(value, lo, hi, margin, qty, s);
  }

  predicate AngleLeft(f: Feedback, qty: real, s: real) {
    MarginLeft(f.pos, ANGLE_MIN, ANGLE_MAX, ANGLE_MARGIN, qty, s)
  }

  predicate SpeedLeft(f: Feedback, qty: real, t: real) {
    MarginLeft(f.vel, -VEL_LIMIT, VEL_LIMIT, VEL_MARGIN, qty, t)
  }

  /** s and t are the parts left of both margins, and k their product. */
  predicate PartsLeft(f: Feedback, qty: real, s: real, t: real, k: real) {
    AngleLeft(f, qty, s) && SpeedLeft(f, qty, t) && k == s * t
  }

  lemma {:induction false} SoftScaleRamps(f: Feedback, qty: real, s: real, t: real, k: real)
    requires PartsLeft(f, qty, s, t, k)
    ensures SoftScale(f, qty) == k
  {
    LimitScaleRamps(f.pos, ANGLE_MIN, ANGLE_MAX, ANGLE_MARGIN, qty, s);
    LimitScaleRamps(f.vel, -VEL_LIMIT, VEL_LIMIT, VEL_MARGIN, qty, t);
  }

  /** With parts s and t left of the angle and the speed margin, their product of a torque request goes out, within 12 Nm. */
  lemma {:induction false} TorqueRamps(torque: real, f: Feedback, s: real, t: real, k: real)
    requires f.valid && PartsLeft(f, torque, s, t, k)
    ensures GatedTorque(torque, f) == Clamp(torque * k, -TORQUE_LIMIT, TORQUE_LIMIT)
  {
    SoftScaleRamps(f, torque, s, t, k);
    ScaledBy(torque, k);
  }

  lemma {:induction false} ScaledBy(torque: real, k: real)
    ensures ScaledTorque(torque, k) == Clamp(torque * k, -TORQUE_LIMIT, TORQUE_LIMIT)
  {
  }

  /** And of a raw request, within the drive's range, cut to an integer. */
  lemma {:induction false} RawRamps(id: nat, ratio: int, f: Feedback, r: real, s: real, t: real, k: real)
    requires IsHip(id) && f.valid && r == ratio as real && PartsLeft(f, r, s, t, k)
    ensures InRobotFrame(id, RawRatio(id, ratio, f)) == Trunc(Clamp(r * k, -RATIO_MAX, RATIO_MAX))
  {
    SoftScaleRamps(f, r, s, t, k);
    RawScaledBy(r, k);
    SignedInteger(id, GatedRatio(ratio, f));
  }

  lemma {:induction false} RawScaledBy(r: real, k: real)
    ensures ScaledRatio(r, k) == Trunc(Clamp(r * k, -RATIO_MAX, RATIO_MAX))
  {
  }

  /** With a part s left of the angle margin, that part of a speed request goes out, within 20 rad/s. */
  lemma {:induction false} VelocityRamps(vel: real, f: Feedback, s: real)
    requires f.valid && AngleLeft(f, vel, s)
    ensures GatedVelocity(vel, f) == Clamp(vel * s, -VEL_LIMIT, VEL_LIMIT)
  {
    LimitScaleRamps(f.pos, ANGLE_MIN, ANGLE_MAX, ANGLE_MARGIN, vel, s);
    SpeedScaledBy(vel, s);
  }

  lemma {:induction false} SpeedScaledBy(vel: real, s: real)
    ensures ScaledVelocity(vel, s) == Clamp(vel * s, -VEL_LIMIT, VEL_LIMIT)
  {
  }

  /** On the wire, in hundredths of a degree per second. */
  lemma {:induction false} SpeedWireRamps(id: nat, vel: real, f: Feedback, s: real, v: real)
    requires IsHip(id) && f.valid && AngleLeft(f, vel, s) && v == Clamp(vel * s, -VEL_LIMIT, VEL_LIMIT)
    ensures InRobotFrame(id, SpeedWire(id, vel, f)) == Trunc(v * WIRE_PER_RAD)
  {
    VelocityRamps(vel, f, s);
    SpeedInRobotFrame(id, v);
  }

  /** The torque's wire value, single or broadcast: that torque in drive units, cut to an integer in range. */
  lemma {:induction false} TorqueWireRamps(id: nat, torque: real, f: Feedback, scale: real, s: real, t: real, k: real, g: real)
    requires IsHip(id) && f.valid && PartsLeft(f, torque, s, t, k) && g == Clamp(torque * k, -TORQUE_LIMIT, TORQUE_LIMIT)
    ensures InRobotFrame(id, TorqueRatio(id, torque, f, scale)) == Trunc(Clamp(g * scale, -RATIO_MAX, RATIO_MAX))
    ensures InRobotFrame(id, BroadcastRatio(id, torque, f, scale)) == Trunc(Clamp(g * scale, -RATIO_MAX, RATIO_MAX))
  {
    TorqueRamps(torque, f, s, t, k);
    SingleInRobotFrame(id, g, scale);
    SameOnBothPaths(id, torque, f, scale);
  }
}
