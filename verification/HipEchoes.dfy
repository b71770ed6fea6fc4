/** What comes back of a command: a drive that does as it was told is read back as the gated command. */
module HipEchoes {
  import opened Basics
  import opened HipGate
  import opened WireInts
  import opened CanFrames
  import opened HipReplies

  lemma FlipDistance(id: nat, x: real, y: real)
    requires IsHip(id)
    ensures Abs(Flip(id, x) - Flip(id, y)) == Abs(x - y)
  {
  }

  // ---- position ----

  /** The encoder's count at the raw angle of a position command, which is in 36000ths of a turn: off by less than one of 65536 counts. */
  predicate EncoderAt(counts: nat, units: int) {
    -36000 < counts * 36000 - units * 65536 < 36000
  }

  const COUNT := PI / 32768.0

  lemma CountsToAngle(counts: nat, units: int)
    requires EncoderAt(counts, units)
    ensures Abs(EncoderAngle(counts) - units as real / WIRE_PER_RAD) < COUNT
  {
    var e := (counts * 36000 - units * 65536) as real;
    assert EncoderAngle(counts) - units as real / WIRE_PER_RAD == e * (COUNT / 36000.0);
  }

  /**
   A hip that has reached the angle it was commanded is read back at the clamped target, off by less than
   one encoder count and one wire unit.
   */
  lemma {:induction false} EchoedPosition(id: nat, target: real, r: Reply)
    requires IsHip(id) && Measures(r) && EncoderAt(r.data[6] + 256 * r.data[7], AngleWire(id, target))
    ensures Abs(PosOf(id, r) - Clamp(target, ANGLE_MIN, ANGLE_MAX)) < COUNT + 1.0 / WIRE_PER_RAD
  {
    var counts, raw := r.data[6] + 256 * r.data[7], AngleWire(id, target) as real / WIRE_PER_RAD;
    PositionCommandBounds(id, target);
    CountsToAngle(counts, AngleWire(id, target));
    FlipDistance(id, EncoderAngle(counts) - Offset(id), raw - Offset(id));
  }

  // ---- speed ----

  /** The speed reported is in whole degrees per second: off by less than one from the hundredths commanded. */
  predicate SpeedAt(dps: int, units: int) {
    -100 < dps * 100 - units < 100
  }

  lemma SpeedOff(dps: int, n: int, v: real, p: real, x: real)
    requires SpeedAt(dps, n) && Abs(n as real - p) < 1.0 && p == v * WIRE_PER_RAD && x == dps as real * (PI / 180.0)
    ensures Abs(x - v) < 101.0 / WIRE_PER_RAD
  {
    var e := dps as real * 100.0 - p;
    assert x - v == e * (1.0 / WIRE_PER_RAD);
  }

  lemma SpeedNear(id: nat, v: real, n: int)
    requires IsHip(id) && Abs(v) <= VEL_LIMIT && n == InRobotFrame(id, SpeedUnits(Flip(id, v)))
    ensures Abs(n as real - v * WIRE_PER_RAD) < 1.0
  {
    SpeedInRobotFrame(id, v);
    TruncWithin(v * WIRE_PER_RAD);
  }

  lemma SignedSpeed(id: nat, dps: int, units: int)
    requires IsHip(id) && SpeedAt(dps, units)
    ensures SpeedAt(InRobotFrame(id, dps), InRobotFrame(id, units))
  {
  }

  lemma SpeedRead(id: nat, r: Reply, dps: int)
    requires IsHip(id) && Measures(r) && dps == ReadInt16(r.data[4], r.data[5])
    ensures VelOf(id, r) == InRobotFrame(id, dps) as real * (PI / 180.0)
  {
  }

  lemma {:induction false} SpeedReadNear(id: nat, v: real, dps: int, units: int, x: real)
    requires IsHip(id) && Abs(v) <= VEL_LIMIT && units == SpeedUnits(Flip(id, v)) && SpeedAt(dps, units)
    requires x == InRobotFrame(id, dps) as real * (PI / 180.0)
    ensures Abs(x - v) < 101.0 / WIRE_PER_RAD
  {
    SpeedNear(id, v, InRobotFrame(id, units));
    SignedSpeed(id, dps, units);
    SpeedOff(InRobotFrame(id, dps), InRobotFrame(id, units), v, v * WIRE_PER_RAD, x);
  }

  /** A hip that turns at the speed it was sent, v after the gate, is read back at v, off by little more than a degree per second. */
  lemma {:induction false} EchoedSpeed(id: nat, v: real, r: Reply, dps: int, units: int, x: real)
    requires IsHip(id) && Abs(v) <= VEL_LIMIT && units == SpeedUnits(Flip(id, v)) && SpeedAt(dps, units)
    requires Measures(r) && dps == ReadInt16(r.data[4], r.data[5]) && x == VelOf(id, r)
    ensures Abs(x - v) < 101.0 / WIRE_PER_RAD
  {
    SpeedRead(id, r, dps);
    SpeedReadNear(id, v, dps, units, x);
  }

  // ---- the replies' own layouts ----

  /** What a drive measures, as it sends it (CAN PROTOCOL V2.35): current, speed and encoder as little-endian words. */
  function MeasuredReply(cmd: nat, temp: nat, current: int, dps: int, counts: nat): (d: seq<nat>)
    ensures |d| == 8
  {
    [cmd, temp] + Int16Bytes(current) + Int16Bytes(dps) + [counts % 256, counts / 256]
  }

  /** What a drive says of its state: temperature, hundredths of a volt, and the error flags last. */
  function StatusReply(temp: int, centivolts: nat, errors: nat): (d: seq<nat>)
    ensures |d| == 8
  {
    [CMD_STATUS, temp % 256] + [centivolts % 256, centivolts / 256] + [0, 0, 0, errors]
  }

  lemma {:induction false} MeasuredWords(cmd: nat, temp: nat, current: int, dps: int, counts: nat, d: seq<nat>)
    requires -0x8000 <= current < 0x8000 && -0x8000 <= dps < 0x8000 && counts < 65536
    requires d == MeasuredReply(cmd, temp, current, dps, counts)
    ensures d[0] == cmd && d[1] == temp && d[6] + 256 * d[7] == counts
    ensures ReadInt16(d[2], d[3]) == current && ReadInt16(d[4], d[5]) == dps
  {
    Int16RoundTrip(current);
    Int16RoundTrip(dps);
    assert [d[2], d[3]] == Int16Bytes(current) && [d[4], d[5]] == Int16Bytes(dps);
  }

  lemma {:induction false} MeasuredFields(id: nat, s: MotorState, d: seq<nat>, scale: real, t: MotorState, current: int, dps: int,
                                         counts: nat)
    requires IsHip(id) && |d| == 8 && (d[0] == CMD_TORQUE || d[0] == CMD_VELOCITY) && t == Replied(id, s, d, scale)
    requires ReadInt16(d[2], d[3]) == current && ReadInt16(d[4], d[5]) == dps && d[6] + 256 * d[7] == counts
    ensures t.valid && t.temp == d[1] && t.torque == (if scale > 0.0 then Flip(id, current as real) / scale else 0.0)
    ensures t.vel == Flip(id, dps as real) * (PI / 180.0) && t.pos == ToRobotFrame(id, EncoderAngle(counts))
  {
  }

  lemma AngleRead(id: nat, counts: nat, x: real)
    requires IsHip(id) && x == ToRobotFrame(id, EncoderAngle(counts))
    ensures Flip(id, x) + Offset(id) == counts as real * (2.0 * PI) / 65536.0
  {
  }

  lemma RateRead(x: real, y: real)
    requires y == x * (PI / 180.0)
    ensures y * 180.0 == x * PI
  {
  }

  /** Every field of a measurement is read back, in the robot frame and in the code's units. */
  lemma {:induction false} MeasurementRead(id: nat, s: MotorState, cmd: nat, temp: nat, current: int, dps: int, counts: nat,
                                          scale: real, t: MotorState)
    requires IsHip(id) && (cmd == CMD_TORQUE || cmd == CMD_VELOCITY) && scale > 0.0
    requires -0x8000 <= current < 0x8000 && -0x8000 <= dps < 0x8000 && counts < 65536
    requires t == Replied(id, s, MeasuredReply(cmd, temp, current, dps, counts), scale)
    ensures t.valid && t.temp == temp && Times(t.torque, scale) == Flip(id, current as real)
    ensures t.vel * 180.0 == Flip(id, dps as real) * PI
    ensures Flip(id, t.pos) + Offset(id) == counts as real * (2.0 * PI) / 65536.0
  {
    var d := MeasuredReply(cmd, temp, current, dps, counts);
    MeasuredWords(cmd, temp, current, dps, counts, d);
    MeasuredFields(id, s, d, scale, t, current, dps, counts);
    Unscaled(Flip(id, current as real), scale, t.torque);
    RateRead(Flip(id, dps as real), t.vel);
    AngleRead(id, counts, t.pos);
  }

  lemma Unscaled(c: real, scale: real, t: real)
    requires scale > 0.0 && t == c / scale
    ensures Times(t, scale) == c
  {
  }

  /** So is every field of a status, which leaves the measurements as they were. */
  lemma {:induction false} StatusRead(id: nat, s: MotorState, temp: int, centivolts: nat, errors: nat, scale: real, t: MotorState)
    requires IsHip(id) && -128 <= temp < 128 && centivolts < 65536
    requires t == Replied(id, s, StatusReply(temp, centivolts, errors), scale)
    ensures t.valid && t.temp == temp && t.voltage * 100.0 == centivolts as real && t.errors == errors
    ensures t.pos == s.pos && t.vel == s.vel && t.torque == s.torque
  {
    var d := StatusReply(temp, centivolts, errors);
    assert d[2] + 256 * d[3] == centivolts;
  }

  // ---- positions ----

  /** A drive reads off a position frame the direction, clockwise as zero, the speed limit and the angle. */
  lemma {:induction false} PositionFrameRead(id: nat, clockwise: bool, dps: int, units: int, d: seq<nat>)
    requires 0 <= dps < 0x8000 && 0 <= units < 0x8000_0000 && d == PositionFrame(id, clockwise, dps, units).payload.data
    ensures |d| == 8 && d[0] == CMD_POSITION && d[1] == (if clockwise then 0 else 1)
    ensures ReadInt16(d[2], d[3]) == dps && ReadInt32(d[4], d[5], d[6], d[7]) == units
  {
    Int16RoundTrip(dps);
    Int32RoundTrip(units);
    assert [d[2], d[3]] == Int16Bytes(dps) && [d[4], d[5], d[6], d[7]] == Int32Bytes(units);
  }

  /** And off a speed frame the speed. */
  lemma {:induction false} VelocityFrameRead(id: nat, units: int, d: seq<nat>)
    requires -0x8000_0000 <= units < 0x8000_0000 && d == VelocityFrame(id, units).payload.data
    ensures |d| == 8 && d[0] == CMD_VELOCITY && ReadInt32(d[4], d[5], d[6], d[7]) == units
  {
    Int32RoundTrip(units);
    assert [d[4], d[5], d[6], d[7]] == Int32Bytes(units);
  }

  /** The speed limit sent with a position command is the requested one, within 0 and 20 rad/s, cut to whole degrees per second. */
  lemma {:induction false} SpeedLimitSent(speed: real, n: int)
    requires n == MaxSpeed(speed)
    ensures n as real * PI <= Clamp(speed, 0.0, VEL_LIMIT) * 180.0 < (n + 1) as real * PI
  {
    TruncWithin(Clamp(speed, 0.0, VEL_LIMIT) * (180.0 / PI));
  }
}
