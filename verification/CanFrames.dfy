/** Command frames and replies of the CAN motors, and which frames a hip may be sent. */
module CanFrames {
  import opened Basics
  import opened HipGate
  import opened WireInts

  const HIP_SID := 0x140
  const BROADCAST_SID := 0x280
  const CMD_TORQUE := 0xA1
  const CMD_VELOCITY := 0xA2
  const CMD_POSITION := 0xA6
  const CMD_STATUS := 0x9A
  const WHEEL_HEARTBEAT := 0x01
  const WHEEL_AXIS_STATE := 0x07
  const WHEEL_ENCODER := 0x09
  const WHEEL_MODE := 0x0B
  const WHEEL_VELOCITY := 0x0D
  const WHEEL_TORQUE := 0x0E
  const WHEEL_TORQUE_LIMIT := 8.0
  const GEAR_RATIO := 8.0

  datatype Proto = Rmd | Sdc102 | Odrive

  datatype Entry = Entry(id: nat, proto: Proto, node: nat, sign: real)

  datatype MotorState = MotorState(torque: real, vel: real, pos: real, temp: int, voltage: real, errors: nat, valid: bool, replies: nat)

  const UNKNOWN := MotorState(0.0, 0.0, 0.0, 0, 0.0, 0, false, 0)

  /** Wheel payloads carry two single-precision numbers; the rest are bytes. */
  datatype Payload = Bytes(data: seq<nat>) | Numbers(first: real, second: real) | Remote

  datatype Frame = Frame(sid: nat, payload: Payload)

  /** What the driver knew when a frame went out: the feedback of hips 1 to 4 and the torque scale. */
  datatype Known = Known(hips: seq<Feedback>, scale: real)

  // ---- lookup ----

  /** The first entry of that id, or -1. */
  function Find(table: seq<Entry>, id: nat): (i: int)
    ensures -1 <= i < |table|
    ensures i >= 0 ==> table[i].id == id
    ensures forall k :: 0 <= k < (if i >= 0 then i else |table|) ==> table[k].id != id
  {
    if |table| == 0 then -1
    else
      var i := Find(table[..|table| - 1], id);
      if i >= 0 then i else if table[|table| - 1].id == id then |table| - 1 else -1
  }

  lemma FindIs(table: seq<Entry>, id: nat, i: nat)
    requires i < |table| && table[i].id == id && forall k :: 0 <= k < i ==> table[k].id != id
    ensures Find(table, id) == i
  {
    var j := Find(table, id);
    assert j >= 0 ==> table[j].id == id;
  }

  function FeedbackOf(s: MotorState): Feedback {
    Feedback(s.valid, s.pos, s.vel)
  }

  function HipFeedback(table: seq<Entry>, motors: seq<MotorState>, id: nat): Feedback
    requires |table| <= |motors|
  {
    var i := Find(table, id);
    if i < 0 then Feedback(false, 0.0, 0.0) else FeedbackOf(motors[i])
  }

  function KnownFrom(table: seq<Entry>, motors: seq<MotorState>, scale: real): (k: Known)
    requires |table| <= |motors|
    ensures |k.hips| == 4
    ensures forall id :: 1 <= id <= 4 ==> k.hips[id - 1] == HipFeedback(table, motors, id)
  {
    Known([HipFeedback(table, motors, 1), HipFeedback(table, motors, 2),
           HipFeedback(table, motors, 3), HipFeedback(table, motors, 4)], scale)
  }

  // ---- frames ----

  function TorqueFrame(id: nat, ratio: int): Frame {
    Frame(HIP_SID + id, Bytes([CMD_TORQUE, 0, 0, 0] + Int16Bytes(ratio) + [0, 0]))
  }

  function BroadcastFrame(r1: int, r2: int, r3: int, r4: int): Frame {
    Frame(BROADCAST_SID, Bytes(Int16Bytes(r1) + Int16Bytes(r2) + Int16Bytes(r3) + Int16Bytes(r4)))
  }

  function VelocityFrame(id: nat, units: int): Frame {
    Frame(HIP_SID + id, Bytes([CMD_VELOCITY, 0, 0, 0] + Int32Bytes(units)))
  }

  function PositionFrame(id: nat, clockwise: bool, dps: int, units: int): Frame {
    Frame(HIP_SID + id, Bytes([CMD_POSITION, if clockwise then 0 else 1] + Int16Bytes(dps) + Int32Bytes(units)))
  }

  function StatusFrame(id: nat): Frame {
    Frame(HIP_SID + id, Bytes([CMD_STATUS, 0, 0, 0, 0, 0, 0, 0]))
  }

  function WheelFrame(node: nat, cmd: nat, payload: Payload): Frame {
    Frame(32 * node + cmd, payload)
  }

  function WheelTorque(torque: real, sign: real): Payload {
    Numbers(Clamp(torque * sign, -WHEEL_TORQUE_LIMIT, WHEEL_TORQUE_LIMIT) / GEAR_RATIO, 0.0)
  }

  function WheelVelocity(vel: real, sign: real): Payload {
    Numbers(vel * sign * GEAR_RATIO, 0.0)
  }

  function AxisState(state: nat): Payload {
    Bytes([state, 0, 0, 0, 0, 0, 0, 0])
  }

  /** Velocity or torque control, inputs passed through. */
  function ControllerMode(velocity: bool): Payload {
    Bytes([if velocity then 2 else 1, 0, 0, 0, 1, 0, 0, 0])
  }

  /** The commands that set a wheel's mode and close its loop. */
  function StartFrames(node: nat, velocity: bool): seq<Frame> {
    [WheelFrame(node, WHEEL_MODE, ControllerMode(velocity)), WheelFrame(node, WHEEL_AXIS_STATE, AxisState(8))]
  }

  // ---- what may reach a hip ----

  /** A drive integer in the robot frame pushes no hip at or past a bound, and none that is not heard from. */
  predicate TorqueGated(iq: int, f: Feedback) {
    && (iq > 0 ==> f.valid && f.pos < ANGLE_MAX && f.vel < VEL_LIMIT)
    && (iq < 0 ==> f.valid && f.pos > ANGLE_MIN && f.vel > -VEL_LIMIT)
  }

  /**
   Torques are within the drive's range at any scale, and gated at a positive one: the driver does not
   check the scale, and HipGate.ReversesExactly says what another one does.
   */
  predicate TorqueAllowed(iq: int, f: Feedback, scale: real) {
    -2048 <= iq <= 2048 && (scale > 0.0 ==> TorqueGated(iq, f))
  }

  predicate VelocityAllowed(units: int, f: Feedback) {
    && Abs(units as real) <= VEL_LIMIT * WIRE_PER_RAD
    && (units > 0 ==> f.valid && f.pos < ANGLE_MAX)
    && (units < 0 ==> f.valid && f.pos > ANGLE_MIN)
  }

  predicate PositionAllowed(id: nat, dps: int, units: int)
    requires IsHip(id)
  {
    var angle := ToRobotFrame(id, units as real / WIRE_PER_RAD);
    ANGLE_MIN - 1.0 / WIRE_PER_RAD < angle < ANGLE_MAX + 1.0 / WIRE_PER_RAD && 0 <= dps <= 1145
  }

  predicate PairAllowed(id: nat, low: nat, high: nat, f: Feedback, scale: real)
    requires IsHip(id)
  {
    TorqueAllowed(InRobotFrame(id, ReadInt16(low, high)), f, scale)
  }

  /** A frame as the drive of hip id reads it. */
  predicate HipAllowed(id: nat, d: seq<nat>, f: Feedback, scale: real)
    requires IsHip(id)
  {
    |d| == 8 &&
    if d[0] == CMD_TORQUE then PairAllowed(id, d[4], d[5], f, scale)
    else if d[0] == CMD_VELOCITY then VelocityAllowed(InRobotFrame(id, ReadInt32(d[4], d[5], d[6], d[7])), f)
    else if d[0] == CMD_POSITION then PositionAllowed(id, ReadInt16(d[2], d[3]), ReadInt32(d[4], d[5], d[6], d[7]))
    else d[0] == CMD_STATUS
  }

  predicate BroadcastAllowed(d: seq<nat>, hips: seq<Feedback>, scale: real)
    requires |hips| == 4
  {
    && |d| == 8
    && PairAllowed(1, d[0], d[1], hips[0], scale) && PairAllowed(2, d[2], d[3], hips[1], scale)
    && PairAllowed(3, d[4], d[5], hips[2], scale) && PairAllowed(4, d[6], d[7], hips[3], scale)
  }

  /** The identifiers hips listen to: one each, and the broadcast. */
  predicate HipListens(sid: nat) {
    HIP_SID < sid <= HIP_SID + 4 || sid == BROADCAST_SID
  }

  /** No frame takes a hip past its gate. */
  predicate Allowed(frame: Frame, k: Known)
    requires |k.hips| == 4
  {
    && (HipListens(frame.sid) ==> frame.payload.Bytes?)
    && (HIP_SID < frame.sid <= HIP_SID + 4 ==>
          HipAllowed(frame.sid - HIP_SID, frame.payload.data, k.hips[frame.sid - HIP_SID - 1], k.scale))
    && (frame.sid == BROADCAST_SID ==> BroadcastAllowed(frame.payload.data, k.hips, k.scale))
  }

  lemma NmAllowed(id: nat, torque: real, f: Feedback, scale: real)
    requires IsHip(id)
    ensures TorqueAllowed(InRobotFrame(id, TorqueRatio(id, torque, f, scale)), f, scale)
  {
    RatioRange(Flip(id, GatedTorque(torque, f)) * scale);
    if scale > 0.0 {
      TorqueCommandBounds(id, torque, f, scale);
      KeepsSign(InRobotFrame(id, TorqueRatio(id, torque, f, scale)) as real, torque, scale);
    }
  }

  lemma RatioRange(x: real)
    ensures -2048 <= Ratio(x) <= 2048
  {
  }

  lemma RawAllowed(id: nat, ratio: int, f: Feedback, scale: real)
    requires IsHip(id)
    ensures TorqueAllowed(InRobotFrame(id, RawRatio(id, ratio, f)), f, scale)
  {
    RawCommandBounds(id, ratio, f);
  }

  lemma WordAllowed(id: nat, ratio: int, f: Feedback, scale: real)
    requires IsHip(id) && TorqueAllowed(InRobotFrame(id, ratio), f, scale)
    ensures PairAllowed(id, Int16Bytes(ratio)[0], Int16Bytes(ratio)[1], f, scale)
  {
    Int16RoundTrip(ratio);
  }

  lemma TorqueFrameAllowed(id: nat, ratio: int, k: Known)
    requires IsHip(id) && |k.hips| == 4 && TorqueAllowed(InRobotFrame(id, ratio), k.hips[id - 1], k.scale)
    ensures Allowed(TorqueFrame(id, ratio), k)
  {
    WordAllowed(id, ratio, k.hips[id - 1], k.scale);
  }

  lemma BroadcastFrameAllowed(r1: int, r2: int, r3: int, r4: int, k: Known)
    requires |k.hips| == 4
    requires TorqueAllowed(InRobotFrame(1, r1), k.hips[0], k.scale) && TorqueAllowed(InRobotFrame(2, r2), k.hips[1], k.scale)
    requires TorqueAllowed(InRobotFrame(3, r3), k.hips[2], k.scale) && TorqueAllowed(InRobotFrame(4, r4), k.hips[3], k.scale)
    ensures Allowed(BroadcastFrame(r1, r2, r3, r4), k)
  {
    WordAllowed(1, r1, k.hips[0], k.scale);
    WordAllowed(2, r2, k.hips[1], k.scale);
    WordAllowed(3, r3, k.hips[2], k.scale);
    WordAllowed(4, r4, k.hips[3], k.scale);
  }

  lemma SpeedAllowed(id: nat, vel: real, f: Feedback)
    requires IsHip(id)
    ensures VelocityAllowed(InRobotFrame(id, SpeedWire(id, vel, f)), f)
  {
    VelocityCommandBounds(id, vel, f);
    WireSign(InRobotFrame(id, SpeedWire(id, vel, f)) as real, vel);
  }

  lemma WireSign(r: real, vel: real)
    requires Within(r, vel * WIRE_PER_RAD)
    ensures (r > 0.0 ==> vel > 0.0) && (r < 0.0 ==> vel < 0.0)
  {
  }

  lemma VelocityFrameAllowed(id: nat, units: int, k: Known)
    requires IsHip(id) && |k.hips| == 4 && VelocityAllowed(InRobotFrame(id, units), k.hips[id - 1])
    ensures Allowed(VelocityFrame(id, units), k)
  {
    Int32RoundTrip(units);
  }

  lemma HipTorqueAllowed(id: nat, torque: real, ratio: int, k: Known)
    requires IsHip(id) && |k.hips| == 4 && ratio == TorqueRatio(id, torque, k.hips[id - 1], k.scale)
    ensures Allowed(TorqueFrame(id, ratio), k)
  {
    NmAllowed(id, torque, k.hips[id - 1], k.scale);
    TorqueFrameAllowed(id, ratio, k);
  }

  lemma HipRawAllowed(id: nat, request: int, ratio: int, k: Known)
    requires IsHip(id) && |k.hips| == 4 && ratio == RawRatio(id, request, k.hips[id - 1])
    ensures Allowed(TorqueFrame(id, ratio), k)
  {
    RawAllowed(id, request, k.hips[id - 1], k.scale);
    TorqueFrameAllowed(id, ratio, k);
  }

  lemma HipSpeedAllowed(id: nat, vel: real, units: int, k: Known)
    requires IsHip(id) && |k.hips| == 4 && units == SpeedWire(id, vel, k.hips[id - 1])
    ensures Allowed(VelocityFrame(id, units), k)
  {
    SpeedAllowed(id, vel, k.hips[id - 1]);
    VelocityFrameAllowed(id, units, k);
  }

  lemma StatusAllowed(id: nat, k: Known)
    requires IsHip(id) && |k.hips| == 4
    ensures Allowed(StatusFrame(id), k)
  {
  }

  function MaxSpeed(speed: real): int {
    Trunc(Clamp(speed, 0.0, VEL_LIMIT) * (180.0 / PI))
  }

  lemma PositionFrameAllowed(id: nat, target: real, speed: real, clockwise: bool, k: Known)
    requires IsHip(id) && |k.hips| == 4
    ensures Allowed(PositionFrame(id, clockwise, MaxSpeed(speed), AngleWire(id, target)), k)
  {
    PositionCommandBounds(id, target);
    MaxSpeedRange(speed);
    Int16RoundTrip(MaxSpeed(speed));
    Int32RoundTrip(AngleWire(id, target));
  }

  lemma MaxSpeedRange(speed: real)
    ensures 0 <= MaxSpeed(speed) <= 1145
  {
  }

  /** Wheel frames never carry an identifier that a hip listens to, whatever the node number. */
  lemma WheelsMissHips(node: nat, cmd: nat, payload: Payload, k: Known)
    requires |k.hips| == 4 && 7 <= cmd < 32
    ensures !HipListens(WheelFrame(node, cmd, payload).sid) && Allowed(WheelFrame(node, cmd, payload), k)
  {
  }

  lemma PairAt(id: nat, r1: int, r2: int, r3: int, r4: int)
    requires IsHip(id)
    ensures BroadcastFrame(r1, r2, r3, r4).payload.data[2 * id - 2..2 * id]
         == Int16Bytes(if id == 1 then r1 else if id == 2 then r2 else if id == 3 then r3 else r4)
  {
    assert id == 1 || id == 2 || id == 3 || id == 4;
  }

  lemma BroadcastPair(torques: seq<real>, k: Known, id: nat)
    requires |torques| == 4 && |k.hips| == 4 && IsHip(id)
    ensures Broadcast(torques, k).payload.data[2 * id - 2..2 * id]
         == Int16Bytes(BroadcastRatio(id, torques[id - 1], k.hips[id - 1], k.scale))
  {
    PairAt(id, BroadcastRatio(1, torques[0], k.hips[0], k.scale), BroadcastRatio(2, torques[1], k.hips[1], k.scale),
           BroadcastRatio(3, torques[2], k.hips[2], k.scale), BroadcastRatio(4, torques[3], k.hips[3], k.scale));
  }

  lemma PairIn(id: nat, r: int)
    ensures TorqueFrame(id, r).payload.data[4..6] == Int16Bytes(r)
  {
  }

  /** The broadcast frame carries, for each hip, the two bytes the single-motor frame would. */
  lemma BroadcastCarriesSingles(torques: seq<real>, k: Known, id: nat)
    requires |torques| == 4 && |k.hips| == 4 && IsHip(id)
    ensures var single := TorqueFrame(id, TorqueRatio(id, torques[id - 1], k.hips[id - 1], k.scale)).payload.data;
            var all := Broadcast(torques, k).payload.data;
            all[2 * id - 2..2 * id] == single[4..6]
  {
    SameOnBothPaths(id, torques[id - 1], k.hips[id - 1], k.scale);
    PairIn(id, TorqueRatio(id, torques[id - 1], k.hips[id - 1], k.scale));
    BroadcastPair(torques, k, id);
  }

  function Broadcast(torques: seq<real>, k: Known): (frame: Frame)
    requires |torques| == 4 && |k.hips| == 4
    ensures frame.payload.Bytes? && |frame.payload.data| == 8
  {
    BroadcastFrame(BroadcastRatio(1, torques[0], k.hips[0], k.scale), BroadcastRatio(2, torques[1], k.hips[1], k.scale),
                   BroadcastRatio(3, torques[2], k.hips[2], k.scale), BroadcastRatio(4, torques[3], k.hips[3], k.scale))
  }

  lemma BroadcastGated(torques: seq<real>, k: Known)
    requires |torques| == 4 && |k.hips| == 4
    ensures Allowed(Broadcast(torques, k), k)
  {
    NmBroadcast(1, torques[0], k.hips[0], k.scale);
    NmBroadcast(2, torques[1], k.hips[1], k.scale);
    NmBroadcast(3, torques[2], k.hips[2], k.scale);
    NmBroadcast(4, torques[3], k.hips[3], k.scale);
    BroadcastFrameAllowed(BroadcastRatio(1, torques[0], k.hips[0], k.scale), BroadcastRatio(2, torques[1], k.hips[1], k.scale),
                          BroadcastRatio(3, torques[2], k.hips[2], k.scale), BroadcastRatio(4, torques[3], k.hips[3], k.scale), k);
  }

  lemma NmBroadcast(id: nat, torque: real, f: Feedback, scale: real)
    requires IsHip(id)
    ensures TorqueAllowed(InRobotFrame(id, BroadcastRatio(id, torque, f, scale)), f, scale)
  {
    NmAllowed(id, torque, f, scale);
    SameOnBothPaths(id, torque, f, scale);
  }
}
