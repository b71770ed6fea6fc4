/** The wheel drives at the other end of the bus: what the frames do to an axis, and what it reads back. */
module WheelDrives {
  import opened Basics
  import opened WireInts
  import opened HipGate
  import opened CanFrames

  // ---- addresses ----

  /** Node and command of a wheel frame can be read off its identifier, so no two of them share one. */
  lemma {:induction false} AddressRead(node: nat, cmd: nat, payload: Payload)
    requires cmd < 32
    ensures WheelFrame(node, cmd, payload).sid / 32 == node && WheelFrame(node, cmd, payload).sid % 32 == cmd
  {
  }

  // ---- modes ----

  /** An axis: whether its loop is closed, by speed or by torque, and whether its mode was ever changed with the loop closed. */
  datatype Axis = Axis(closed: bool, velocity: bool, upset: bool)

  function WordOf(p: Payload): int {
    if p.Bytes? && |p.data| == 8 then ReadInt32(p.data[0], p.data[1], p.data[2], p.data[3]) else 0
  }

  /** An axis of the given node takes a frame: states 1 and 8 open and close the loop, modes 1 and 2 are torque and velocity. */
  function Took(node: nat, a: Axis, f: Frame): Axis {
    if f.sid / 32 != node then a
    else if f.sid % 32 == 7 then (if WordOf(f.payload) == 8 then a.(closed := true) else if WordOf(f.payload) == 1 then a.(closed := false) else a)
    else if f.sid % 32 == 11 then
      var changed := a.(upset := a.upset || a.closed);
      if WordOf(f.payload) == 2 then changed.(velocity := true) else if WordOf(f.payload) == 1 then changed.(velocity := false) else changed
    else a
  }

  function TookAll(node: nat, a: Axis, frames: seq<Frame>): Axis
    decreases |frames|
  {
    if |frames| == 0 then a else TookAll(node, Took(node, a, frames[0]), frames[1..])
  }

  lemma {:induction false} TookOne(node: nat, a: Axis, f: Frame, rest: seq<Frame>)
    ensures TookAll(node, a, [f] + rest) == TookAll(node, Took(node, a, f), rest)
  {
    assert ([f] + rest)[1..] == rest;
  }

  lemma {:induction false} StateTaken(node: nat, a: Axis, m: nat, state: nat)
    requires state == 1 || state == 8
    ensures Took(node, a, WheelFrame(m, WHEEL_AXIS_STATE, AxisState(state))) == if m == node then a.(closed := state == 8) else a
  {
    AddressRead(m, WHEEL_AXIS_STATE, AxisState(state));
  }

  lemma {:induction false} ModeTaken(node: nat, a: Axis, m: nat, velocity: bool)
    ensures Took(node, a, WheelFrame(m, WHEEL_MODE, ControllerMode(velocity)))
         == if m == node then a.(velocity := velocity, upset := a.upset || a.closed) else a
  {
    AddressRead(m, WHEEL_MODE, ControllerMode(velocity));
  }

  lemma {:induction false} StartTaken(node: nat, a: Axis, m: nat, velocity: bool)
    ensures TookAll(node, a, StartFrames(m, velocity)) == if m == node then Axis(true, velocity, a.upset || a.closed) else a
  {
    var mode, state := WheelFrame(m, WHEEL_MODE, ControllerMode(velocity)), WheelFrame(m, WHEEL_AXIS_STATE, AxisState(8));
    ModeTaken(node, a, m, velocity);
    StateTaken(node, Took(node, a, mode), m, 8);
    assert StartFrames(m, velocity) == [mode] + ([state] + []);
    TookOne(node, a, mode, [state] + []);
    TookOne(node, Took(node, a, mode), state, []);
  }

  /**
   The three frames of a mode change leave the axis in the mode asked for with its loop closed, never change
   the mode while it is closed, and leave every other axis alone.
   */
  lemma {:induction false} ModeChanged(node: nat, a: Axis, m: nat, velocity: bool, frames: seq<Frame>)
    requires frames == [WheelFrame(m, WHEEL_AXIS_STATE, AxisState(1))] + StartFrames(m, velocity)
    ensures TookAll(node, a, frames) == if m == node then Axis(true, velocity, a.upset) else a
  {
    var idle := WheelFrame(m, WHEEL_AXIS_STATE, AxisState(1));
    StateTaken(node, a, m, 1);
    TookOne(node, a, idle, StartFrames(m, velocity));
    StartTaken(node, Took(node, a, idle), m, velocity);
  }

  /** The two frames of a registration do so exactly when the loop was open. */
  lemma {:induction false} RegisteredInTorque(node: nat, a: Axis)
    ensures TookAll(node, a, StartFrames(node, false)) == Axis(true, false, a.upset) <==> a.upset || !a.closed
  {
    StartTaken(node, a, node, false);
  }

  // ---- gear and mount ----

  predicate IsSign(sign: real) {
    sign == 1.0 || sign == -1.0
  }

  /** Wheel torque and speed at a motor torque and speed: the gear turns the wheel an eighth as fast with eight times the torque. */
  predicate AtWheel(motorTorque: real, motorSpeed: real, sign: real, torque: real, speed: real) {
    torque == sign * (motorTorque * 8.0) && speed == sign * (motorSpeed / 8.0)
  }

  /** What is sent moves the wheel, however it is mounted, with the torque asked for, within 8 Nm, and at the speed asked for. */
  lemma {:induction false} WheelMoves(torque: real, speed: real, sign: real)
    requires IsSign(sign)
    ensures AtWheel(WheelTorque(torque, sign).first, WheelVelocity(speed, sign).first, sign, Clamp(torque, -8.0, 8.0), speed)
    ensures WheelTorque(torque, sign).second == 0.0 && WheelVelocity(speed, sign).second == 0.0
  {
  }

  /** And so with the power asked for. */
  lemma {:induction false} PowerKept(torque: real, speed: real, sign: real)
    requires IsSign(sign) && -8.0 <= torque <= 8.0
    ensures WheelTorque(torque, sign).first * WheelVelocity(speed, sign).first == torque * speed
  {
    var t, v := WheelTorque(torque, sign).first, WheelVelocity(speed, sign).first;
    if sign == 1.0 {
      Geared(t, v, torque, speed);
    } else {
      Geared(-t, -v, torque, speed);
      assert -t * -v == t * v;
    }
  }

  lemma Geared(t: real, v: real, torque: real, speed: real)
    requires t * 8.0 == torque && v == speed * 8.0
    ensures t * v == torque * speed
  {
    assert t * (speed * 8.0) == (t * 8.0) * speed;
  }

  // ---- replies ----

  /** An encoder estimate in motor turns and turns per second; a heartbeat says only that the drive is there. */
  function EncoderRead(s: MotorState, sign: real, turns: real, rate: real): MotorState {
    s.(replies := s.replies + 1, pos := sign * turns * (2.0 * PI) / GEAR_RATIO, vel := sign * rate * (2.0 * PI) / GEAR_RATIO, valid := true)
  }

  /** A frame from a drive, by its command. */
  function WheelHeard(s: MotorState, sign: real, cmd: nat, first: real, second: real): MotorState {
    if cmd == WHEEL_ENCODER then EncoderRead(s, sign, first, second)
    else if cmd == WHEEL_HEARTBEAT then s.(replies := s.replies + 1, valid := true)
    else s.(replies := s.replies + 1)
  }

  /** The wheel's own turns and rate, in radians, are what is read. */
  lemma {:induction false} EncoderIsWheel(s: MotorState, sign: real, turns: real, rate: real)
    requires IsSign(sign)
    ensures var s' := EncoderRead(s, sign, sign * (8.0 * turns), sign * (8.0 * rate));
            s'.pos == turns * (2.0 * PI) && s'.vel == rate * (2.0 * PI)
  {
    Unsigned(sign, turns);
    Unsigned(sign, rate);
  }

  lemma Unsigned(sign: real, x: real)
    requires IsSign(sign)
    ensures sign * (sign * (8.0 * x)) * (2.0 * PI) / GEAR_RATIO == x * (2.0 * PI)
  {
    assert sign * (sign * (8.0 * x)) == 8.0 * x;
  }

  /**
   The speed sent is taken by the drive in turns per second: a drive that does as told is read back at 2π
   times the speed asked for, which is that speed only when it is zero.
   */
  lemma {:induction false} SpeedReadBack(s: MotorState, speed: real, sign: real, turns: real)
    requires IsSign(sign)
    ensures var v := EncoderRead(s, sign, turns, WheelVelocity(speed, sign).first).vel;
            v == speed * (2.0 * PI) && (v == speed <==> speed == 0.0)
  {
    var m := WheelVelocity(speed, sign).first;
    assert sign * m == speed * GEAR_RATIO;
  }
}
