/**
 The CAN motor driver: registration table, hip commands, hip replies, status polling. With every frame sent
 goes the feedback the hips had and the torque scale in force.
 */
module CanMotor {
  import opened HipGate
  import opened WireInts
  import opened CanFrames
  import opened HipReplies
  import opened WheelDrives
  import opened StatusPoll

  const MOTOR_MAX := 8

  predicate IsRmd(table: seq<Entry>, id: nat) {
    Find(table, id) >= 0 && table[Find(table, id)].proto == Rmd
  }

  /** Hip motors are registered under their own numbers. */
  predicate TableOk(table: seq<Entry>) {
    forall i :: 0 <= i < |table| && table[i].proto == Rmd ==> IsHip(table[i].id)
  }

  function RmdFlags(table: seq<Entry>): (flags: seq<bool>)
    ensures |flags| == |table|
    ensures forall i :: 0 <= i < |flags| ==> flags[i] == (table[i].proto == Rmd)
  {
    seq(|table|, i requires 0 <= i < |table| => table[i].proto == Rmd)
  }

  predicate AllAllowed(sent: seq<Frame>, known: seq<Known>) {
    |sent| == |known| &&
    forall i :: 0 <= i < |sent| ==> |known[i].hips| == 4 && Allowed(sent[i], known[i])
  }

  /** Every frame sent in between went out with what was known. */
  predicate Recorded(before: seq<Known>, after: seq<Known>, k: Known) {
    && |before| <= |after| && before == after[..|before|]
    && forall i :: |before| <= i < |after| ==> after[i] == k
  }

  /** The status request to a table entry. */
  function RequestTo(table: seq<Entry>): nat -> Frame {
    (i: nat) => StatusFrame(if i < |table| then table[i].id else 0)
  }

  /** The frames for the given entries, in order. */
  function FramesFor(request: nat -> Frame, polled: seq<nat>): seq<Frame> {
    if |polled| == 0 then [] else [request(polled[0])] + FramesFor(request, polled[1..])
  }

  lemma FramesPrepended(request: nat -> Frame, i: nat, polled: seq<nat>)
    ensures FramesFor(request, [i] + polled) == [request(i)] + FramesFor(request, polled)
  {
    assert ([i] + polled)[1..] == polled;
  }

  lemma FramesAppend(before: seq<Frame>, request: nat -> Frame, i: nat, polled: seq<nat>, middle: seq<Frame>, after: seq<Frame>)
    requires middle == before + [request(i)] && after == middle + FramesFor(request, polled)
    ensures after == before + FramesFor(request, [i] + polled)
  {
    FramesPrepended(request, i, polled);
  }

  /** The flagged entries are there exactly once, and no other. */
  predicate EachOnce(polled: seq<nat>, flags: seq<bool>) {
    && (forall k :: 0 <= k < |polled| ==> polled[k] < |flags|)
    && forall i :: 0 <= i < |flags| ==> multiset(polled)[i] == if flags[i] then 1 else 0
  }

  lemma RoundIsFair(flags: seq<bool>, start: nat)
    requires Any(flags)
    ensures EachOnce(Visits(PolledAt(flags), CursorFrom(flags), start, Registered(flags)), flags)
  {
    VisitsArePolls(flags, start, Registered(flags));
    VisitsInRange(PolledAt(flags), CursorFrom(flags), start, Registered(flags), |flags|);
    forall i: nat | i < |flags|
      ensures multiset(Polls(flags, start, Registered(flags)))[i] == if flags[i] then 1 else 0
    {
      PollingIsFair(flags, start, i);
    }
  }

  lemma AllowedAppended(sent: seq<Frame>, known: seq<Known>, frame: Frame, k: Known)
    requires AllAllowed(sent, known) && |k.hips| == 4 && Allowed(frame, k)
    ensures AllAllowed(sent + [frame], known + [k])
  {
  }

  class Driver {
    const entries: array<Entry>
    const motors: array<MotorState>
    var count: nat
    var next: nat
    var scale: real
    var sent: seq<Frame>
    ghost var known: seq<Known>
    ghost var heard: seq<seq<Reply>>

    ghost predicate Valid()
      reads this, entries, motors
    {
      && entries.Length == MOTOR_MAX && motors.Length == MOTOR_MAX && count <= MOTOR_MAX
      && (if count > 0 then next < count else next == 0)
      && TableOk(entries[..count]) && AllAllowed(sent, known)
    }

    /** Every hip's state is what its replies so far say. */
    ghost predicate Tracked()
      requires Valid()
      reads this, entries, motors
    {
      && |heard| == MOTOR_MAX
      && (forall i :: 0 <= i < count && Table()[i].proto == Rmd ==> motors[i] == After(Table()[i].id, heard[i]))
      && forall i :: count <= i < MOTOR_MAX ==> motors[i] == UNKNOWN && heard[i] == []
    }

    ghost function Table(): seq<Entry>
      reads this`count, entries
      requires count <= entries.Length
    {
      entries[..count]
    }

    ghost function Now(): (k: Known)
      reads this, entries, motors
      requires count <= entries.Length && count <= motors.Length
      ensures |k.hips| == 4
    {
      KnownFrom(entries[..count], motors[..], scale)
    }

    constructor ()
      ensures Valid() && fresh(entries) && fresh(motors)
      ensures Tracked() && count == 0 && scale == 83.3 && sent == []
    {
      entries := new Entry[MOTOR_MAX](i => Entry(0, Rmd, 0, 0.0));
      motors := new MotorState[MOTOR_MAX](i => UNKNOWN);
      count, next, scale, sent, known := 0, 0, 83.3, [], [];
      heard := seq(MOTOR_MAX, i => []);
    }

    method Send(frame: Frame)
      requires Valid() && Allowed(frame, Now())
      modifies this`sent, this`known
      ensures Valid() && sent == old(sent) + [frame] && known == old(known) + [Now()]
    {
      AllowedAppended(sent, known, frame, Now());
      sent, known := sent + [frame], known + [Now()];
    }

    method SendWheel(node: nat, cmd: nat, payload: Payload)
      requires Valid() && 7 <= cmd < 32
      modifies this`sent, this`known
      ensures Valid() && sent == old(sent) + [WheelFrame(node, cmd, payload)]
      ensures Recorded(old(known), known, Now())
    {
      WheelsMissHips(node, cmd, payload, Now());
      Send(WheelFrame(node, cmd, payload));
    }

    method StartAxis(node: nat, velocity: bool)
      requires Valid()
      modifies this`sent, this`known
      ensures Valid()
      ensures Recorded(old(known), known, Now())
      ensures sent == old(sent) + StartFrames(node, velocity)
    {
      SendWheel(node, WHEEL_MODE, ControllerMode(velocity));
      SendWheel(node, WHEEL_AXIS_STATE, AxisState(8));
    }

    method FindEntry(id: nat) returns (i: int)
      requires count <= entries.Length
      ensures i == Find(Table(), id)
    {
      i := 0;
      while i < count
        invariant 0 <= i <= count
        invariant forall k :: 0 <= k < i ==> entries[k].id != id
      {
        if entries[i].id == id {
          FindIs(Table(), id, i);
          return;
        }
        i := i + 1;
      }
      i := -1;
    }

    method SetTorqueScale(ratioPerNm: real)
      requires Valid()
      modifies this`scale
      ensures Valid() && scale == ratioPerNm
    {
      scale := ratioPerNm;
    }

    /** Adds an entry if there is room; a wheel is put into torque mode. */
    method Register(id: nat, proto: Proto, node: nat, sign: real)
      requires Valid() && (proto == Rmd ==> IsHip(id))
      modifies this`count, this`sent, this`known, entries
      ensures Valid() && (old(Tracked()) ==> Tracked())
      ensures Recorded(old(known), known, Now())
      ensures old(count) == MOTOR_MAX ==> Table() == old(Table()) && sent == old(sent)
      ensures old(count) < MOTOR_MAX ==>
                && Table() == old(Table()) + [Entry(id, proto, if node != 0 then node else id, sign)]
                && sent == old(sent) + if proto == Odrive then StartFrames(if node != 0 then node else id, false) else []
    {
      if count >= MOTOR_MAX { return; }
      var wire := if node != 0 then node else id;
      entries[count] := Entry(id, proto, wire, sign);
      count := count + 1;
      assert Table() == old(Table()) + [Entry(id, proto, wire, sign)];
      if proto == Odrive {
        StartAxis(wire, false);
      }
    }

    method Gated(i: nat, torque: real) returns (t: real)
      requires i < motors.Length
      ensures t == GatedTorque(torque, FeedbackOf(motors[i]))
    {
      var f := FeedbackOf(motors[i]);
      t := 0.0;
      if f.valid {
        t := ScaledTorque(torque, SoftScale(f, torque));
      }
    }

    method SendHipTorque(id: nat, i: nat, torque: real)
      requires Valid() && IsHip(id) && i == Find(Table(), id)
      modifies this`sent, this`known
      ensures Valid()
      ensures Recorded(old(known), known, Now())
      ensures sent == old(sent) + [TorqueFrame(id, TorqueRatio(id, torque, FeedbackOf(motors[i]), scale))]
    {
      var t := Gated(i, torque);
      var ratio := SingleRatio(id, t, scale);
      HipTorqueAllowed(id, torque, ratio, Now());
      Send(TorqueFrame(id, ratio));
    }

    method SetTorque(id: nat, torque: real) returns (ok: bool)
      requires Valid()
      modifies this`sent, this`known
      ensures Valid()
      ensures Recorded(old(known), known, Now())
      ensures var i := Find(Table(), id);
              && ok == (i >= 0)
              && (i < 0 || entries[i].proto == Sdc102 ==> sent == old(sent))
              && (i >= 0 && entries[i].proto == Rmd ==>
                    sent == old(sent) + [TorqueFrame(id, TorqueRatio(id, torque, FeedbackOf(motors[i]), scale))])
              && (i >= 0 && entries[i].proto == Odrive ==>
                    sent == old(sent) + [WheelFrame(entries[i].node, WHEEL_TORQUE,
                                         WheelTorque(torque, entries[i].sign))])
    {
      var i := FindEntry(id);
      if i < 0 { return false; }
      var e := entries[i];
      match e.proto {
        case Rmd =>
          SendHipTorque(id, i, torque);
        case Sdc102 =>
        case Odrive =>
          SendWheel(e.node, WHEEL_TORQUE, WheelTorque(torque, e.sign));
      }
      return true;
    }

    /** All four hips in one frame, or nothing at all unless the four are registered as hip motors. */
    method SetHipTorques(torques: seq<real>) returns (ok: bool)
      requires Valid() && |torques| == 4
      modifies this`sent, this`known
      ensures Valid()
      ensures Recorded(old(known), known, Now())
      ensures ok == forall id :: 1 <= id <= 4 ==> IsRmd(Table(), id)
      ensures sent == if ok then old(sent) + [Broadcast(torques, Now())] else old(sent)
    {
      var ratio := new int[4](i => 0);
      ok := HipRatios(torques, ratio);
      if ok {
        BroadcastGated(torques, Now());
        Send(BroadcastFrame(ratio[0], ratio[1], ratio[2], ratio[3]));
      }
    }

    /** The gated wire values of the four hips, if all are registered. */
    method HipRatios(torques: seq<real>, ratio: array<int>) returns (ok: bool)
      requires Valid() && |torques| == 4 && ratio.Length == 4
      modifies ratio
      ensures ok == forall id :: 1 <= id <= 4 ==> IsRmd(Table(), id)
      ensures ok ==> forall j :: 0 <= j < 4 ==> ratio[j] == BroadcastRatio(j + 1, torques[j], HipFeedback(Table(), motors[..], j + 1), scale)
    {
      for k := 0 to 4
        invariant forall j :: 1 <= j <= k ==> IsRmd(Table(), j)
        invariant forall j :: 0 <= j < k ==> ratio[j] == BroadcastRatio(j + 1, torques[j], HipFeedback(Table(), motors[..], j + 1), scale)
      {
        var registered, wire := HipRatio(k + 1, torques[k]);
        if !registered { return false; }
        ratio[k] := wire;
      }
      return true;
    }

    method HipRatio(id: nat, torque: real) returns (registered: bool, wire: int)
      requires Valid() && IsHip(id)
      ensures registered == IsRmd(Table(), id)
      ensures registered ==> wire == BroadcastRatio(id, torque, HipFeedback(Table(), motors[..], id), scale)
    {
      var i := FindEntry(id);
      if i < 0 || entries[i].proto != Rmd { return false, 0; }
      var t := Gated(i, torque);
      return true, FlippedRatio(id, t, scale);
    }

    method SetTorqueRaw(id: nat, ratio: int) returns (ok: bool)
      requires Valid()
      modifies this`sent, this`known
      ensures Valid()
      ensures Recorded(old(known), known, Now())
      ensures ok == IsRmd(Table(), id)
      ensures sent == if !ok then old(sent)
                      else old(sent) + [TorqueFrame(id, RawRatio(id, ratio, FeedbackOf(motors[Find(Table(), id)])))]
    {
      var i := FindEntry(id);
      if i < 0 || entries[i].proto != Rmd { return false; }
      var out := GatedRaw(i, ratio);
      var wire := Trunc(Flip(id, out as real));
      HipRawAllowed(id, ratio, wire, Now());
      Send(TorqueFrame(id, wire));
      return true;
    }

    method GatedRaw(i: nat, ratio: int) returns (out: int)
      requires i < motors.Length
      ensures out == GatedRatio(ratio, FeedbackOf(motors[i]))
    {
      var f := FeedbackOf(motors[i]);
      out := 0;
      if f.valid {
        out := ScaledRatio(ratio as real, SoftScale(f, ratio as real));
      }
    }

    method GatedSpeed(i: nat, vel: real) returns (v: real)
      requires i < motors.Length
      ensures v == GatedVelocity(vel, FeedbackOf(motors[i]))
    {
      var f := FeedbackOf(motors[i]);
      v := 0.0;
      if f.valid {
        v := ScaledVelocity(vel, AngleScale(f, vel));
      }
    }

    method SendHipVelocity(id: nat, i: nat, vel: real)
      requires Valid() && IsHip(id) && i == Find(Table(), id)
      modifies this`sent, this`known
      ensures Valid()
      ensures Recorded(old(known), known, Now())
      ensures sent == old(sent) + [VelocityFrame(id, SpeedWire(id, vel, FeedbackOf(motors[i])))]
    {
      var v := GatedSpeed(i, vel);
      var units := SpeedUnits(Flip(id, v));
      HipSpeedAllowed(id, vel, units, Now());
      Send(VelocityFrame(id, units));
    }

    method SetVelocity(id: nat, vel: real) returns (ok: bool)
      requires Valid()
      modifies this`sent, this`known
      ensures Valid()
      ensures Recorded(old(known), known, Now())
      ensures var i := Find(Table(), id);
              && ok == (i >= 0)
              && (i < 0 || entries[i].proto == Sdc102 ==> sent == old(sent))
              && (i >= 0 && entries[i].proto == Rmd ==>
                    sent == old(sent) + [VelocityFrame(id, SpeedWire(id, vel, FeedbackOf(motors[i])))])
              && (i >= 0 && entries[i].proto == Odrive ==>
                    sent == old(sent) + [WheelFrame(entries[i].node, WHEEL_VELOCITY,
                                         WheelVelocity(vel, entries[i].sign))])
    {
      var i := FindEntry(id);
      if i < 0 { return false; }
      var e := entries[i];
      match e.proto {
        case Rmd =>
          SendHipVelocity(id, i, vel);
        case Sdc102 =>
        case Odrive =>
          SendWheel(e.node, WHEEL_VELOCITY, WheelVelocity(vel, e.sign));
      }
      return true;
    }

    method SetPosition(id: nat, target: real, speed: real, clockwise: bool) returns (ok: bool)
      requires Valid()
      modifies this`sent, this`known
      ensures Valid()
      ensures Recorded(old(known), known, Now())
      ensures ok == IsRmd(Table(), id)
      ensures sent == if !ok then old(sent)
                      else old(sent) + [PositionFrame(id, if id == 1 || id == 3 then !clockwise else clockwise,
                                                      MaxSpeed(speed), AngleWire(id, target))]
    {
      var i := FindEntry(id);
      if i < 0 || entries[i].proto != Rmd { return false; }
      var wireClockwise := if Flip(id, 1.0) > 0.0 then clockwise else !clockwise;
      PositionFrameAllowed(id, target, speed, wireClockwise, Now());
      Send(PositionFrame(id, wireClockwise, MaxSpeed(speed), AngleWire(id, target)));
      return true;
    }

    method SetOdriveMode(id: nat, velocity: bool) returns (ok: bool)
      requires Valid()
      modifies this`sent, this`known
      ensures Valid()
      ensures Recorded(old(known), known, Now())
      ensures var i := Find(Table(), id);
              && ok == (i >= 0 && entries[i].proto == Odrive)
              && sent == if ok then old(sent) + [WheelFrame(entries[i].node, WHEEL_AXIS_STATE, AxisState(1))] + StartFrames(entries[i].node, velocity) else old(sent)
    {
      var i := FindEntry(id);
      if i < 0 || entries[i].proto != Odrive { return false; }
      var node := entries[i].node;
      SendWheel(node, WHEEL_AXIS_STATE, AxisState(1));
      StartAxis(node, velocity);
      return true;
    }

    method RequestEncoder(id: nat) returns (ok: bool)
      requires Valid()
      modifies this`sent, this`known
      ensures Valid()
      ensures Recorded(old(known), known, Now())
      ensures var i := Find(Table(), id);
              && ok == (i >= 0 && entries[i].proto == Odrive)
              && sent == if ok then old(sent) + [WheelFrame(entries[i].node, WHEEL_ENCODER, Remote)] else old(sent)
    {
      var i := FindEntry(id);
      if i < 0 || entries[i].proto != Odrive { return false; }
      SendWheel(entries[i].node, WHEEL_ENCODER, Remote);
      return true;
    }

    /** A reply of the hip at table index i; short frames are dropped. */
    method RmdReply(i: nat, data: seq<nat>)
      requires Valid() && i < count && entries[i].proto == Rmd && |data| <= 8
      modifies motors, this`heard
      ensures Valid() && (old(Tracked()) ==> Tracked())
      ensures forall j :: 0 <= j < MOTOR_MAX && j != i ==> motors[j] == old(motors[j])
      ensures motors[i] == Received(entries[i].id, old(motors[i]), Reply(data, scale))
      ensures |old(heard)| == MOTOR_MAX ==> heard == old(heard)[i := old(heard)[i] + [Reply(data, scale)]]
    {
      assert Table()[i].proto == Rmd;
      motors[i] := DecodeReply(entries[i].id, motors[i], data);
      if |heard| == MOTOR_MAX {
        assert (heard[i] + [Reply(data, scale)])[..|heard[i]|] == heard[i];
        heard := heard[i := heard[i] + [Reply(data, scale)]];
      }
    }

    method DecodeReply(id: nat, s: MotorState, data: seq<nat>) returns (s': MotorState)
      requires IsHip(id) && |data| <= 8
      ensures s' == Received(id, s, Reply(data, scale))
    {
      if |data| < 8 { return s; }
      s' := s.(replies := s.replies + 1);
      if data[0] == CMD_TORQUE || data[0] == CMD_VELOCITY {
        var (iq, speed) := (ReadInt16(data[2], data[3]), ReadInt16(data[4], data[5]));
        s' := s'.(torque := if scale > 0.0 then Flip(id, iq as real) / scale else 0.0,
                  vel := Flip(id, speed as real) * (PI / 180.0),
                  pos := ToRobotFrame(id, EncoderAngle(data[6] + 256 * data[7])),
                  temp := data[1], valid := true);
      } else if data[0] == CMD_STATUS {
        s' := s'.(temp := ReadInt8(data[1]), voltage := (data[2] + 256 * data[3]) as real * 0.01,
                  errors := data[7], valid := true);
      }
    }

    /** A frame from the wheel at table index i, of full length or short; short frames are dropped. */
    method OdriveReply(i: nat, full: bool, sid: nat, first: real, second: real)
      requires Valid() && i < count && entries[i].proto == Odrive
      modifies motors
      ensures Valid() && (old(Tracked()) ==> Tracked())
      ensures forall j :: 0 <= j < MOTOR_MAX && j != i ==> motors[j] == old(motors[j])
      ensures motors[i] == if full then WheelHeard(old(motors[i]), entries[i].sign, sid % 32, first, second) else old(motors[i])
    {
      assert Table()[i].proto == Odrive;
      if !full { return; }
      var s := motors[i].(replies := motors[i].replies + 1);
      if sid % 32 == WHEEL_ENCODER {
        s := s.(pos := entries[i].sign * first * (2.0 * PI) / GEAR_RATIO,
                vel := entries[i].sign * second * (2.0 * PI) / GEAR_RATIO, valid := true);
      } else if sid % 32 == WHEEL_HEARTBEAT {
        s := s.(valid := true);
      }
      motors[i] := s;
    }

    /** What the gate works from: a hip's valid feedback is its latest measurement, or zero if it has only sent status. */
    lemma GateWorksFrom(i: nat)
      requires Valid() && Tracked() && i < count && entries[i].proto == Rmd
      ensures motors[i].valid <==> Heard(heard[i])
      ensures Measured(heard[i]) ==>
                && motors[i].pos == PosOf(Table()[i].id, heard[i][Latest(heard[i])])
                && motors[i].vel == VelOf(Table()[i].id, heard[i][Latest(heard[i])])
      ensures !Measured(heard[i]) ==> motors[i].pos == 0.0 && motors[i].vel == 0.0
    {
      assert Table()[i].proto == Rmd;
      FeedbackHistory(Table()[i].id, heard[i]);
    }

    /** One polling call: at most one status request, and the cursor just past the hip polled. */
    method PollStatus()
      requires Valid()
      modifies this`next, this`sent, this`known
      ensures Valid()
      ensures Recorded(old(known), known, Now())
      ensures var flags := RmdFlags(Table());
              if !Any(flags) then next == old(next) && sent == old(sent)
              else
                && sent == old(sent) + [StatusFrame(entries[PolledAt(flags)(old(next))].id)]
                && next == CursorFrom(flags)(old(next))
    {
      var i := NextRmd();
      if i >= 0 {
        SendStatusRequest(i);
        next := Cursor(i);
      }
    }

    /** A polling call while there is a hip to poll. */
    method PollNext(ghost table: seq<Entry>, ghost entry: nat -> nat, ghost after: nat -> nat, ghost request: nat -> Frame)
      returns (ghost i: nat)
      requires Valid() && table == Table() && Any(RmdFlags(table)) && request == RequestTo(table)
      requires entry == PolledAt(RmdFlags(table)) && after == CursorFrom(RmdFlags(table))
      modifies this`next, this`sent, this`known
      ensures Valid() && i == entry(old(next)) && next == after(old(next)) && sent == old(sent) + [request(i)]
    {
      i := entry(next);
      PollStatus();
    }

    /** Consecutive polling calls. */
    method PollCalls(calls: nat, ghost table: seq<Entry>, ghost entry: nat -> nat, ghost after: nat -> nat,
                     ghost request: nat -> Frame)
      returns (ghost polled: seq<nat>)
      requires Valid() && table == Table() && Any(RmdFlags(table)) && request == RequestTo(table)
      requires entry == PolledAt(RmdFlags(table)) && after == CursorFrom(RmdFlags(table))
      modifies this`next, this`sent, this`known
      ensures Valid() && polled == Visits(entry, after, old(next), calls) && sent == old(sent) + FramesFor(request, polled)
      decreases calls
    {
      polled := [];
      if calls > 0 {
        ghost var before := sent;
        ghost var i := PollNext(table, entry, after, request);
        ghost var middle := sent;
        polled := PollCalls(calls - 1, table, entry, after, request);
        FramesAppend(before, request, i, polled, middle, sent);
        polled := [i] + polled;
      }
    }

    /** As many calls as there are hips, from any cursor, request each hip exactly once and nothing else. */
    method PollRound(calls: nat) returns (ghost polled: seq<nat>)
      requires Valid() && Any(RmdFlags(Table())) && calls == Registered(RmdFlags(Table()))
      modifies this`next, this`sent, this`known
      ensures Valid() && |polled| == calls && sent == old(sent) + FramesFor(RequestTo(Table()), polled)
      ensures EachOnce(polled, RmdFlags(Table()))
    {
      ghost var flags, start := RmdFlags(Table()), next;
      polled := PollCalls(calls, Table(), PolledAt(flags), CursorFrom(flags), RequestTo(Table()));
      RoundIsFair(flags, start);
    }

    method SendStatusRequest(i: nat)
      requires Valid() && i < count && entries[i].proto == Rmd
      modifies this`sent, this`known
      ensures Valid() && sent == old(sent) + [StatusFrame(entries[i].id)]
      ensures Recorded(old(known), known, Now())
    {
      assert Table()[i].proto == Rmd;
      StatusAllowed(entries[i].id, Now());
      Send(StatusFrame(entries[i].id));
    }

    /** The cursor after entry i. */
    method Cursor(i: nat) returns (c: nat)
      requires i < count
      ensures c < count && forall p: nat :: Slot(count, p) == i ==> Slot(count, p + 1) == c
    {
      c := (i + 1) % count;
      forall p: nat | Slot(count, p) == i ensures Slot(count, p + 1) == c {
        NextSlot(count, p);
        RemainderIsSlot(count, i + 1);
      }
    }

    /** The entry the next polling call asks, or -1 if no hip is registered. */
    method NextRmd() returns (i: int)
      requires count <= entries.Length && (count > 0 ==> next < count)
      ensures var flags := RmdFlags(Table());
              i == if Any(flags) then Slot(count, NextPoll(flags, next)) else -1
      ensures i >= 0 ==> i < count && entries[i].proto == Rmd
    {
      if count == 0 { return -1; }
      ghost var flags := RmdFlags(Table());
      for n := 0 to count
        invariant forall k :: next <= k < next + n ==> !Flagged(flags, k)
      {
        i := (next + n) % count;
        RemainderIsSlot(count, next + n);
        if entries[i].proto == Rmd {
          PollFound(flags, next, n);
          return;
        }
      }
      NoneFound(flags, next);
      i := -1;
    }
  }
}
