/** Replies of the hip drives: what they decode to, and what a history of them says about a hip. */
module HipReplies {
  import opened Basics
  import opened CanFrames
  import opened HipGate
  import opened WireInts

  /** The state after a reply of hip id: its layout depends on the echoed command. */
  function Replied(id: nat, s: MotorState, d: seq<nat>, scale: real): MotorState
    requires IsHip(id) && |d| == 8
  {
    if d[0] == CMD_TORQUE || d[0] == CMD_VELOCITY then
      s.(replies := s.replies + 1, torque := ReportedTorque(id, d[2], d[3], scale),
         vel := Flip(id, ReadInt16(d[4], d[5]) as real) * (PI / 180.0),
         pos := ToRobotFrame(id, EncoderAngle(d[6] + 256 * d[7])),
         temp := d[1], valid := true)
    else if d[0] == CMD_STATUS then
      s.(replies := s.replies + 1, temp := ReadInt8(d[1]), voltage := (d[2] + 256 * d[3]) as real * 0.01, errors := d[7], valid := true)
    else s.(replies := s.replies + 1)
  }

  function ReportedTorque(id: nat, low: nat, high: nat, scale: real): real
    requires IsHip(id)
  {
    if scale > 0.0 then Flip(id, ReadInt16(low, high) as real) / scale else 0.0
  }

  function EncoderAngle(counts: nat): real {
    counts as real * (PI / 32768.0)
  }

  /**
   A drive that reports the current it was commanded is read back as the gated torque, limited to the
   drive's range and cut toward zero by less than one drive unit.
   */
  lemma EchoedTorque(id: nat, torque: real, f: Feedback, scale: real, s: MotorState, d: seq<nat>)
    requires IsHip(id) && scale > 0.0 && |d| == 8 && d[0] == CMD_TORQUE
    requires d[2..4] == TorqueFrame(id, TorqueRatio(id, torque, f, scale)).payload.data[4..6]
    ensures CutByUnit(Replied(id, s, d, scale).torque, GatedTorque(torque, f), scale)
  {
    assert [d[2], d[3]] == d[2..4];
    EchoedCut(id, GatedTorque(torque, f), scale, d[2], d[3]);
  }

  /** x is t, limited to the drive's range and cut toward zero by less than one drive unit. */
  predicate CutByUnit(x: real, t: real, scale: real) {
    && Within(Times(x, scale), Times(t, scale))
    && Abs(Clamp(Times(t, scale), -RATIO_MAX, RATIO_MAX) - Times(x, scale)) < 1.0
  }

  lemma EchoedCut(id: nat, t: real, scale: real, low: nat, high: nat)
    requires IsHip(id) && scale > 0.0 && [low, high] == Int16Bytes(SingleRatio(id, t, scale))
    ensures CutByUnit(ReportedTorque(id, low, high, scale), t, scale)
  {
    EchoedRatio(id, t, scale, Times(t, scale), low, high);
    Unreported(Flip(id, ReadInt16(low, high) as real), ReportedTorque(id, low, high, scale), scale);
  }

  function Times(x: real, k: real): real {
    x * k
  }

  lemma Unreported(r: real, x: real, k: real)
    requires k != 0.0 && x == r / k
    ensures Times(x, k) == r
  {
  }

  lemma EchoedRatio(id: nat, t: real, scale: real, p: real, low: nat, high: nat)
    requires IsHip(id) && p == Times(t, scale) && [low, high] == Int16Bytes(SingleRatio(id, t, scale))
    ensures var r := Flip(id, ReadInt16(low, high) as real);
            Within(r, p) && Abs(Clamp(p, -RATIO_MAX, RATIO_MAX) - r) < 1.0
  {
    SingleInRobotFrame(id, t, scale);
    RatioCuts(p);
    EchoedWord(id, SingleRatio(id, t, scale), low, high);
  }

  lemma RatioCuts(p: real)
    ensures Within(Ratio(p) as real, p) && Abs(Clamp(p, -RATIO_MAX, RATIO_MAX) - Ratio(p) as real) < 1.0
    ensures -2048 <= Ratio(p) <= 2048
  {
    TruncWithin(Clamp(p, -RATIO_MAX, RATIO_MAX));
  }

  lemma EchoedWord(id: nat, r: int, low: nat, high: nat)
    requires IsHip(id) && -2048 <= r <= 2048 && [low, high] == Int16Bytes(r)
    ensures Flip(id, ReadInt16(low, high) as real) == InRobotFrame(id, r) as real
  {
    Int16RoundTrip(r);
    assert low == [low, high][0] && high == [low, high][1];
  }

  // ---- what a history of replies says ----

  /** A frame received, with the torque scale then in force. */
  datatype Reply = Reply(data: seq<nat>, scale: real)

  /** Short frames are dropped. */
  function Received(id: nat, s: MotorState, r: Reply): MotorState
    requires IsHip(id)
  {
    if |r.data| != 8 then s else Replied(id, s, r.data, r.scale)
  }

  /** The state after the given replies. */
  function After(id: nat, rs: seq<Reply>): MotorState
    requires IsHip(id)
  {
    if |rs| == 0 then UNKNOWN else Received(id, After(id, rs[..|rs| - 1]), rs[|rs| - 1])
  }

  /** A torque or velocity reply, which carries encoder and speed. */
  predicate Measures(r: Reply) {
    |r.data| == 8 && (r.data[0] == CMD_TORQUE || r.data[0] == CMD_VELOCITY)
  }

  predicate IsStatus(r: Reply) {
    |r.data| == 8 && r.data[0] == CMD_STATUS
  }

  predicate Measured(rs: seq<Reply>) {
    exists k :: 0 <= k < |rs| && Measures(rs[k])
  }

  predicate Heard(rs: seq<Reply>) {
    exists k :: 0 <= k < |rs| && (Measures(rs[k]) || IsStatus(rs[k]))
  }

  /** The latest torque or velocity reply. */
  function Latest(rs: seq<Reply>): (k: nat)
    requires Measured(rs)
    ensures k < |rs| && Measures(rs[k]) && forall j :: k < j < |rs| ==> !Measures(rs[j])
  {
    var n := |rs| - 1;
    if Measures(rs[n]) then n else assert forall j :: 0 <= j < n ==> rs[..n][j] == rs[j]; Latest(rs[..n])
  }

  /** Position and speed of a torque or velocity reply. */
  function PosOf(id: nat, r: Reply): real
    requires IsHip(id) && Measures(r)
  {
    ToRobotFrame(id, EncoderAngle(r.data[6] + 256 * r.data[7]))
  }

  function VelOf(id: nat, r: Reply): real
    requires IsHip(id) && Measures(r)
  {
    Flip(id, ReadInt16(r.data[4], r.data[5]) as real) * (PI / 180.0)
  }

  /**
   Over every history the feedback is marked valid exactly when a torque, velocity or status reply has
   come; position and speed are those of the latest torque or velocity reply, and zero before the first.
   */
  lemma {:induction false} FeedbackHistory(id: nat, rs: seq<Reply>)
    requires IsHip(id)
    ensures var s := After(id, rs);
            && (s.valid <==> Heard(rs))
            && s.pos == (if Measured(rs) then PosOf(id, rs[Latest(rs)]) else 0.0)
            && s.vel == (if Measured(rs) then VelOf(id, rs[Latest(rs)]) else 0.0)
  {
    if |rs| > 0 {
      var before, r := rs[..|rs| - 1], rs[|rs| - 1];
      FeedbackHistory(id, before);
      HistoryGrows(before, r);
      assert rs == before + [r];
    }
  }

  lemma HistoryGrows(before: seq<Reply>, r: Reply)
    ensures Heard(before + [r]) <==> Heard(before) || Measures(r) || IsStatus(r)
    ensures Measured(before + [r]) <==> Measured(before) || Measures(r)
    ensures Measured(before + [r]) ==>
              (before + [r])[Latest(before + [r])] == if Measures(r) then r else before[Latest(before)]
  {
    var rs := before + [r];
    assert rs[|before|] == r && rs[..|before|] == before;
    assert forall k :: 0 <= k < |before| ==> rs[k] == before[k];
  }

  /**
   Feedback marked valid is backed by a decoded position exactly when a torque or velocity reply has
   come or no status reply has.
   */
  lemma BackedExactly(id: nat, rs: seq<Reply>)
    requires IsHip(id)
    ensures (After(id, rs).valid ==> Measured(rs)) <==> Measured(rs) || !exists k :: 0 <= k < |rs| && IsStatus(rs[k])
  {
    FeedbackHistory(id, rs);
  }

  /**
   Until the first torque or velocity reply, status replies alone open the gate: the hip then counts as
   standing still at zero, wherever it is.
   */
  lemma StatusOpensGate(id: nat, rs: seq<Reply>, torque: real)
    requires IsHip(id) && !Measured(rs)
    ensures var (f, limited) := (FeedbackOf(After(id, rs)), Clamp(torque, -TORQUE_LIMIT, TORQUE_LIMIT));
            GatedTorque(torque, f) == if exists k :: 0 <= k < |rs| && IsStatus(rs[k]) then limited else 0.0
  {
    FeedbackHistory(id, rs);
    GatedTorqueBounds(torque, FeedbackOf(After(id, rs)));
  }

  // ---- the temperature byte ----

  lemma SignedByteExactly(b: nat)
    requires b < 256
    ensures ReadInt8(b) == b <==> b < 128
  {
  }

  /**
   The temperature byte is signed. A torque or velocity reply reads it unsigned: the two kinds of reply
   agree on it, and the reading is the temperature, exactly for bytes below 128.
   */
  lemma TemperatureExactly(id: nat, s: MotorState, t: MotorState, measured: Reply, status: Reply)
    requires IsHip(id) && Measures(measured) && IsStatus(status)
    requires measured.data[1] == status.data[1] < 256
    ensures Received(id, t, status).temp == ReadInt8(status.data[1])
    ensures Received(id, s, measured).temp == Received(id, t, status).temp <==> measured.data[1] < 128
  {
    SignedByteExactly(measured.data[1]);
  }

  /** At ten degrees below zero the torque reply reads 246. */
  lemma FrostReadsHot(id: nat, s: MotorState, scale: real)
    requires IsHip(id)
    ensures var (torque, status) := (Reply([CMD_TORQUE, 0xF6, 0, 0, 0, 0, 0, 0], scale), Reply([CMD_STATUS, 0xF6, 0, 0, 0, 0, 0, 0], scale));
            Received(id, s, torque).temp == 246 && Received(id, s, status).temp == -10
  {
  }
}
