/** The radio thread: stick normalisation, the staleness watchdog, arming, and the height latch. */
module Radio {
  import opened Basics
  import opened Sbus

  // ---- sticks ----

  const DEADBAND := 0.05

  function NormAxis(v: int): real {
    var x := (v - 992) as real / 819.0;
    if -DEADBAND < x < DEADBAND then 0.0
    else
      var mag := (Abs(x) - DEADBAND) / (1.0 - DEADBAND);
      if x > 0.0 then mag else -mag
  }

  /** The stick reads exactly zero on 952 to 1032, and within one exactly on 173 to 1811. */
  lemma NormAxisRange(v: int)
    ensures NormAxis(v) == 0.0 <==> 952 <= v <= 1032
    ensures -1.0 <= NormAxis(v) <= 1.0 <==> 173 <= v <= 1811
    ensures NormAxis(v) > 0.0 <==> v > 1032
  {
  }

  /** The documented low end of the channel range reads below −1. */
  lemma LowEndOvershoots()
    ensures NormAxis(172) < -1.0
    ensures NormAxis(173) == -1.0 && NormAxis(1811) == 1.0
  {
  }

  /** The stick reading is odd about the centre and never falls as the channel rises. */
  lemma NormAxisMonotone(v: int, w: int)
    requires v <= w
    ensures NormAxis(v) <= NormAxis(w)
    ensures NormAxis(1984 - v) == -NormAxis(v)
  {
  }

  // ---- readings ----

  /** A stick of the latest good frame; all channels are zero before the first, and centred beyond the sixteenth. */
  function FrameAxis(last: seq<bv8>, n: nat): real {
    NormAxis(if n >= 16 then 992 else if Good(last) then Unpacked(last[1..])[n] as int else 0)
  }

  /** Height-set and arm readings of the latest good frame, of none at first. */
  function FrameHeight(last: seq<bv8>): real {
    FrameAxis(last, 2)
  }

  predicate FrameReady(last: seq<bv8>) {
    Good(last) && !LostBit(last[23]) && !FailsafeBit(last[23]) && Unpacked(last[1..])[4] < 992
  }

  /** Marks the frames whose readings are wanted. */
  predicate Wanted(last: seq<bv8>) {
    true
  }

  datatype Reader = Reader(height: seq<bv8> -> real, ready: seq<bv8> -> bool, axis: (seq<bv8>, nat) -> real) {
    /** It reads frames as the robot does. */
    ghost predicate ReadsFrames() {
      forall last: seq<bv8> {:trigger Wanted(last)} ::
        && height(last) == FrameHeight(last) && ready(last) == FrameReady(last)
        && forall n: nat :: axis(last, n) == FrameAxis(last, n)
    }
  }

  function RobotReader(): (r: Reader)
    ensures r.ReadsFrames()
  {
    Reader(FrameHeight, FrameReady, FrameAxis)
  }

  // ---- one tick ----

  const TIMEOUT_TICKS := 50
  const WORD := 0x1_0000_0000

  /** What one tick leaves behind: the parser, the watchdog, the latch, and the published readings. */
  datatype State = State(sbus: Parser, stale: nat, hold: bool, armed: bool, height: real) {
    predicate Valid() {
      sbus.Valid() && stale < WORD
    }
  }

  function Start(): (s: State)
    ensures s.Valid()
  {
    State(Parser([], [], false, false), 0, true, false, 0.0)
  }

  /** The watchdog counter after a tick. */
  function StaleTicks(stale: nat, received: bool): (n: nat)
    ensures n < WORD
  {
    if received then 0 else (stale + 1) % WORD
  }

  /** The link after a tick's bytes and the watchdog. */
  function Watched(p: Parser, stale: nat, bytes: seq<bv8>): (p': Parser)
    requires p.Valid()
    ensures p'.Valid()
  {
    var fed := FedAll(p, bytes);
    Parser(fed.buf, fed.last, fed.marked || (!fed.received && StaleTicks(stale, false) > TIMEOUT_TICKS), false)
  }

  predicate ArmedBy(r: Reader, p: Parser) {
    !p.marked && r.ready(p.last)
  }

  function Latched(hold: bool, armed: bool, height: real): bool {
    if !armed then true else hold && height != 0.0
  }

  function Ticked(r: Reader, s: State, bytes: seq<bv8>): (s': State)
    requires s.Valid()
    ensures s'.Valid()
  {
    var p := Watched(s.sbus, s.stale, bytes);
    var raw, armed := r.height(p.last), ArmedBy(r, p);
    var hold := Latched(s.hold, armed, raw);
    State(p, StaleTicks(s.stale, FedAll(s.sbus, bytes).received), hold, armed, if hold then 0.0 else raw)
  }

  lemma TickParts(r: Reader, s: State, bytes: seq<bv8>, s': State, raw: real)
    requires s.Valid() && s'.sbus == Watched(s.sbus, s.stale, bytes)
    requires s'.stale == StaleTicks(s.stale, FedAll(s.sbus, bytes).received)
    requires raw == r.height(s'.sbus.last) && s'.armed == ArmedBy(r, s'.sbus)
    requires s'.hold == Latched(s.hold, s'.armed, raw) && s'.height == if s'.hold then 0.0 else raw
    ensures s' == Ticked(r, s, bytes)
  {
  }

  class RadioThread {
    const sbus: SbusParser
    var stale: nat
    var hold: bool
    var armed: bool
    var height: real
    var yaw: real
    var speed: real
    var lean: real
    var modeSwitch: real

    ghost predicate Valid()
      reads this, sbus, sbus.ch
    {
      sbus.Valid() && stale < WORD
    }

    ghost function Abstract(): (s: State)
      requires Valid()
      reads this, sbus, sbus.buf, sbus.ch
      ensures s.Valid()
    {
      State(sbus.Abstract(), stale, hold, armed, height)
    }

    constructor ()
      ensures Valid() && fresh(sbus) && fresh(sbus.buf) && fresh(sbus.ch) && Abstract() == Start()
    {
      sbus := new SbusParser();
      stale, hold, armed, height := 0, true, false, 0.0;
      yaw, speed, lean, modeSwitch := 0.0, 0.0, 0.0, 0.0;
    }

    /** Drains the bytes and runs the watchdog. */
    method Watch(bytes: seq<bv8>)
      requires Valid()
      modifies this`stale, sbus, sbus.buf, sbus.ch
      ensures Valid() && sbus.Abstract() == Watched(old(sbus.Abstract()), old(stale), bytes)
      ensures stale == StaleTicks(old(stale), FedAll(old(sbus.Abstract()), bytes).received)
    {
      sbus.Update(bytes);
      var got := sbus.TakeFrameReceived();
      if got {
        stale := 0;
      } else {
        stale := (stale + 1) % WORD;
        if stale > TIMEOUT_TICKS {
          sbus.MarkStale();
        }
      }
    }

    method RadioArmed() returns (r: bool)
      requires Valid()
      ensures r == (!sbus.marked && FrameReady(sbus.last))
    {
      if sbus.lost || sbus.failsafe { return false; }
      return sbus.ch[4] < 992;
    }

    method RadioHeightSet() returns (h: real)
      requires Valid()
      ensures h == FrameHeight(sbus.last)
    {
      h := NormAxis(sbus.ch[2] as int);
    }

    /** The readings a tick publishes. */
    method Observe(ghost r: Reader) returns (armedNow: bool, raw: real)
      requires Valid() && r.ReadsFrames()
      ensures armedNow == ArmedBy(r, sbus.Abstract()) && raw == r.height(sbus.last)
    {
      assert Wanted(sbus.last);
      raw := RadioHeightSet();
      armedNow := RadioArmed();
    }

    /** One pass of the loop. */
    method Tick(bytes: seq<bv8>, ghost r: Reader)
      requires Valid() && r.ReadsFrames()
      modifies this, sbus, sbus.buf, sbus.ch
      ensures Valid() && Abstract() == Ticked(r, old(Abstract()), bytes) && Sticks(r)
    {
      ghost var before := Abstract();
      Watch(bytes);
      var armedNow, raw := Observe(r);
      Publish(armedNow, raw);
      PublishSticks(r);
      TickParts(r, before, bytes, Abstract(), raw);
    }

    /** The sticks published are those of the latest good frame, the speed stick inverted. */
    ghost predicate Sticks(r: Reader)
      reads this, sbus
    {
      && yaw == r.axis(sbus.last, 0) && speed == -r.axis(sbus.last, 1)
      && lean == r.axis(sbus.last, 3) && modeSwitch == r.axis(sbus.last, 6)
    }

    method PublishSticks(ghost r: Reader)
      requires Valid() && r.ReadsFrames()
      modifies this`yaw, this`speed, this`lean, this`modeSwitch
      ensures Sticks(r)
    {
      assert Wanted(sbus.last);
      yaw, speed := NormAxis(sbus.ch[0] as int), -NormAxis(sbus.ch[1] as int);
      lean, modeSwitch := NormAxis(sbus.ch[3] as int), NormAxis(sbus.ch[6] as int);
    }

    method Publish(armedNow: bool, raw: real)
      modifies this`hold, this`armed, this`height
      ensures hold == Latched(old(hold), armedNow, raw)
      ensures armed == armedNow && height == if hold then 0.0 else raw
    {
      if !armedNow {
        hold := true;
      } else if hold && raw == 0.0 {
        hold := false;
      }
      height := if hold then 0.0 else raw;
      armed := armedNow;
    }
  }

  // ---- runs ----

  /** The state after the given ticks, each with the bytes that had arrived. */
  function After(r: Reader, ticks: seq<seq<bv8>>): (s: State)
    ensures s.Valid()
  {
    if |ticks| == 0 then Start() else Ticked(r, After(r, ticks[..|ticks| - 1]), ticks[|ticks| - 1])
  }

  /** The good frames completed in the last tick. */
  function FramesInLast(r: Reader, ticks: seq<seq<bv8>>): seq<seq<bv8>>
    requires |ticks| > 0
  {
    Frames(After(r, ticks[..|ticks| - 1]).sbus, ticks[|ticks| - 1])
  }

  /** The latest good frame of the whole run. */
  function Latest(r: Reader, ticks: seq<seq<bv8>>): seq<bv8> {
    if |ticks| == 0 then [] else LastOf(FramesInLast(r, ticks), Latest(r, ticks[..|ticks| - 1]))
  }

  /** Ticks since one in which a good frame arrived, or since the start. */
  function Age(r: Reader, ticks: seq<seq<bv8>>): nat {
    if |ticks| == 0 then 0 else if |FramesInLast(r, ticks)| > 0 then 0 else Age(r, ticks[..|ticks| - 1]) + 1
  }

  lemma WatchedHistory(p: Parser, stale: nat, bytes: seq<bv8>, age: nat, age': nat)
    requires p.Valid() && !p.received && stale == age % WORD && (p.marked <==> age > TIMEOUT_TICKS)
    requires age' == if |Frames(p, bytes)| > 0 then 0 else age + 1
    ensures var (p', stale') := (Watched(p, stale, bytes), StaleTicks(stale, FedAll(p, bytes).received));
            && p'.last == LastOf(Frames(p, bytes), p.last)
            && stale' == age' % WORD && (p'.marked <==> age' > TIMEOUT_TICKS)
  {
    LastFrameWins(p, bytes);
  }

  lemma {:induction false} LinkHistory(r: Reader, ticks: seq<seq<bv8>>)
    ensures var s := After(r, ticks);
            && s.sbus.last == Latest(r, ticks) && !s.sbus.received
            && s.stale == Age(r, ticks) % WORD
            && (s.sbus.marked <==> Age(r, ticks) > TIMEOUT_TICKS)
  {
    if |ticks| > 0 {
      var before, bytes := ticks[..|ticks| - 1], ticks[|ticks| - 1];
      LinkHistory(r, before);
      WatchedHistory(After(r, before).sbus, After(r, before).stale, bytes, Age(r, before), Age(r, ticks));
    }
  }

  /**
   The robot is armed exactly when a good frame has arrived at most 50 ticks ago and the latest one
   reads as ready: both fault flags clear and the arm channel low.
   */
  lemma ArmedExactly(r: Reader, ticks: seq<seq<bv8>>)
    requires |ticks| > 0
    ensures After(r, ticks).armed <==> r.ready(Latest(r, ticks)) && Age(r, ticks) <= TIMEOUT_TICKS
  {
    LinkHistory(r, ticks);
  }

  predicate NoFrameInLast(r: Reader, ticks: seq<seq<bv8>>)
    requires |ticks| > 0
  {
    |FramesInLast(r, ticks)| == 0
  }

  /** No good frame has arrived in any of the last m ticks. */
  predicate Silent(r: Reader, ticks: seq<seq<bv8>>, m: nat) {
    m <= |ticks| && forall k :: |ticks| - m < k <= |ticks| ==> NoFrameInLast(r, ticks[..k])
  }

  lemma {:induction false} SilentNext(r: Reader, ticks: seq<seq<bv8>>, m: nat)
    requires |ticks| > 0 && m > 0
    ensures Silent(r, ticks, m) <==> NoFrameInLast(r, ticks) && Silent(r, ticks[..|ticks| - 1], m - 1)
  {
    var before := ticks[..|ticks| - 1];
    assert ticks[..|ticks|] == ticks;
    assert forall k :: 0 <= k <= |before| ==> before[..k] == ticks[..k];
  }

  /** The age counts the silent ticks. */
  lemma {:induction false} SilentExactly(r: Reader, ticks: seq<seq<bv8>>, m: nat)
    ensures Age(r, ticks) >= m <==> Silent(r, ticks, m)
  {
    if |ticks| > 0 && m > 0 {
      SilentExactly(r, ticks[..|ticks| - 1], m - 1);
      SilentNext(r, ticks, m);
      assert Age(r, ticks) == if NoFrameInLast(r, ticks) then Age(r, ticks[..|ticks| - 1]) + 1 else 0;
    }
  }

  // ---- the height latch ----

  datatype Reading = Reading(armed: bool, height: real)

  /** The latch after the readings. */
  function Hold(readings: seq<Reading>): bool {
    if |readings| == 0 then true
    else Latched(Hold(readings[..|readings| - 1]), readings[|readings| - 1].armed, readings[|readings| - 1].height)
  }

  /** The stick was exactly zero in tick j, and every tick from j to the end was armed. */
  predicate ZeroedAt(readings: seq<Reading>, j: nat)
    requires j < |readings|
  {
    readings[j].height == 0.0 && forall i :: j <= i < |readings| ==> readings[i].armed
  }

  /** The latch is open exactly when, with no disarmed tick since, some armed tick read exactly zero. */
  lemma {:induction false} LatchHistory(readings: seq<Reading>)
    ensures !Hold(readings) <==> exists j: nat :: j < |readings| && ZeroedAt(readings, j)
  {
    if |readings| > 0 {
      var before, n := readings[..|readings| - 1], |readings| - 1;
      LatchHistory(before);
      if !Hold(readings) {
        if readings[n].height == 0.0 {
          assert ZeroedAt(readings, n);
        } else {
          var j: nat :| j < |before| && ZeroedAt(before, j);
          assert ZeroedAt(readings, j);
        }
      }
      if j: nat :| j < |readings| && ZeroedAt(readings, j) {
        assert readings[n].armed;
        if j < n {
          assert ZeroedAt(before, j);
        }
      }
    }
  }

  function Readings(r: Reader, ticks: seq<seq<bv8>>): (readings: seq<Reading>)
    ensures |readings| == |ticks|
  {
    if |ticks| == 0 then []
    else Readings(r, ticks[..|ticks| - 1]) + [Reading(After(r, ticks).armed, r.height(After(r, ticks).sbus.last))]
  }

  lemma {:induction false} HoldHistory(r: Reader, ticks: seq<seq<bv8>>)
    ensures After(r, ticks).hold == Hold(Readings(r, ticks))
  {
    if |ticks| > 0 {
      var before := ticks[..|ticks| - 1];
      HoldHistory(r, before);
      assert Readings(r, ticks)[..|ticks| - 1] == Readings(r, before);
    }
  }

  /**
   A nonzero height target needs an armed tick since the last disarmed one that read the stick as
   exactly zero, and then is the stick's own reading.
   */
  lemma HeightTarget(r: Reader, ticks: seq<seq<bv8>>)
    requires |ticks| > 0
    ensures var (s, readings) := (After(r, ticks), Readings(r, ticks));
            if exists j: nat :: j < |readings| && ZeroedAt(readings, j)
            then s.height == r.height(Latest(r, ticks)) else s.height == 0.0
  {
    LinkHistory(r, ticks);
    HoldHistory(r, ticks);
    LatchHistory(Readings(r, ticks));
  }

  // ---- the robot's readings ----

  /** For the robot: armed means a fault-free frame with the arm channel low within the last 50 ticks. */
  lemma RobotArmed(ticks: seq<seq<bv8>>)
    requires |ticks| > 0
    ensures var f := Latest(RobotReader(), ticks);
            After(RobotReader(), ticks).armed <==>
              && Good(f) && !LostBit(f[23]) && !FailsafeBit(f[23]) && Unpacked(f[1..])[4] < 992
              && Age(RobotReader(), ticks) <= TIMEOUT_TICKS
  {
    ArmedExactly(RobotReader(), ticks);
  }
}
