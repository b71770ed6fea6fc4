/** From the transmitter's sticks to the robot's readings. */
module Transmitter {
  import opened Sbus
  import opened Radio

  // ---- a frame as the transmitter builds it ----

  /** The flags byte: two digital channels, then frame lost and failsafe, from the lowest bit on. */
  function FlagsByte(ch17: bool, ch18: bool, lost: bool, failsafe: bool): bv8 {
    (if ch17 then 1 else 0) + (if ch18 then 2 else 0) + (if lost then 4 else 0) + (if failsafe then 8 else 0)
  }

  lemma {:induction false} FlagsRead(ch17: bool, ch18: bool, lost: bool, failsafe: bool)
    ensures LostBit(FlagsByte(ch17, ch18, lost, failsafe)) <==> lost
    ensures FailsafeBit(FlagsByte(ch17, ch18, lost, failsafe)) <==> failsafe
  {
  }

  function SentFrame(v: seq<bv16>, flags: bv8): (frame: seq<bv8>)
    requires |v| == 16
    ensures IsFrame(frame) && Good(frame) && frame[23] == flags && frame[1..] == Packed(v) + [flags] + [FOOTER]
  {
    [START] + (Packed(v) + [flags] + [FOOTER])
  }

  lemma {:induction false} FooterUnread(data: seq<bv8>, rest: seq<bv8>)
    requires |data| == 23
    ensures Unpacked(data + rest) == Unpacked(data)
  {
    forall n: nat | n < 16 ensures UnpackedChannel(data + rest, n) == UnpackedChannel(data, n) {
    }
  }

  /** A frame sent between frames is the parser's latest, with the channels and flags that were sent. */
  lemma {:induction false} FrameHeard(p: Parser, v: seq<bv16>, flags: bv8, p': Parser)
    requires p.Valid() && p.buf == [] && Channels(v) && p' == FedAll(p, SentFrame(v, flags))
    ensures p' == Parser([], SentFrame(v, flags), false, true)
    ensures Unpacked(p'.last[1..]) == v && p'.last[23] == flags
  {
    FrameTaken(p, SentFrame(v, flags));
    FooterUnread(Packed(v) + [flags], [FOOTER]);
    PackingRoundTrip(v, flags);
  }

  // ---- the sticks ----

  /** Counts outside the dead band, from its edges at 41 to full deflection at 819. */
  function Beyond(v: int): real {
    if v > 992 then (v - 992) as real - 40.95 else (v - 992) as real + 40.95
  }

  /** The stick reading is linear on either side of the dead band. */
  lemma {:induction false} NormAxisLinear(v: int)
    ensures v <= 951 || v >= 1033 ==> NormAxis(v) * 778.05 == Beyond(v)
    ensures 952 <= v <= 1032 ==> NormAxis(v) == 0.0
  {
  }

  /** A pass of the radio thread that hears such a frame is armed by its switch and flags alone, and reads its channels. */
  lemma {:induction false} PassHears(s: State, v: seq<bv16>, ch17: bool, ch18: bool, lost: bool, failsafe: bool, s': State)
    requires s.Valid() && s.sbus.buf == [] && Channels(v)
    requires s' == Ticked(RobotReader(), s, SentFrame(v, FlagsByte(ch17, ch18, lost, failsafe)))
    ensures s'.armed <==> !lost && !failsafe && v[4] < 992
    ensures s'.stale == 0 && s'.sbus.buf == []
    ensures forall n :: 0 <= n < 16 ==> FrameAxis(s'.sbus.last, n) == NormAxis(v[n] as int)
    ensures FrameHeight(s'.sbus.last) == NormAxis(v[2] as int)
  {
    FlagsRead(ch17, ch18, lost, failsafe);
    FrameHeard(s.sbus, v, FlagsByte(ch17, ch18, lost, failsafe), FedAll(s.sbus, SentFrame(v, FlagsByte(ch17, ch18, lost, failsafe))));
  }
}
