/** The SBUS receiver: eleven-bit packing, the byte-by-byte framer, and what it publishes. */
module Sbus {
  const START: bv8 := 0x0F
  const FOOTER: bv8 := 0x00
  const FRAME_SIZE := 25

  // ---- packing ----

  /** Sixteen values of eleven bits. */
  predicate Channels(v: seq<bv16>) {
    |v| == 16 && forall n :: 0 <= n < 16 ==> v[n] < 0x800
  }

  /** Eight bits of the channels' bit string from bit 8·i on; the lowest bit comes first. */
  function PackedWord(v: seq<bv16>, i: nat): bv16
    requires |v| == 16 && i < 22
  {
    match i
    case 0 => v[0]
    case 1 => ((v[0] >> 8) | (v[1] << 3))
    case 2 => ((v[1] >> 5) | (v[2] << 6))
    case 3 => v[2] >> 2
    case 4 => ((v[2] >> 10) | (v[3] << 1))
    case 5 => ((v[3] >> 7) | (v[4] << 4))
    case 6 => ((v[4] >> 4) | (v[5] << 7))
    case 7 => v[5] >> 1
    case 8 => ((v[5] >> 9) | (v[6] << 2))
    case 9 => ((v[6] >> 6) | (v[7] << 5))
    case 10 => v[7] >> 3
    case 11 => v[8]
    case 12 => ((v[8] >> 8) | (v[9] << 3))
    case 13 => ((v[9] >> 5) | (v[10] << 6))
    case 14 => v[10] >> 2
    case 15 => ((v[10] >> 10) | (v[11] << 1))
    case 16 => ((v[11] >> 7) | (v[12] << 4))
    case 17 => ((v[12] >> 4) | (v[13] << 7))
    case 18 => v[13] >> 1
    case 19 => ((v[13] >> 9) | (v[14] << 2))
    case 20 => ((v[14] >> 6) | (v[15] << 5))
    case _ => v[15] >> 3
  }

  function PackedByte(v: seq<bv16>, i: nat): bv8
    requires |v| == 16 && i < 22
  {
    (PackedWord(v, i) & 0xFF) as bv8
  }

  /** The transmitter's 22 payload bytes. */
  function Packed(v: seq<bv16>): (data: seq<bv8>)
    requires |v| == 16
    ensures |data| == 22 && forall i :: 0 <= i < 22 ==> data[i] == PackedByte(v, i)
  {
    seq(22, i requires 0 <= i < 22 => PackedByte(v, i))
  }

  function ShiftRight(w: bv32, sh: nat): bv32
    requires sh < 8
  {
    match sh
    case 0 => w
    case 1 => w >> 1
    case 2 => w >> 2
    case 3 => w >> 3
    case 4 => w >> 4
    case 5 => w >> 5
    case 6 => w >> 6
    case _ => w >> 7
  }

  /** Eleven bits of three bytes from bit sh on. */
  function Extract(a: bv8, b: bv8, c: bv8, sh: nat): (r: bv16)
    requires sh < 8
  {
    var w := (a as bv32) | ((b as bv32) << 8) | ((c as bv32) << 16);
    (ShiftRight(w, sh) & 0x7FF) as bv16
  }

  /** Channel n of a payload and the flags byte after it. */
  function UnpackedChannel(data: seq<bv8>, n: nat): bv16
    requires |data| >= 23 && n < 16
  {
    var bit := n * 11;
    Extract(data[bit / 8], data[bit / 8 + 1], data[bit / 8 + 2], bit % 8)
  }

  function Unpacked(data: seq<bv8>): (v: seq<bv16>)
    requires |data| >= 23
    ensures |v| == 16 && forall n :: 0 <= n < 16 ==> v[n] == UnpackedChannel(data, n)
  {
    seq(16, n requires 0 <= n < 16 => UnpackedChannel(data, n))
  }

  lemma Channel0(v: seq<bv16>, f: bv8)
    requires Channels(v)
    ensures Extract(PackedByte(v, 0), PackedByte(v, 1), PackedByte(v, 2), 0) == v[0]
  {
  }

  lemma Channel1(v: seq<bv16>, f: bv8)
    requires Channels(v)
    ensures Extract(PackedByte(v, 1), PackedByte(v, 2), PackedByte(v, 3), 3) == v[1]
  {
  }

  lemma Channel2(v: seq<bv16>, f: bv8)
    requires Channels(v)
    ensures Extract(PackedByte(v, 2), PackedByte(v, 3), PackedByte(v, 4), 6) == v[2]
  {
  }

  lemma Channel3(v: seq<bv16>, f: bv8)
    requires Channels(v)
    ensures Extract(PackedByte(v, 4), PackedByte(v, 5), PackedByte(v, 6), 1) == v[3]
  {
  }

  lemma Channel4(v: seq<bv16>, f: bv8)
    requires Channels(v)
    ensures Extract(PackedByte(v, 5), PackedByte(v, 6), PackedByte(v, 7), 4) == v[4]
  {
  }

  lemma Channel5(v: seq<bv16>, f: bv8)
    requires Channels(v)
    ensures Extract(PackedByte(v, 6), PackedByte(v, 7), PackedByte(v, 8), 7) == v[5]
  {
  }

  lemma Channel6(v: seq<bv16>, f: bv8)
    requires Channels(v)
    ensures Extract(PackedByte(v, 8), PackedByte(v, 9), PackedByte(v, 10), 2) == v[6]
  {
  }

  lemma Channel7(v: seq<bv16>, f: bv8)
    requires Channels(v)
    ensures Extract(PackedByte(v, 9), PackedByte(v, 10), PackedByte(v, 11), 5) == v[7]
  {
  }

  lemma Channel8(v: seq<bv16>, f: bv8)
    requires Channels(v)
    ensures Extract(PackedByte(v, 11), PackedByte(v, 12), PackedByte(v, 13), 0) == v[8]
  {
  }

  lemma Channel9(v: seq<bv16>, f: bv8)
    requires Channels(v)
    ensures Extract(PackedByte(v, 12), PackedByte(v, 13), PackedByte(v, 14), 3) == v[9]
  {
  }

  lemma Channel10(v: seq<bv16>, f: bv8)
    requires Channels(v)
    ensures Extract(PackedByte(v, 13), PackedByte(v, 14), PackedByte(v, 15), 6) == v[10]
  {
  }

  lemma Channel11(v: seq<bv16>, f: bv8)
    requires Channels(v)
    ensures Extract(PackedByte(v, 15), PackedByte(v, 16), PackedByte(v, 17), 1) == v[11]
  {
  }

  lemma Channel12(v: seq<bv16>, f: bv8)
    requires Channels(v)
    ensures Extract(PackedByte(v, 16), PackedByte(v, 17), PackedByte(v, 18), 4) == v[12]
  {
  }

  lemma Channel13(v: seq<bv16>, f: bv8)
    requires Channels(v)
    ensures Extract(PackedByte(v, 17), PackedByte(v, 18), PackedByte(v, 19), 7) == v[13]
  {
  }

  lemma Channel14(v: seq<bv16>, f: bv8)
    requires Channels(v)
    ensures Extract(PackedByte(v, 19), PackedByte(v, 20), PackedByte(v, 21), 2) == v[14]
  {
  }

  lemma Channel15(v: seq<bv16>, f: bv8)
    requires Channels(v)
    ensures Extract(PackedByte(v, 20), PackedByte(v, 21), f, 5) == v[15]
  {
  }

  lemma {:induction false} LowChannel(v: seq<bv16>, flags: bv8, data: seq<bv8>, n: nat)
    requires Channels(v) && data == Packed(v) + [flags] && n < 8
    ensures UnpackedChannel(data, n) == v[n]
  {
    match n
    case 0 => Channel0(v, flags);
    case 1 => Channel1(v, flags);
    case 2 => Channel2(v, flags);
    case 3 => Channel3(v, flags);
    case 4 => Channel4(v, flags);
    case 5 => Channel5(v, flags);
    case 6 => Channel6(v, flags);
    case _ => Channel7(v, flags);
  }

  lemma {:induction false} HighChannel(v: seq<bv16>, flags: bv8, data: seq<bv8>, n: nat)
    requires Channels(v) && data == Packed(v) + [flags] && 8 <= n < 16
    ensures UnpackedChannel(data, n) == v[n]
  {
    match n
    case 8 => Channel8(v, flags);
    case 9 => Channel9(v, flags);
    case 10 => Channel10(v, flags);
    case 11 => Channel11(v, flags);
    case 12 => Channel12(v, flags);
    case 13 => Channel13(v, flags);
    case 14 => Channel14(v, flags);
    case _ => Channel15(v, flags);
  }

  /** Unpacking returns the packed values, whatever the flags byte that it also reads. */
  lemma {:induction false} PackingRoundTrip(v: seq<bv16>, flags: bv8)
    requires Channels(v)
    ensures Unpacked(Packed(v) + [flags]) == v
  {
    var data := Packed(v) + [flags];
    forall n: nat | n < 16 ensures UnpackedChannel(data, n) == v[n] {
      if n < 8 {
        LowChannel(v, flags, data, n);
      } else {
        HighChannel(v, flags, data, n);
      }
    }
  }

  // ---- the framer over values ----

  predicate Good(frame: seq<bv8>) {
    |frame| == FRAME_SIZE && frame[24] == FOOTER
  }

  /**
   buf holds the bytes of the frame so far, none between frames; last is the latest good frame, none at
   first; marked says that the link has been declared stale since.
   */
  datatype Parser = Parser(buf: seq<bv8>, last: seq<bv8>, marked: bool, received: bool) {
    predicate Valid() {
      |buf| < FRAME_SIZE && (last == [] || Good(last))
    }
  }

  function Fed(p: Parser, byte: bv8): (p': Parser)
    requires p.Valid()
    ensures p'.Valid()
  {
    if |p.buf| == 0 then (if byte == START then p.(buf := [byte]) else p)
    else
      var frame := p.buf + [byte];
      if |frame| < FRAME_SIZE then p.(buf := frame)
      else if Good(frame) then Parser([], frame, false, true)
      else p.(buf := [])
  }

  function FedAll(p: Parser, bytes: seq<bv8>): (p': Parser)
    requires p.Valid()
    ensures p'.Valid()
    decreases |bytes|
  {
    if |bytes| == 0 then p else FedAll(Fed(p, bytes[0]), bytes[1..])
  }

  /** The good frames completed by a byte, and by a byte string. */
  function Completed(p: Parser, byte: bv8): (frames: seq<seq<bv8>>)
    requires p.Valid()
  {
    if |p.buf| == FRAME_SIZE - 1 && Good(p.buf + [byte]) then [p.buf + [byte]] else []
  }

  function Frames(p: Parser, bytes: seq<bv8>): (frames: seq<seq<bv8>>)
    requires p.Valid()
    decreases |bytes|
  {
    if |bytes| == 0 then [] else Completed(p, bytes[0]) + Frames(Fed(p, bytes[0]), bytes[1..])
  }

  lemma {:induction false} FedConcat(p: Parser, a: seq<bv8>, b: seq<bv8>)
    requires p.Valid()
    ensures FedAll(p, a + b) == FedAll(FedAll(p, a), b)
    ensures Frames(p, a + b) == Frames(p, a) + Frames(FedAll(p, a), b)
    decreases |a|
  {
    if |a| == 0 {
      assert a + b == b;
    } else {
      assert (a + b)[1..] == a[1..] + b;
      FedConcat(Fed(p, a[0]), a[1..], b);
    }
  }

  function LastOf(frames: seq<seq<bv8>>, last: seq<bv8>): seq<bv8> {
    if |frames| == 0 then last else frames[|frames| - 1]
  }

  /** After any bytes the latest good frame is the last one completed, and only a frame unmarks the link. */
  lemma {:induction false} LastFrameWins(p: Parser, bytes: seq<bv8>)
    requires p.Valid()
    ensures var (frames, p') := (Frames(p, bytes), FedAll(p, bytes));
            && p'.last == LastOf(frames, p.last)
            && p'.marked == (p.marked && |frames| == 0)
            && p'.received == (p.received || |frames| > 0)
    decreases |bytes|
  {
    if |bytes| > 0 {
      LastFrameWins(Fed(p, bytes[0]), bytes[1..]);
    }
  }

  // ---- frames between gaps ----

  /** Bytes that cannot start a frame. */
  predicate Quiet(gap: seq<bv8>) {
    forall i :: 0 <= i < |gap| ==> gap[i] != START
  }

  predicate IsFrame(frame: seq<bv8>) {
    |frame| == FRAME_SIZE && frame[0] == START
  }

  lemma {:induction false} QuietIgnored(p: Parser, gap: seq<bv8>)
    requires p.Valid() && p.buf == [] && Quiet(gap)
    ensures FedAll(p, gap) == p && Frames(p, gap) == []
    decreases |gap|
  {
    if |gap| > 0 {
      QuietIgnored(p, gap[1..]);
    }
  }

  /** Inside a frame every byte is taken as it comes, the start byte too. */
  lemma {:induction false} Collecting(p: Parser, bytes: seq<bv8>)
    requires p.Valid() && 0 < |p.buf| && |p.buf| + |bytes| < FRAME_SIZE
    ensures FedAll(p, bytes) == p.(buf := p.buf + bytes) && Frames(p, bytes) == []
    decreases |bytes|
  {
    if |bytes| == 0 {
      assert p.buf + bytes == p.buf;
    } else {
      var next := Fed(p, bytes[0]);
      Collecting(next, bytes[1..]);
      assert next.buf + bytes[1..] == p.buf + bytes;
    }
  }

  /** A frame from between frames is published exactly if its footer is good. */
  lemma FrameTaken(p: Parser, frame: seq<bv8>)
    requires p.Valid() && p.buf == [] && IsFrame(frame)
    ensures FedAll(p, frame) == if Good(frame) then Parser([], frame, false, true) else p
    ensures Frames(p, frame) == if Good(frame) then [frame] else []
  {
    var first, middle, last := frame[..1], frame[1..24], frame[24..];
    assert frame == first + (middle + last);
    FedConcat(p, first, middle + last);
    var p1 := FedAll(p, first);
    assert first[1..] == [];
    FedConcat(p1, middle, last);
    Collecting(p1, middle);
    var p2 := FedAll(p1, middle);
    assert p2.buf == first + middle;
    assert p2.buf + [last[0]] == frame;
    assert last[1..] == [];
  }

  datatype Burst = Burst(gap: seq<bv8>, frame: seq<bv8>)

  predicate AreBursts(bursts: seq<Burst>) {
    forall i :: 0 <= i < |bursts| ==> Quiet(bursts[i].gap) && IsFrame(bursts[i].frame)
  }

  function BytesOf(bursts: seq<Burst>): seq<bv8> {
    if |bursts| == 0 then [] else bursts[0].gap + bursts[0].frame + BytesOf(bursts[1..])
  }

  function GoodFrames(bursts: seq<Burst>): seq<seq<bv8>> {
    if |bursts| == 0 then []
    else (if Good(bursts[0].frame) then [bursts[0].frame] else []) + GoodFrames(bursts[1..])
  }

  /**
   From between frames, any frames separated by bytes that cannot start one publish exactly those with
   a good footer, in order, and end between frames.
   */
  lemma {:induction false} BurstsPublished(p: Parser, bursts: seq<Burst>)
    requires p.Valid() && p.buf == [] && AreBursts(bursts)
    ensures Frames(p, BytesOf(bursts)) == GoodFrames(bursts)
    ensures FedAll(p, BytesOf(bursts)).buf == []
    decreases |bursts|
  {
    if |bursts| > 0 {
      var b, rest := bursts[0], BytesOf(bursts[1..]);
      assert b.gap + b.frame + rest == b.gap + (b.frame + rest);
      FedConcat(p, b.gap, b.frame + rest);
      QuietIgnored(p, b.gap);
      FedConcat(p, b.frame, rest);
      FrameTaken(p, b.frame);
      BurstsPublished(FedAll(p, b.frame), bursts[1..]);
    }
  }

  // ---- the parser object ----

  function Silence(): (v: seq<bv16>)
    ensures |v| == 16 && forall n :: 0 <= n < 16 ==> v[n] == 0
  {
    [0, 0, 0, 0, 0, 0, 0, 0, 0, 0, 0, 0, 0, 0, 0, 0]
  }

  predicate LostBit(flags: bv8) {
    (flags >> 2) & 1 == 1
  }

  predicate FailsafeBit(flags: bv8) {
    (flags >> 3) & 1 == 1
  }

  /** The channels and flags a parser state shows. */
  function ChannelsOf(last: seq<bv8>): seq<bv16>
    requires last == [] || Good(last)
  {
    if last == [] then Silence() else Unpacked(last[1..])
  }

  predicate Lost(last: seq<bv8>, marked: bool)
    requires last == [] || Good(last)
  {
    marked || last == [] || LostBit(last[23])
  }

  predicate Failsafe(last: seq<bv8>, marked: bool)
    requires last == [] || Good(last)
  {
    marked || last == [] || FailsafeBit(last[23])
  }

  class SbusParser {
    var inFrame: bool
    const buf: array<bv8>
    var count: nat
    const ch: array<bv16>
    var lost: bool
    var failsafe: bool
    var received: bool
    ghost var last: seq<bv8>
    ghost var marked: bool

    ghost predicate Valid()
      reads this, ch
    {
      && buf.Length == FRAME_SIZE && ch.Length == 16 && count < FRAME_SIZE && (inFrame <==> count > 0)
      && (last == [] || Good(last))
      && ch[..] == ChannelsOf(last) && lost == Lost(last, marked) && failsafe == Failsafe(last, marked)
    }

    ghost function Abstract(): (p: Parser)
      requires Valid()
      reads this, buf, ch
      ensures p.Valid()
    {
      Parser(buf[..count], last, marked, received)
    }

    constructor ()
      ensures Valid() && fresh(buf) && fresh(ch)
      ensures Abstract() == Parser([], [], false, false)
    {
      inFrame, count, lost, failsafe, received := false, 0, true, true, false;
      last, marked := [], false;
      buf := new bv8[FRAME_SIZE];
      ch := new bv16[16];
      new;
      forall n | 0 <= n < 16 { ch[n] := 0; }
      assert ch[..] == Silence();
    }

    method Unpack(data: seq<bv8>)
      requires ch.Length == 16 && |data| >= 23
      modifies ch
      ensures ch[..] == Unpacked(data)
    {
      for n := 0 to 16
        invariant forall k :: 0 <= k < n ==> ch[k] == UnpackedChannel(data, k)
      {
        var bit := n * 11;
        ch[n] := Extract(data[bit / 8], data[bit / 8 + 1], data[bit / 8 + 2], bit % 8);
      }
    }

    /** One byte of the stream. */
    method Feed(byte: bv8)
      requires Valid()
      modifies this, buf, ch
      ensures Valid() && Abstract() == Fed(old(Abstract()), byte)
    {
      if !inFrame {
        if byte == START {
          buf[0] := byte;
          count := 1;
          inFrame := true;
        }
      } else {
        ghost var frame := buf[..count] + [byte];
        buf[count] := byte;
        count := count + 1;
        assert buf[..count] == frame;
        if count == FRAME_SIZE {
          assert buf[..] == frame;
          if buf[24] == FOOTER {
            Publish();
          }
          inFrame := false;
          count := 0;
        }
      }
    }

    method Publish()
      requires buf.Length == FRAME_SIZE && ch.Length == 16 && Good(buf[..])
      modifies this, ch
      ensures last == buf[..] && !marked && received && inFrame == old(inFrame) && count == old(count)
      ensures ch[..] == ChannelsOf(last) && lost == Lost(last, marked) && failsafe == Failsafe(last, marked)
    {
      last, marked := buf[..], false;
      assert buf[1..] == buf[..][1..];
      Unpack(buf[1..]);
      lost := LostBit(buf[23]);
      failsafe := FailsafeBit(buf[23]);
      received := true;
    }

    /** Drains the waiting bytes; every index stays in bounds whatever they are. */
    method Update(bytes: seq<bv8>)
      requires Valid()
      modifies this, buf, ch
      ensures Valid() && Abstract() == FedAll(old(Abstract()), bytes)
    {
      for i := 0 to |bytes|
        invariant Valid() && FedAll(Abstract(), bytes[i..]) == FedAll(old(Abstract()), bytes)
      {
        assert bytes[i..][1..] == bytes[i + 1..];
        Feed(bytes[i]);
      }
    }

    method Channel(n: nat) returns (v: bv16)
      requires Valid()
      ensures v == if n < 16 then ch[n] else 992
    {
      return if n < 16 then ch[n] else 992;
    }

    method TakeFrameReceived() returns (r: bool)
      requires Valid()
      modifies this`received
      ensures Valid() && r == old(received) && Abstract() == old(Abstract()).(received := false)
    {
      r := received;
      received := false;
    }

    method MarkStale()
      requires Valid()
      modifies this`lost, this`failsafe, this`marked
      ensures Valid() && lost && failsafe && Abstract() == old(Abstract()).(marked := true)
    {
      lost, failsafe := true, true;
      marked := true;
    }
  }
}
