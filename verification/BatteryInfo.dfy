/** Two-frame reassembly of the battery message, and its half-precision values. */
module BatteryInfo {
  import opened Basics

  // ---- half and single precision (section 3.4 of IEEE 754-2019) ----

  datatype Number = NaN | Infinite(negative: bool) | Finite(value: real)

  function Pow2(k: int): (r: real)
    ensures r > 0.0
    decreases if k < 0 then -k else k
  {
    if k == 0 then 1.0 else if k > 0 then 2.0 * Pow2(k - 1) else Pow2(k + 1) / 2.0
  }

  function Signed(negative: bool, x: real): real {
    if negative then -x else x
  }

  /** The number of given sign, biased exponent and fraction out of 2^width, for bias and largest exponent. */
  function NumberOf(negative: bool, e: int, fraction: real, bias: int, top: int): Number {
    if e == top then (if fraction == 0.0 then Infinite(negative) else NaN)
    else if e == 0 then Finite(Signed(negative, Pow2(1 - bias) * fraction))
    else Finite(Signed(negative, Pow2(e - bias) * (1.0 + fraction)))
  }

  function SignField(h: bv16): bv32 {
    ((h as bv32) >> 15) & 1
  }

  function ExponentField(h: bv16): bv32 {
    ((h as bv32) >> 10) & 0x1F
  }

  function FractionField(h: bv16): bv32 {
    (h as bv32) & 0x3FF
  }

  function Half(h: bv16): Number {
    NumberOf(SignField(h) == 1, ExponentField(h) as int, (FractionField(h) as int) as real / 1024.0, 15, 31)
  }

  function Single(b: bv32): Number {
    NumberOf((b >> 31) & 1 == 1, ((b >> 23) & 0xFF) as int, ((b & 0x7FFFFF) as int) as real / 8388608.0, 127, 255)
  }

  /** The code's conversion, on bit patterns. */
  function HalfToSingle(h: bv16): bv32 {
    var s, e, m := SignField(h), ExponentField(h), FractionField(h);
    if e == 31 then 0x7FC00000
    else if e == 0 then (if s == 1 then 0x80000000 else 0)
    else (s << 31) | ((e + 112) << 23) | (m << 13)
  }

  lemma Rebiased(negative: bool, e: int, f: real)
    requires 0 < e < 31
    ensures NumberOf(negative, e + 112, f, 127, 255) == NumberOf(negative, e, f, 15, 31)
  {
  }

  lemma ConvertedNumber(s: bv32, e: bv32, m: bv32, b: bv32, ei: int, f: real)
    requires s < 2 && 0 < e < 31 && m < 1024 && b == (s << 31) | ((e + 112) << 23) | (m << 13)
    requires 0 < ei < 31 && ei == e as int && f == (m as int) as real / 1024.0
    ensures Single(b) == NumberOf(s == 1, ei, f, 15, 31)
  {
    Rebiased(s == 1, ei, f);
  }

  lemma NormalPattern(h: bv16, s: bv32, e: bv32, m: bv32)
    requires s == SignField(h) && e == ExponentField(h) && m == FractionField(h) && e != 0 && e != 31
    ensures HalfToSingle(h) == (s << 31) | ((e + 112) << 23) | (m << 13)
    ensures s < 2 && 0 < e < 31 && m < 1024
  {
  }

  /** A normal half keeps its value. */
  lemma NormalKept(h: bv16, s: bv32, e: bv32, m: bv32, ei: int, f: real)
    requires s == SignField(h) && e == ExponentField(h) && m == FractionField(h) && e != 0 && e != 31
    requires ei == e as int && f == (m as int) as real / 1024.0
    ensures Single(HalfToSingle(h)) == Half(h)
  {
    NormalPattern(h, s, e, m);
    ConvertedNumber(s, e, m, HalfToSingle(h), ei, f);
  }

  /** Sign, exponent and fraction are the bits of the half, from the top down. */
  lemma {:induction false} FieldsAreBits(h: bv16)
    ensures SignField(h) < 2 && ExponentField(h) < 32 && FractionField(h) < 1024
    ensures (SignField(h) << 15) | (ExponentField(h) << 10) | FractionField(h) == h as bv32
  {
  }

  /** One, and twice as much with every exponent. */
  lemma {:induction false} Pow2Next(k: int)
    ensures Pow2(0) == 1.0 && Pow2(k + 1) == 2.0 * Pow2(k)
  {
  }

  /** Some halves and singles by their values: one, minus two and a half, a battery's 12.5 volts, and a subnormal. */
  lemma {:induction false} KnownValues()
    ensures Half(0x3C00) == Finite(1.0) && Half(0xC100) == Finite(-2.5) && Half(0x4A40) == Finite(12.5)
    ensures Half(0x0200) == Finite(Pow2(-15)) && Single(0x00400000) == Finite(Pow2(-127))
    ensures Single(0x3F800000) == Finite(1.0) && Single(0xC0200000) == Finite(-2.5) && Single(0x41480000) == Finite(12.5)
  {
    Pow2Next(0);
    Pow2Next(1);
    Pow2Next(2);
    Pow2Next(-15);
    Pow2Next(-127);
  }

  /** Normal numbers, zeros and NaN; neither subnormals nor infinities. */
  predicate Plain(h: bv16) {
    if ExponentField(h) == 31 then FractionField(h) != 0
    else ExponentField(h) != 0 || FractionField(h) == 0
  }

  /** The conversion keeps a half's value exactly for normal numbers, zeros and NaN. */
  lemma ValueKeptExactly(h: bv16)
    ensures Single(HalfToSingle(h)) == Half(h) <==> Plain(h)
  {
    if ExponentField(h) == 0 {
    } else if ExponentField(h) != 31 {
      var s, e, m := SignField(h), ExponentField(h), FractionField(h);
      NormalKept(h, s, e, m, e as int, (m as int) as real / 1024.0);
    }
  }

  // ---- frames ----

  datatype Frame = Frame(eid: bv32, dlc: nat, data: seq<bv8>)

  predicate IsFrame(f: Frame) {
    |f.data| == 8
  }

  /** What a frame says (section 4 of the DroneCAN specification, CAN bus transport layer). */
  datatype Signal =
    | Short
    | Start(node: bv8, tid: bv8, toggle: bool, volt: bv16, low: bv8)
    | More(node: bv8, tid: bv8, toggle: bool, high: bv8)

  function Word(low: bv8, high: bv8): bv16 {
    (low as bv16) | ((high as bv16) << 8)
  }

  function Parsed(f: Frame): Signal
    requires IsFrame(f)
  {
    var tail := f.data[7];
    var node, tid, toggle := (f.eid & 0x7F) as bv8, tail & 0x1F, tail & 0x20 != 0;
    if f.dlc < 8 then Short
    else if tail & 0x80 != 0 then Start(node, tid, toggle, Word(f.data[4], f.data[5]), f.data[6])
    else More(node, tid, toggle, f.data[0])
  }

  /** The second is the continuation the first waits for. */
  predicate Matches(start: Signal, next: Signal) {
    && start.Start? && next.More?
    && next.node == start.node && next.tid == start.tid && next.toggle != start.toggle
  }

  // ---- reassembly ----

  /** A published reading: the two half-precision words and their node. */
  datatype Power = Power(volt: bv16, curr: bv16, node: bv8)

  datatype State = State(pending: Option<Signal>, power: Option<Power>)

  function Paired(start: Signal, next: Signal): Power
    requires Matches(start, next)
  {
    Power(start.volt, Word(start.low, next.high), next.node)
  }

  predicate Publishes(s: State, next: Signal) {
    s.pending.Some? && Matches(s.pending.value, next)
  }

  function Received(s: State, next: Signal): State {
    match next
    case Short => s
    case Start(_, _, _, _, _) => s.(pending := Some(next))
    case More(_, _, _, _) => if Publishes(s, next) then State(None, Some(Paired(s.pending.value, next))) else s
  }

  function After(signals: seq<Signal>): State {
    if |signals| == 0 then State(None, None) else Received(After(signals[..|signals| - 1]), signals[|signals| - 1])
  }

  /** From start i on up to j, no other start and no match. */
  predicate Waiting(signals: seq<Signal>, i: nat, j: nat)
    requires i < j <= |signals|
  {
    signals[i].Start? && forall k :: i < k < j ==> !signals[k].Start? && !Matches(signals[i], signals[k])
  }

  /** Index of the pending start. */
  function Open(signals: seq<Signal>): (r: Option<nat>)
    ensures r.Some? ==> r.value < |signals|
  {
    if |signals| == 0 then None
    else
      var n := |signals| - 1;
      if signals[n].Start? then Some(n)
      else
        var before := Open(signals[..n]);
        if before.Some? && Matches(signals[before.value], signals[n]) then None else before
  }

  lemma {:induction false} PendingIsOpen(signals: seq<Signal>)
    ensures After(signals).pending == if Open(signals).Some? then Some(signals[Open(signals).value]) else None
  {
    if |signals| > 0 {
      PendingIsOpen(signals[..|signals| - 1]);
    }
  }

  /** What is pending is the latest start, if no match has come since. */
  lemma {:induction false} OpenExactly(signals: seq<Signal>, i: nat)
    requires i < |signals|
    ensures Open(signals) == Some(i) <==> Waiting(signals, i, |signals|)
  {
    var n := |signals| - 1;
    if i < n {
      OpenExactly(signals[..n], i);
    }
  }

  /** Frame j completes start i. */
  predicate Completes(signals: seq<Signal>, i: nat, j: nat)
    requires i < j < |signals|
  {
    Waiting(signals, i, j) && Matches(signals[i], signals[j])
  }

  lemma CompletesIsOpen(signals: seq<Signal>, i: nat, j: nat)
    requires i < j < |signals|
    ensures Completes(signals, i, j) <==> Open(signals[..j]) == Some(i) && Matches(signals[i], signals[j])
  {
    OpenExactly(signals[..j], i);
  }

  /**
   A frame publishes exactly when it is the first match of the latest start before it, and then the
   reading is theirs.
   */
  lemma PublishesExactly(signals: seq<Signal>, j: nat)
    requires j < |signals|
    ensures Publishes(After(signals[..j]), signals[j]) <==> exists i: nat :: i < j && Completes(signals, i, j)
    ensures forall i: nat :: i < j && Completes(signals, i, j) ==>
              After(signals[..j + 1]).power == Some(Paired(signals[i], signals[j]))
  {
    PendingIsOpen(signals[..j]);
    assert signals[..j + 1][..j] == signals[..j];
    forall i: nat | i < j
      ensures Completes(signals, i, j) <==> Open(signals[..j]) == Some(i) && Matches(signals[i], signals[j])
    {
      CompletesIsOpen(signals, i, j);
    }
    if Publishes(After(signals[..j]), signals[j]) {
      assert Completes(signals, Open(signals[..j]).value, j);
    }
  }

  lemma NoEarlierMatch(signals: seq<Signal>, i: nat, j: nat, k: nat)
    requires i < k < j < |signals| && Completes(signals, i, j)
    ensures !signals[k].Start? && !Matches(signals[i], signals[k])
  {
  }

  /** Each start completes at most once, and each frame completes at most one start. */
  lemma CompletesOnce(signals: seq<Signal>, i: nat, j: nat, i': nat, j': nat)
    requires i < j < |signals| && i' < j' < |signals|
    requires Completes(signals, i, j) && Completes(signals, i', j')
    ensures i == i' <==> j == j'
  {
    if i == i' && j < j' {
      NoEarlierMatch(signals, i, j', j);
    } else if i == i' && j' < j {
      NoEarlierMatch(signals, i, j, j');
    } else if j == j' && i < i' {
      NoEarlierMatch(signals, i, j, i');
    } else if j == j' && i' < i {
      NoEarlierMatch(signals, i', j, i);
    }
  }

  /** Without a publication the reading stays. */
  lemma KeptOtherwise(signals: seq<Signal>, j: nat)
    requires j < |signals| && !Publishes(After(signals[..j]), signals[j])
    ensures After(signals[..j + 1]).power == After(signals[..j]).power
  {
    assert signals[..j + 1][..j] == signals[..j];
  }

  // ---- one transfer ----

  function TailByte(start: bool, toggle: bool, tid: bv8): bv8
    requires tid < 32
  {
    (if start then 0x80 else 0) | (if toggle then 0x20 else 0) | tid
  }

  /** The transfer's first frame: checksum and temperature, then the voltage and half of the current. */
  function FirstFrame(eid: bv32, tid: bv8, volt: bv16, curr: bv16, lead: seq<bv8>): (f: Frame)
    requires tid < 32 && |lead| == 4
    ensures IsFrame(f)
  {
    Frame(eid, 8, lead + [(volt & 0xFF) as bv8, (volt >> 8) as bv8, (curr & 0xFF) as bv8, TailByte(true, false, tid)])
  }

  function SecondFrame(eid: bv32, tid: bv8, curr: bv16, rest: seq<bv8>): (f: Frame)
    requires tid < 32 && |rest| == 6
    ensures IsFrame(f)
  {
    Frame(eid, 8, [(curr >> 8) as bv8] + rest + [TailByte(false, true, tid)])
  }

  lemma WordSplit(w: bv16)
    ensures Word((w & 0xFF) as bv8, (w >> 8) as bv8) == w
  {
  }

  datatype Transfer = Transfer(eid: bv32, tid: bv8, volt: bv16, curr: bv16, lead: seq<bv8>, rest: seq<bv8>) {
    predicate Valid() {
      tid < 32 && |lead| == 4 && |rest| == 6
    }

    function Node(): bv8 {
      (eid & 0x7F) as bv8
    }
  }

  /** The first two frames of a transfer arrive in order, with no other start between them and nothing else that matches. */
  predicate Undisturbed(signals: seq<Signal>, i: nat, j: nat, t: Transfer) {
    && i < j < |signals| && t.Valid()
    && signals[i] == Parsed(FirstFrame(t.eid, t.tid, t.volt, t.curr, t.lead))
    && signals[j] == Parsed(SecondFrame(t.eid, t.tid, t.curr, t.rest))
    && forall k :: i < k < j ==> !signals[k].Start? && !Matches(signals[i], signals[k])
  }

  /** A frame of another node, of another transfer, or with the start's own toggle does not complete a start. */
  lemma {:induction false} OthersIgnored(start: Signal, f: Frame)
    requires IsFrame(f) && start.Start? && f.data[7] & 0x80 == 0
    requires (f.eid & 0x7F) as bv8 != start.node || f.data[7] & 0x1F != start.tid || (f.data[7] & 0x20 != 0) == start.toggle
    ensures forall s: State :: s.pending == Some(start) ==> Received(s, Parsed(f)) == s
  {
    assert !Matches(start, Parsed(f));
  }

  /** Neither does a short one; a new start takes the old one's place. */
  lemma {:induction false} ShortIgnored(s: State, f: Frame)
    requires IsFrame(f)
    ensures f.dlc < 8 ==> Received(s, Parsed(f)) == s
    ensures f.dlc >= 8 && f.data[7] & 0x80 != 0 ==> Received(s, Parsed(f)) == s.(pending := Some(Parsed(f)))
  {
  }

  /** Such a transfer publishes the encoded halves. */
  lemma {:induction false} TransferDelivered(signals: seq<Signal>, i: nat, j: nat, t: Transfer)
    requires Undisturbed(signals, i, j, t)
    ensures After(signals[..j + 1]).power == Some(Power(t.volt, t.curr, t.Node()))
  {
    FramesPair(signals[i], signals[j], t);
    assert Completes(signals, i, j);
    PublishesExactly(signals, j);
  }

  lemma TailParts(start: bool, toggle: bool, tid: bv8)
    requires tid < 32
    ensures TailByte(start, toggle, tid) & 0x1F == tid
    ensures TailByte(start, toggle, tid) & 0x20 != 0 <==> toggle
    ensures TailByte(start, toggle, tid) & 0x80 != 0 <==> start
  {
  }

  lemma {:induction false} FramesPair(first: Signal, second: Signal, t: Transfer)
    requires t.Valid() && first == Parsed(FirstFrame(t.eid, t.tid, t.volt, t.curr, t.lead))
    requires second == Parsed(SecondFrame(t.eid, t.tid, t.curr, t.rest))
    ensures Matches(first, second) && Paired(first, second) == Power(t.volt, t.curr, t.Node())
  {
    TailParts(true, false, t.tid);
    TailParts(false, true, t.tid);
    FirstParsed(t, TailByte(true, false, t.tid));
    SecondParsed(t, TailByte(false, true, t.tid));
    WordSplit(t.curr);
  }

  lemma {:induction false} FirstParsed(t: Transfer, tail: bv8)
    requires t.Valid() && tail == TailByte(true, false, t.tid)
    requires tail & 0x1F == t.tid && tail & 0x20 == 0 && tail & 0x80 != 0
    ensures Parsed(FirstFrame(t.eid, t.tid, t.volt, t.curr, t.lead))
         == Start(t.Node(), t.tid, false, t.volt, (t.curr & 0xFF) as bv8)
  {
    WordSplit(t.volt);
  }

  lemma {:induction false} SecondParsed(t: Transfer, tail: bv8)
    requires t.Valid() && tail == TailByte(false, true, t.tid)
    requires tail & 0x1F == t.tid && tail & 0x20 != 0 && tail & 0x80 == 0
    ensures Parsed(SecondFrame(t.eid, t.tid, t.curr, t.rest)) == More(t.Node(), t.tid, true, (t.curr >> 8) as bv8)
  {
  }

  class PowerMonitor {
    var pendingValid: bool
    var pendingNode: bv8
    var pendingTid: bv8
    var pendingToggle: bool
    var pendingVolt: bv16
    var pendingLow: bv8
    var valid: bool
    var voltage: bv32
    var current: bv32
    var node: bv8
    ghost var last: Option<Power>

    ghost predicate Valid()
      reads this
    {
      && (valid <==> last.Some?)
      && (valid ==> voltage == HalfToSingle(last.value.volt) && current == HalfToSingle(last.value.curr)
                    && node == last.value.node)
    }

    /** The pending toggle is stored flipped. */
    ghost function Abstract(): State
      reads this
    {
      State(if pendingValid then Some(Start(pendingNode, pendingTid, !pendingToggle, pendingVolt, pendingLow)) else None, last)
    }

    constructor ()
      ensures Valid() && Abstract() == State(None, None)
    {
      pendingValid, valid, last := false, false, None;
    }

    method BatteryInfoCb(f: Frame)
      requires Valid() && IsFrame(f)
      modifies this
      ensures Valid() && Abstract() == Received(old(Abstract()), Parsed(f))
    {
      match Parsed(f)
      case Short =>
      case Start(nodeId, tid, toggle, volt, low) => Stash(nodeId, tid, toggle, volt, low);
      case More(nodeId, tid, toggle, high) => Continue(nodeId, tid, toggle, high);
    }

    /** After such a transfer voltage and current are the numbers sent, exactly when those are normal, zero or NaN. */
    lemma TransferReads(signals: seq<Signal>, i: nat, j: nat, t: Transfer)
      requires Valid() && Undisturbed(signals, i, j, t) && Abstract() == After(signals[..j + 1])
      ensures valid && node == t.Node()
      ensures Single(voltage) == Half(t.volt) <==> Plain(t.volt)
      ensures Single(current) == Half(t.curr) <==> Plain(t.curr)
    {
      TransferDelivered(signals, i, j, t);
      ValueKeptExactly(t.volt);
      ValueKeptExactly(t.curr);
    }

    /** A first frame: wait for its continuation, whatever was pending. */
    method Stash(nodeId: bv8, tid: bv8, toggle: bool, volt: bv16, low: bv8)
      requires Valid()
      modifies this
      ensures Valid() && Abstract() == Received(old(Abstract()), Start(nodeId, tid, toggle, volt, low))
    {
      pendingValid, pendingNode, pendingTid, pendingToggle := true, nodeId, tid, !toggle;
      pendingVolt, pendingLow := volt, low;
    }

    method Continue(nodeId: bv8, tid: bv8, toggle: bool, high: bv8)
      requires Valid()
      modifies this
      ensures Valid() && Abstract() == Received(old(Abstract()), More(nodeId, tid, toggle, high))
    {
      if !pendingValid || nodeId != pendingNode || tid != pendingTid || toggle != pendingToggle {
        return;
      }
      pendingValid := false;
      Publish(Power(pendingVolt, Word(pendingLow, high), nodeId));
    }

    method Publish(p: Power)
      modifies this`voltage, this`current, this`node, this`valid, this`last
      ensures Valid() && last == Some(p)
    {
      voltage, current, node, valid := HalfToSingle(p.volt), HalfToSingle(p.curr), p.node, true;
      last := Some(p);
    }
  }
}
