/** The ring-buffered logger, as a FIFO queue in front of a file, and what its files decode to. */
module Logger {
  import opened Basics
  import opened LogFormat
  import opened LogDecoder

  const BUF_SIZE: nat := 32768
  const CAPACITY: nat := 32767
  const FLUSH_CHUNK: nat := 4096

  // ---- the logger over an ideal queue ----

  datatype State = State(open: bool, queue: seq<Byte>, file: seq<Byte>)

  /** The outcome of a file write: whether it reports success, and how much it kept. A full card reports success and keeps less. */
  datatype CardResult = CardResult(ok: bool, kept: nat)

  /** Which steps of the card's setup succeed: interface, connection, file system, new file. */
  datatype Setup = Setup(started: bool, connected: bool, mounted: bool, created: bool)

  /** The first step that fails, 1 to 4, or 5. */
  function FailedStep(card: Setup): nat {
    if !card.started then 1 else if !card.connected then 2 else if !card.mounted then 3 else if !card.created then 4 else 5
  }

  /** The number kept is 5 exactly for a setup without failure, and otherwise that of the first step that failed. */
  lemma {:induction false} FirstFailure(card: Setup, steps: seq<bool>, k: nat)
    requires steps == [card.started, card.connected, card.mounted, card.created] && k < 4
    ensures FailedStep(card) == 5 <==> forall i :: 0 <= i < 4 ==> steps[i]
    ensures FailedStep(card) == k + 1 <==> !steps[k] && forall i :: 0 <= i < k ==> steps[i]
  {
    assert steps[0] == card.started && steps[1] == card.connected && steps[2] == card.mounted && steps[3] == card.created;
  }

  /** All or nothing. */
  function Put(queue: seq<Byte>, data: seq<Byte>): seq<Byte> {
    if |queue| + |data| <= CAPACITY then queue + data else queue
  }

  function Header(id: Byte): seq<Byte> {
    [SYNC1, SYNC2, id]
  }

  function Fitting(queue: seq<Byte>, n: nat): bool {
    |queue| + n <= CAPACITY
  }

  /** A write: header and then body, each on its own. */
  function Logged(s: State, r: Record): State {
    if !s.open then s
    else if !Fitting(s.queue, 3) then s
    else s.(queue := Put(s.queue + Header(r.id), r.body))
  }

  predicate Accepted(s: State, r: Record) {
    s.open && Fitting(s.queue, 3) && Fitting(s.queue + Header(r.id), |r.body|)
  }

  /** The bytes a flush takes from the queue, those of them that reach the file, and those that do not. */
  function Chunk(s: State): nat {
    if s.open then Least(|s.queue|, FLUSH_CHUNK) else 0
  }

  function Stored(s: State, card: CardResult): nat {
    Least(card.kept, Chunk(s))
  }

  function Missed(s: State, card: CardResult): nat {
    Chunk(s) - Stored(s, card)
  }

  /** One flush of at most a chunk: only an error closes the log, a short write does not. */
  function Flushed(s: State, card: CardResult): State {
    if Chunk(s) == 0 then s
    else State(card.ok, s.queue[Chunk(s)..], s.file + s.queue[..Stored(s, card)])
  }

  // ---- the ring ----

  /** The waiting bytes, oldest first: from tail up to head, past the end of the buffer if need be. */
  function Window(b: seq<Byte>, head: nat, tail: nat): (q: seq<Byte>)
    requires |b| == BUF_SIZE && head < BUF_SIZE && tail < BUF_SIZE
    ensures |q| <= CAPACITY
  {
    if head >= tail then b[tail..head] else b[tail..] + b[..head]
  }

  /** b' is b with the data stored from head on, past the end of the buffer if need be. */
  ghost predicate Holds(b: seq<Byte>, b': seq<Byte>, head: nat, data: seq<Byte>) {
    && |b'| == |b| == BUF_SIZE && head < BUF_SIZE
    && forall i :: 0 <= i < BUF_SIZE ==>
         b'[i] == if head <= i < head + |data| then data[i - head]
                  else if i + BUF_SIZE < head + |data| then data[i + BUF_SIZE - head] else b[i]
  }

  /** Where an index n places after i is. */
  function Moved(i: nat, n: nat): (j: nat)
    requires i < BUF_SIZE && n < BUF_SIZE
    ensures j < BUF_SIZE
  {
    if i + n < BUF_SIZE then i + n else i + n - BUF_SIZE
  }

  lemma {:induction false} MovedInCode(i: nat, n: nat)
    requires i < BUF_SIZE && n < BUF_SIZE
    ensures Moved(i, n) == if i + n <= BUF_SIZE then (i + n) % BUF_SIZE else n - (BUF_SIZE - i)
  {
  }

  /** Storing data that fits behind the window appends it to the window. */
  lemma WindowGrows(b: seq<Byte>, b': seq<Byte>, head: nat, tail: nat, data: seq<Byte>)
    requires Holds(b, b', head, data) && tail < BUF_SIZE && |Window(b, head, tail)| + |data| <= CAPACITY
    ensures Window(b', Moved(head, |data|), tail) == Window(b, head, tail) + data
  {
    var q, q' := Window(b, head, tail), Window(b', Moved(head, |data|), tail);
    assert |q'| == |q| + |data|;
    forall k | 0 <= k < |q'| ensures q'[k] == (q + data)[k] {
      var i := Moved(tail, k);
      assert q'[k] == b'[i];
      if k < |q| {
        assert q[k] == b[i];
      }
    }
  }

  /** Moving the tail drops a prefix of the window. */
  lemma WindowShrinks(b: seq<Byte>, head: nat, tail: nat, n: nat)
    requires |b| == BUF_SIZE && head < BUF_SIZE && tail < BUF_SIZE && n <= |Window(b, head, tail)|
    ensures Window(b, head, Moved(tail, n)) == Window(b, head, tail)[n..]
  {
  }

  class Ring {
    const buf: array<Byte>
    var head: nat
    var tail: nat
    var open: bool
    var file: seq<Byte>
    var lastInitErr: nat

    ghost predicate Valid()
      reads this
    {
      buf.Length == BUF_SIZE && head < BUF_SIZE && tail < BUF_SIZE
    }

    ghost function Contents(): (q: seq<Byte>)
      requires Valid()
      reads this, buf
    {
      Window(buf[..], head, tail)
    }

    ghost function Abstract(): State
      requires Valid()
      reads this, buf
    {
      State(open, Contents(), file)
    }

    constructor ()
      ensures Valid() && fresh(buf) && Abstract() == State(false, [], [])
    {
      buf := new Byte[BUF_SIZE];
      head, tail, open, file, lastInitErr := 0, 0, false, [], 0;
    }

    method CopyIn(at: nat, data: seq<Byte>)
      requires Valid() && at + |data| <= BUF_SIZE
      modifies buf
      ensures forall i :: 0 <= i < BUF_SIZE ==>
                buf[i] == if at <= i < at + |data| then data[i - at] else old(buf[i])
    {
      forall k | 0 <= k < |data| { buf[at + k] := data[k]; }
    }

    method CopyOut(dst: array<Byte>, to: nat, from: nat, n: nat)
      requires Valid() && dst != buf && from + n <= BUF_SIZE && to + n <= dst.Length
      modifies dst
      ensures dst[..to] == old(dst[..to]) && dst[to..to + n] == buf[..][from..from + n]
    {
      forall k | 0 <= k < n { dst[to + k] := buf[from + k]; }
    }

    /** Appends all of the data or nothing, and says which. */
    method RingWrite(data: seq<Byte>) returns (ok: bool)
      requires Valid()
      modifies this`head, buf
      ensures Valid() && Contents() == Put(old(Contents()), data)
      ensures ok == Fitting(old(Contents()), |data|)
    {
      var free := if head >= tail then BUF_SIZE - head + tail - 1 else tail - head - 1;
      if |data| > free {
        return false;
      }
      ghost var b := buf[..];
      CopyWrapped(data);
      WindowGrows(b, buf[..], head, tail, data);
      MovedInCode(head, |data|);
      head := if head + |data| <= BUF_SIZE then (head + |data|) % BUF_SIZE else |data| - (BUF_SIZE - head);
      return true;
    }

    method CopyWrapped(data: seq<Byte>)
      requires Valid() && |data| < BUF_SIZE
      modifies buf
      ensures Holds(old(buf[..]), buf[..], head, data)
    {
      if head + |data| <= BUF_SIZE {
        CopyIn(head, data);
      } else {
        var first := BUF_SIZE - head;
        CopyIn(head, data[..first]);
        CopyIn(0, data[first..]);
      }
    }

    /** Moves the longest allowed prefix of the queue into dst. */
    method RingRead(dst: array<Byte>, max: nat) returns (n: nat)
      requires Valid() && dst != buf && max <= dst.Length
      modifies this`tail, dst
      ensures Valid() && n == Least(|old(Contents())|, max)
      ensures dst[..n] == old(Contents())[..n] && Contents() == old(Contents())[n..]
    {
      var avail := if head >= tail then head - tail else BUF_SIZE - tail + head;
      n := if avail < max then avail else max;
      WindowShrinks(buf[..], head, tail, n);
      if n == 0 {
        return;
      }
      CopyWindow(dst, n);
      MovedInCode(tail, n);
      tail := if tail + n <= BUF_SIZE then (tail + n) % BUF_SIZE else n - (BUF_SIZE - tail);
    }

    method CopyWindow(dst: array<Byte>, n: nat)
      requires Valid() && dst != buf && n <= dst.Length && n <= |Contents()|
      modifies dst
      ensures dst[..n] == Contents()[..n]
    {
      ghost var b := buf[..];
      WindowPrefix(b, head, tail, n);
      if tail + n <= BUF_SIZE {
        CopyOut(dst, 0, tail, n);
      } else {
        var first := BUF_SIZE - tail;
        CopyOut(dst, 0, tail, first);
        CopyOut(dst, first, 0, n - first);
        assert dst[..n] == dst[..first] + dst[first..n];
      }
    }

    /** Opens a new file once the card has answered every step, and queues the schema; else says which step failed. */
    method Init(card: Setup) returns (ok: bool)
      requires Valid()
      modifies this, buf
      ensures Valid() && lastInitErr == FailedStep(card) && ok == (FailedStep(card) == 5)
      ensures ok ==> Abstract() == Opened(LogDefs())
      ensures !ok ==> !open && Contents() == [] && file == old(file)
    {
      head, tail, open := 0, 0, false;
      if !card.started {
        lastInitErr := 1;
        return false;
      }
      if !card.connected {
        lastInitErr := 2;
        return false;
      }
      if !card.mounted {
        lastInitErr := 3;
        return false;
      }
      if !card.created {
        lastInitErr := 4;
        return false;
      }
      lastInitErr := 5;
      file := [];
      open := true;
      WriteSchemaHeader(LogDefs());
      return true;
    }

    method WriteSchemaHeader(defs: seq<LogDef>)
      requires Valid() && Contents() == [] && FMT_SIZE * |defs| <= CAPACITY
      modifies this`head, buf
      ensures Valid() && Contents() == SchemaOf(defs)
    {
      for i := 0 to |defs|
        invariant Valid() && Contents() == SchemaOf(defs[..i])
      {
        SchemaNext(defs, i);
        var ok := RingWrite(FmtRecord(defs[i]));
      }
      assert defs[..|defs|] == defs;
    }

    /** Header and body as two writes to the ring. */
    method Write(r: Record) returns (ok: bool)
      requires Valid()
      modifies this`head, buf
      ensures Valid() && Abstract() == Logged(old(Abstract()), r) && ok == Accepted(old(Abstract()), r)
    {
      if !open { return false; }
      ok := RingWrite(Header(r.id));
      if !ok { return false; }
      ok := RingWrite(r.body);
    }

    method Flush(card: CardResult)
      requires Valid()
      modifies this
      ensures Valid() && Abstract() == Flushed(old(Abstract()), card)
    {
      if !open { return; }
      var chunk := new Byte[FLUSH_CHUNK];
      var n := RingRead(chunk, FLUSH_CHUNK);
      if n == 0 { return; }
      assert chunk[..Least(card.kept, n)] == chunk[..n][..Least(card.kept, n)];
      file := file + chunk[..Least(card.kept, n)];
      if !card.ok {
        open := false;
      }
    }
  }

  function Opened(defs: seq<LogDef>): State {
    State(true, SchemaOf(defs), [])
  }

  lemma {:induction false} SchemaConcat(a: seq<LogDef>, b: seq<LogDef>)
    ensures SchemaOf(a + b) == SchemaOf(a) + SchemaOf(b)
  {
    if |a| == 0 {
      assert a + b == b;
    } else {
      assert (a + b)[1..] == a[1..] + b;
      SchemaConcat(a[1..], b);
    }
  }

  lemma SchemaNext(defs: seq<LogDef>, i: nat)
    requires i < |defs|
    ensures SchemaOf(defs[..i + 1]) == SchemaOf(defs[..i]) + FmtRecord(defs[i])
  {
    SchemaConcat(defs[..i], [defs[i]]);
    assert defs[..i + 1] == defs[..i] + [defs[i]];
    assert SchemaOf([defs[i]]) == FmtRecord(defs[i]) + SchemaOf([]);
  }

  /** The first bytes of the window, in one piece or two. */
  lemma WindowPrefix(b: seq<Byte>, head: nat, tail: nat, n: nat)
    requires |b| == BUF_SIZE && head < BUF_SIZE && tail < BUF_SIZE && n <= |Window(b, head, tail)|
    ensures Window(b, head, tail)[..n] ==
              if tail + n <= BUF_SIZE then b[tail..tail + n] else b[tail..] + b[..tail + n - BUF_SIZE]
  {
  }

  // ---- what one write does to the stream ----

  /**
   A write into an open log appends the whole record exactly when header and body fit; when only the
   header fits it leaves the header behind, alone.
   */
  lemma WriteOutcome(s: State, r: Record)
    ensures Accepted(s, r) <==> s.open && |s.queue| + 3 + |r.body| <= CAPACITY
    ensures Accepted(s, r) ==> Logged(s, r) == s.(queue := s.queue + RecordBytes(r))
    ensures !Accepted(s, r) ==>
              (Logged(s, r) == s <==> !s.open || |s.queue| + 3 > CAPACITY)
              && (Logged(s, r) != s ==> Logged(s, r) == s.(queue := s.queue + Header(r.id)))
  {
    assert s.queue + Header(r.id) + r.body == s.queue + RecordBytes(r);
    assert |s.queue + Header(r.id)| == |s.queue| + 3;
  }

  // ---- runs ----

  datatype Op = Log(record: Record) | Flush(card: CardResult)

  function Step(s: State, op: Op): State {
    match op
    case Log(r) => Logged(s, r)
    case Flush(card) => Flushed(s, card)
  }

  function Run(s: State, ops: seq<Op>): State {
    if |ops| == 0 then s else Step(Run(s, ops[..|ops| - 1]), ops[|ops| - 1])
  }

  /** Every record finds room for its header and body together. */
  predicate AlwaysRoom(s: State, ops: seq<Op>) {
    forall k :: 0 <= k < |ops| && ops[k].Log? ==> |Run(s, ops[..k]).queue| + 3 + |ops[k].record.body| <= CAPACITY
  }

  function Records(ops: seq<Op>): seq<Record> {
    if |ops| == 0 then []
    else Records(ops[..|ops| - 1]) + (if ops[|ops| - 1].Log? then [ops[|ops| - 1].record] else [])
  }

  lemma {:induction false} StreamConcat(a: seq<Record>, b: seq<Record>)
    ensures Stream(a + b) == Stream(a) + Stream(b)
  {
    if |a| == 0 {
      assert a + b == b;
    } else {
      assert (a + b)[1..] == a[1..] + b;
      StreamConcat(a[1..], b);
    }
  }

  lemma StreamNext(rs: seq<Record>, r: Record)
    ensures Stream(rs + [r]) == Stream(rs) + RecordBytes(r)
  {
    StreamConcat(rs, [r]);
    assert Stream([r]) == RecordBytes(r) + Stream([]);
  }

  /** A write that leaves a header without its body. */
  predicate Orphans(s: State, r: Record) {
    s.open && Fitting(s.queue, 3) && !Accepted(s, r)
  }

  /** The bytes a write adds. */
  function Added(s: State, r: Record): seq<Byte> {
    if Accepted(s, r) then RecordBytes(r) else if Orphans(s, r) then Header(r.id) else []
  }

  /** All bytes taken in a run, and the records accepted in it. */
  function Taken(s: State, ops: seq<Op>): seq<Byte> {
    if |ops| == 0 then []
    else
      var before, last := ops[..|ops| - 1], ops[|ops| - 1];
      Taken(s, before) + if last.Log? then Added(Run(s, before), last.record) else []
  }

  function Kept(s: State, ops: seq<Op>): seq<Record> {
    if |ops| == 0 then []
    else
      var before, last := ops[..|ops| - 1], ops[|ops| - 1];
      Kept(s, before) + if last.Log? && Accepted(Run(s, before), last.record) then [last.record] else []
  }

  /** The number of lone headers. */
  function Lone(s: State, ops: seq<Op>): nat {
    if |ops| == 0 then 0
    else
      var before, last := ops[..|ops| - 1], ops[|ops| - 1];
      Lone(s, before) + if last.Log? && Orphans(Run(s, before), last.record) then 1 else 0
  }

  /** Every write takes its record whole or nothing of it. */
  predicate NoOrphans(s: State, ops: seq<Op>) {
    forall k :: 0 <= k < |ops| && ops[k].Log? ==> !Orphans(Run(s, ops[..k]), ops[k].record)
  }

  /** What is true of the writes before the last one and of it is true of all. */
  lemma OrphansBefore(s: State, ops: seq<Op>)
    requires |ops| > 0
    ensures var before, last := ops[..|ops| - 1], ops[|ops| - 1];
            NoOrphans(s, ops) <==> NoOrphans(s, before) && (last.Log? ==> !Orphans(Run(s, before), last.record))
  {
    var before := ops[..|ops| - 1];
    assert forall k :: 0 <= k < |before| ==> before[..k] == ops[..k] && before[k] == ops[k];
  }

  lemma {:induction false} LoneCounts(s: State, ops: seq<Op>)
    ensures |Taken(s, ops)| == |Stream(Kept(s, ops))| + 3 * Lone(s, ops)
    ensures Lone(s, ops) == 0 ==> Taken(s, ops) == Stream(Kept(s, ops))
    ensures Lone(s, ops) == 0 <==> NoOrphans(s, ops)
  {
    if |ops| > 0 {
      var before, last := ops[..|ops| - 1], ops[|ops| - 1];
      LoneCounts(s, before);
      OrphansBefore(s, ops);
      if last.Log? {
        StreamNext(Kept(s, before), last.record);
      }
      assert Kept(s, before) + [] == Kept(s, before);
    }
  }

  /** The bytes taken are the accepted records and nothing else exactly when no write left a lone header. */
  lemma TakenExactly(s: State, ops: seq<Op>)
    ensures Taken(s, ops) == Stream(Kept(s, ops)) <==> NoOrphans(s, ops)
  {
    LoneCounts(s, ops);
  }

  lemma RoomBefore(s: State, ops: seq<Op>)
    requires |ops| > 0 && AlwaysRoom(s, ops)
    ensures AlwaysRoom(s, ops[..|ops| - 1])
    ensures ops[|ops| - 1].Log? ==> |Run(s, ops[..|ops| - 1]).queue| + 3 + |ops[|ops| - 1].record.body| <= CAPACITY
  {
    var before := ops[..|ops| - 1];
    assert forall k :: 0 <= k < |before| ==> before[..k] == ops[..k] && before[k] == ops[k];
  }

  /** With room for every record, the records kept are the first of those written: all while the log is open. */
  lemma {:induction false} RoomKeepsAll(s: State, ops: seq<Op>)
    requires AlwaysRoom(s, ops)
    ensures NoOrphans(s, ops) && Kept(s, ops) <= Records(ops)
    ensures Run(s, ops).open ==> Kept(s, ops) == Records(ops)
  {
    if |ops| > 0 {
      var before, last := ops[..|ops| - 1], ops[|ops| - 1];
      RoomBefore(s, ops);
      RoomKeepsAll(s, before);
      OrphansBefore(s, ops);
      if last.Log? {
        WriteOutcome(Run(s, before), last.record);
      }
    }
  }

  // ---- what reaches the card ----

  /** All bytes that left the ring in a run and did not reach the file. */
  function Lost(s: State, ops: seq<Op>): nat {
    if |ops| == 0 then 0
    else
      var before, last := ops[..|ops| - 1], ops[|ops| - 1];
      Lost(s, before) + if last.Flush? then Missed(Run(s, before), last.card) else 0
  }

  /** After a loss no write has stored anything. */
  predicate Gapless(s: State, ops: seq<Op>) {
    forall k :: 0 <= k < |ops| && ops[k].Flush? && Lost(s, ops[..k]) > 0 ==> Stored(Run(s, ops[..k]), ops[k].card) == 0
  }

  lemma GaplessBefore(s: State, ops: seq<Op>)
    requires |ops| > 0
    ensures var before, last := ops[..|ops| - 1], ops[|ops| - 1];
            Gapless(s, ops) <==>
              Gapless(s, before) && (last.Flush? && Lost(s, before) > 0 ==> Stored(Run(s, before), last.card) == 0)
  {
    var before := ops[..|ops| - 1];
    assert forall k :: 0 <= k < |before| ==> before[..k] == ops[..k] && before[k] == ops[k];
  }

  lemma {:induction false} LosslessIsGapless(s: State, ops: seq<Op>)
    requires Lost(s, ops) == 0
    ensures Gapless(s, ops)
  {
    if |ops| > 0 {
      var before := ops[..|ops| - 1];
      LosslessIsGapless(s, before);
      GaplessBefore(s, ops);
    }
  }

  /**
   Of all bytes, exactly those lost are in neither the file nor the ring, and the two together are all
   of them exactly when none was lost. Without gaps the file is a prefix.
   */
  ghost predicate Accounted(s: State, all: seq<Byte>, lost: nat, gapless: bool) {
    && |s.file| + |s.queue| + lost == |all|
    && (s.file + s.queue == all <==> lost == 0)
    && (gapless ==> s.file <= all)
  }

  lemma LoggedAccounted(s: State, all: seq<Byte>, lost: nat, gapless: bool, r: Record)
    requires Accounted(s, all, lost, gapless)
    ensures Accounted(Logged(s, r), all + Added(s, r), lost, gapless)
  {
    WriteOutcome(s, r);
    assert lost == 0 ==> s.file + (s.queue + Added(s, r)) == all + Added(s, r);
    assert s.queue + [] == s.queue;
  }

  lemma FlushedAccounted(s: State, all: seq<Byte>, lost: nat, gapless: bool, card: CardResult)
    requires Accounted(s, all, lost, gapless)
    ensures Accounted(Flushed(s, card), all, lost + Missed(s, card), gapless && (lost > 0 ==> Stored(s, card) == 0))
  {
    var n, m := Chunk(s), Stored(s, card);
    assert s.queue == s.queue[..m] + s.queue[m..];
    assert lost == 0 ==> s.file + s.queue[..m] + s.queue[m..] == all;
  }

  /** Whatever the card does, the bytes of every run are accounted for. */
  lemma {:induction false} RunAccounted(defs: seq<LogDef>, ops: seq<Op>)
    ensures Accounted(Run(Opened(defs), ops), SchemaOf(defs) + Taken(Opened(defs), ops), Lost(Opened(defs), ops),
                      Gapless(Opened(defs), ops))
  {
    var start := Opened(defs);
    if |ops| == 0 {
      assert SchemaOf(defs) + Taken(start, ops) == SchemaOf(defs);
    } else {
      var before, last := ops[..|ops| - 1], ops[|ops| - 1];
      RunAccounted(defs, before);
      GaplessBefore(start, ops);
      var s, all, gapless := Run(start, before), SchemaOf(defs) + Taken(start, before), Gapless(start, before);
      match last
      case Log(r) =>
        assert SchemaOf(defs) + Taken(start, ops) == all + Added(s, r);
        LoggedAccounted(s, all, Lost(start, before), gapless, r);
      case Flush(card) =>
        assert Taken(start, before) + [] == Taken(start, before);
        FlushedAccounted(s, all, Lost(start, before), gapless, card);
    }
  }

  predicate HasFlush(ops: seq<Op>) {
    exists k :: 0 <= k < |ops| && ops[k].Flush?
  }

  /** The first flush takes the whole schema from the ring: then at most what is lost of it is not in the file. */
  lemma {:induction false} SchemaReachesFile(defs: seq<LogDef>, ops: seq<Op>)
    requires 0 < |SchemaOf(defs)| <= FLUSH_CHUNK
    ensures var s := Run(Opened(defs), ops);
            if HasFlush(ops) then |s.file| + Lost(Opened(defs), ops) >= |SchemaOf(defs)|
            else s.open && |s.queue| >= |SchemaOf(defs)|
  {
    if |ops| > 0 {
      var before, last := ops[..|ops| - 1], ops[|ops| - 1];
      SchemaReachesFile(defs, before);
      if HasFlush(before) {
        var k :| 0 <= k < |before| && before[k].Flush?;
        assert ops[k].Flush?;
      } else if HasFlush(ops) {
        assert last.Flush?;
      } else {
        assert ops[|ops| - 1].Log?;
      }
    }
  }

  // ---- what the file decodes to ----

  /** All records lie wholly in the first n bytes exactly when all their bytes do. */
  lemma {:induction false} WholeExactly(rs: seq<Record>, n: nat)
    ensures Whole(rs, n) == rs <==> n >= |Stream(rs)|
  {
    if |rs| > 0 && |RecordBytes(rs[0])| <= n {
      WholeExactly(rs[1..], n - |RecordBytes(rs[0])|);
      assert rs == [rs[0]] + rs[1..];
    }
  }

  lemma {:induction false} KeptAccounted(defs: seq<LogDef>, ops: seq<Op>)
    requires NoOrphans(Opened(defs), ops)
    ensures Accounted(Run(Opened(defs), ops), SchemaOf(defs) + Stream(Kept(Opened(defs), ops)), Lost(Opened(defs), ops),
                      Gapless(Opened(defs), ops))
  {
    RunAccounted(defs, ops);
    TakenExactly(Opened(defs), ops);
  }

  lemma {:induction false} AccountedWhole(schema: seq<Byte>, s: State, rs: seq<Record>, lost: nat)
    requires Accounted(s, schema + Stream(rs), lost, true) && |s.file| >= |schema|
    ensures s.file <= schema + Stream(rs)
    ensures Whole(rs, |s.file| - |schema|) == rs <==> s.queue == [] && lost == 0
  {
    WholeExactly(rs, |s.file| - |schema|);
  }

  lemma {:induction false} AccountedPrefix(defs: seq<LogDef>, s: State, rs: seq<Record>, lost: nat)
    requires WellFormed(defs) && Described(defs, rs) && Accounted(s, SchemaOf(defs) + Stream(rs), lost, true)
    requires |s.file| >= |SchemaOf(defs)|
    ensures Decodes(s.file, defs, rs)
  {
    FileRoundTrip(defs, rs, s.file);
  }

  lemma {:induction false} LogPrefixDecodes(defs: seq<LogDef>, ops: seq<Op>, s: State, rs: seq<Record>)
    requires s == Run(Opened(defs), ops) && rs == Kept(Opened(defs), ops)
    requires NoOrphans(Opened(defs), ops) && Gapless(Opened(defs), ops)
    requires WellFormed(defs) && Described(defs, rs) && |s.file| >= |SchemaOf(defs)|
    ensures Decodes(s.file, defs, rs)
  {
    KeptAccounted(defs, ops);
    AccountedPrefix(defs, s, rs, Lost(Opened(defs), ops));
  }

  lemma {:induction false} LogWholeExactly(defs: seq<LogDef>, ops: seq<Op>, s: State, rs: seq<Record>)
    requires s == Run(Opened(defs), ops) && rs == Kept(Opened(defs), ops)
    requires NoOrphans(Opened(defs), ops) && Gapless(Opened(defs), ops) && |s.file| >= |SchemaOf(defs)|
    ensures Whole(rs, |s.file| - |SchemaOf(defs)|) == rs <==> s.queue == [] && Lost(Opened(defs), ops) == 0
  {
    KeptAccounted(defs, ops);
    AccountedWhole(SchemaOf(defs), s, rs, Lost(Opened(defs), ops));
  }

  /**
   The file of any run without lone headers and without gaps decodes to exactly the message table and
   exactly the accepted records that lie wholly in it, in order, with no byte skipped; those are all the
   records accepted exactly when the ring is drained and no byte was lost.
   */
  lemma {:induction false} LogDecodes(defs: seq<LogDef>, ops: seq<Op>, s: State, rs: seq<Record>)
    requires s == Run(Opened(defs), ops) && rs == Kept(Opened(defs), ops)
    requires NoOrphans(Opened(defs), ops) && Gapless(Opened(defs), ops)
    requires WellFormed(defs) && Described(defs, rs) && |s.file| >= |SchemaOf(defs)|
    ensures Decodes(s.file, defs, rs)
    ensures Whole(rs, |s.file| - |SchemaOf(defs)|) == rs <==> s.queue == [] && Lost(Opened(defs), ops) == 0
  {
    LogPrefixDecodes(defs, ops, s, rs);
    LogWholeExactly(defs, ops, s, rs);
  }

  lemma {:induction false} FlushedLogDecodes(defs: seq<LogDef>, ops: seq<Op>, s: State, rs: seq<Record>)
    requires s == Run(Opened(defs), ops) && rs == Kept(Opened(defs), ops) && NoOrphans(Opened(defs), ops)
    requires WellFormed(defs) && Described(defs, rs) && 0 < |SchemaOf(defs)| <= FLUSH_CHUNK && HasFlush(ops)
    requires Lost(Opened(defs), ops) == 0
    ensures Decodes(s.file, defs, rs)
    ensures Whole(rs, |s.file| - |SchemaOf(defs)|) == rs <==> s.queue == []
  {
    SchemaReachesFile(defs, ops);
    LosslessIsGapless(Opened(defs), ops);
    LogDecodes(defs, ops, s, rs);
  }

  /**
   For the robot's own table: once a run has flushed and no byte has been lost, the file decodes to
   exactly the table and the accepted records wholly in it; with the ring drained, to all of them, which
   with the log still open and room for every record are all that were written.
   */
  lemma {:induction false} RobotLogDecodes(ops: seq<Op>, s: State, rs: seq<Record>)
    requires s == Run(Opened(LogDefs()), ops) && rs == Kept(Opened(LogDefs()), ops) && NoOrphans(Opened(LogDefs()), ops)
    requires Described(LogDefs(), rs) && HasFlush(ops) && Lost(Opened(LogDefs()), ops) == 0
    ensures Decodes(s.file, LogDefs(), rs)
    ensures Whole(rs, |s.file| - |SchemaOf(LogDefs())|) == rs <==> s.queue == []
    ensures s.open && AlwaysRoom(Opened(LogDefs()), ops) ==> rs == Records(ops)
  {
    TableWellFormed();
    FlushedLogDecodes(LogDefs(), ops, s, rs);
    if AlwaysRoom(Opened(LogDefs()), ops) {
      RoomKeepsAll(Opened(LogDefs()), ops);
    }
  }

  // ---- a full card ----

  const FULL := CardResult(true, 0)
  const ROOMY := CardResult(true, FLUSH_CHUNK)

  lemma RunNext(s: State, ops: seq<Op>, op: Op)
    ensures Run(s, ops + [op]) == Step(Run(s, ops), op)
    ensures Lost(s, ops + [op]) == Lost(s, ops) + if op.Flush? then Missed(Run(s, ops), op.card) else 0
    ensures Taken(s, ops + [op]) == Taken(s, ops) + if op.Log? then Added(Run(s, ops), op.record) else []
  {
    assert (ops + [op])[..|ops|] == ops;
  }

  /** On a full card the first flush loses the schema and leaves the log open. */
  lemma FullCardLosesSchema(defs: seq<LogDef>)
    requires 0 < |SchemaOf(defs)| <= FLUSH_CHUNK
    ensures Run(Opened(defs), [Flush(FULL)]) == State(true, [], [])
    ensures Lost(Opened(defs), [Flush(FULL)]) == |SchemaOf(defs)|
  {
    RunNext(Opened(defs), [], Flush(FULL));
    assert [] + [Flush(FULL)] == [Flush(FULL)];
  }

  /**
   If space is freed then, the log goes on, with a file that is no prefix of the bytes taken and in which
   the decoder finds no schema.
   */
  lemma {:induction false} GapAfterErase(defs: seq<LogDef>, r: Record, ops: seq<Op>)
    requires |defs| > 0 && |SchemaOf(defs)| <= FLUSH_CHUNK && r.id != FMT_ID && 3 + |r.body| <= FLUSH_CHUNK
    requires ops == [Flush(FULL)] + [Log(r)] + [Flush(ROOMY)]
    ensures Run(Opened(defs), ops) == State(true, [], RecordBytes(r))
    ensures !Gapless(Opened(defs), ops) && !(RecordBytes(r) <= SchemaOf(defs) + Taken(Opened(defs), ops))
    ensures SchemaFrom(RecordBytes(r), 0, map[]) == Scanned(map[], 0)
  {
    var start := Opened(defs);
    FullCardLosesSchema(defs);
    RunNext(start, [Flush(FULL)], Log(r));
    WriteOutcome(State(true, [], []), r);
    RunNext(start, [Flush(FULL)] + [Log(r)], Flush(ROOMY));
    assert ops[..2] == [Flush(FULL)] + [Log(r)];
    assert SchemaOf(defs)[2] == FMT_ID && RecordBytes(r)[2] == r.id;
    assert !AtFmt(RecordBytes(r), 0);
  }
}
