/** The log thread's use of the logger: every pass writes each message once and then flushes. */
module LogThread {
  import opened Basics
  import opened LogFormat
  import opened LogDecoder
  import opened Logger

  // ---- runs in parts ----

  lemma {:induction false} RunConcat(s: State, a: seq<Op>, b: seq<Op>)
    ensures Run(s, a + b) == Run(Run(s, a), b)
  {
    if |b| == 0 {
      assert a + b == a;
    } else {
      assert (a + b)[..|a + b| - 1] == a + b[..|b| - 1];
      RunConcat(s, a, b[..|b| - 1]);
    }
  }

  lemma {:induction false} RecordsConcat(a: seq<Op>, b: seq<Op>)
    ensures Records(a + b) == Records(a) + Records(b)
  {
    if |b| == 0 {
      assert a + b == a;
    } else {
      assert (a + b)[..|a + b| - 1] == a + b[..|b| - 1];
      RecordsConcat(a, b[..|b| - 1]);
    }
  }

  lemma {:induction false} RoomConcat(s: State, a: seq<Op>, b: seq<Op>)
    requires AlwaysRoom(s, a) && AlwaysRoom(Run(s, a), b)
    ensures AlwaysRoom(s, a + b)
  {
    var ops := a + b;
    forall k | 0 <= k < |ops| && ops[k].Log?
      ensures |Run(s, ops[..k]).queue| + 3 + |ops[k].record.body| <= CAPACITY
    {
      if k < |a| {
        assert ops[..k] == a[..k];
      } else {
        assert ops[..k] == a + b[..k - |a|];
        RunConcat(s, a, b[..k - |a|]);
        assert b[k - |a|].Log?;
      }
    }
  }

  // ---- one pass ----

  /** The records a pass writes, and the outcome of its flush. */
  datatype Pass = Pass(records: seq<Record>, card: CardResult)

  function Logs(rs: seq<Record>): seq<Op> {
    if |rs| == 0 then [] else Logs(rs[..|rs| - 1]) + [Log(rs[|rs| - 1])]
  }

  lemma {:induction false} LogsNext(rs: seq<Record>, r: Record)
    ensures Logs(rs + [r]) == Logs(rs) + [Log(r)]
  {
    assert (rs + [r])[..|rs|] == rs;
  }

  lemma {:induction false} LogsAreAll(rs: seq<Record>)
    ensures Records(Logs(rs)) == rs
  {
    if |rs| > 0 {
      LogsAreAll(rs[..|rs| - 1]);
      RecordsConcat(Logs(rs[..|rs| - 1]), [Log(rs[|rs| - 1])]);
    }
  }

  function Waiting(s: State, rs: seq<Record>): State {
    if s.open then s.(queue := s.queue + Stream(rs)) else s
  }

  lemma {:induction false} WaitingNext(s: State, rs: seq<Record>, r: Record)
    requires |s.queue| + |Stream(rs + [r])| <= CAPACITY
    ensures Logged(Waiting(s, rs), r) == Waiting(s, rs + [r])
    ensures |s.queue| + |Stream(rs)| + 3 + |r.body| <= CAPACITY
  {
    StreamNext(rs, r);
    WriteOutcome(Waiting(s, rs), r);
    assert s.queue + Stream(rs) + RecordBytes(r) == s.queue + Stream(rs + [r]);
  }

  lemma {:induction false} RoomNext(s: State, ops: seq<Op>, op: Op)
    requires AlwaysRoom(s, ops) && (op.Log? ==> |Run(s, ops).queue| + 3 + |op.record.body| <= CAPACITY)
    ensures AlwaysRoom(s, ops + [op])
  {
    var all := ops + [op];
    assert forall k :: 0 <= k < |ops| ==> ops[..k] == all[..k] && ops[k] == all[k];
    assert all[..|ops|] == ops;
  }

  /** Records that fit behind the queue are all appended to it, while the log is open. */
  lemma {:induction false} LogsFit(s: State, rs: seq<Record>)
    requires |s.queue| + |Stream(rs)| <= CAPACITY
    ensures Run(s, Logs(rs)) == Waiting(s, rs) && AlwaysRoom(s, Logs(rs))
  {
    if |rs| == 0 {
      assert s.queue + [] == s.queue;
    } else {
      var before, r := rs[..|rs| - 1], rs[|rs| - 1];
      assert rs == before + [r];
      WaitingNext(s, before, r);
      LogsFit(s, before);
      LogsNext(before, r);
      RunNext(s, Logs(before), Log(r));
      RoomNext(s, Logs(before), Log(r));
    }
  }

  function PassOps(p: Pass): seq<Op> {
    Logs(p.records) + [Flush(p.card)]
  }

  /** A pass that fits a chunk together with what is waiting leaves the ring empty. */
  lemma {:induction false} PassDrains(s: State, p: Pass)
    requires |s.queue| + |Stream(p.records)| <= FLUSH_CHUNK && (s.open || s.queue == [])
    ensures Run(s, PassOps(p)).queue == []
    ensures AlwaysRoom(s, PassOps(p)) && Records(PassOps(p)) == p.records
  {
    LogsFit(s, p.records);
    LogsAreAll(p.records);
    RunNext(s, Logs(p.records), Flush(p.card));
    RoomNext(s, Logs(p.records), Flush(p.card));
    RecordsConcat(Logs(p.records), [Flush(p.card)]);
  }

  // ---- runs of passes ----

  function OpsOf(passes: seq<Pass>): seq<Op> {
    if |passes| == 0 then [] else OpsOf(passes[..|passes| - 1]) + PassOps(passes[|passes| - 1])
  }

  function Written(passes: seq<Pass>): seq<Record> {
    if |passes| == 0 then [] else Written(passes[..|passes| - 1]) + passes[|passes| - 1].records
  }

  /** Each pass fits a chunk together with the schema. */
  predicate Small(defs: seq<LogDef>, passes: seq<Pass>) {
    forall k :: 0 <= k < |passes| ==> |SchemaOf(defs)| + |Stream(passes[k].records)| <= FLUSH_CHUNK
  }

  /** After every pass the ring is empty, and every record has found room. */
  lemma {:induction false} PassesDrain(defs: seq<LogDef>, passes: seq<Pass>)
    requires Small(defs, passes)
    ensures var s := Run(Opened(defs), OpsOf(passes)); if |passes| == 0 then s == Opened(defs) else s.queue == []
    ensures AlwaysRoom(Opened(defs), OpsOf(passes)) && Records(OpsOf(passes)) == Written(passes)
  {
    if |passes| > 0 {
      var before, p := passes[..|passes| - 1], passes[|passes| - 1];
      PassesDrain(defs, before);
      PassDrains(Run(Opened(defs), OpsOf(before)), p);
      RunConcat(Opened(defs), OpsOf(before), PassOps(p));
      RecordsConcat(OpsOf(before), PassOps(p));
      RoomConcat(Opened(defs), OpsOf(before), PassOps(p));
    }
  }

  /** The file, against all the records written, of a log with a drained ring that has kept the first of them. */
  lemma {:induction false} DrainedAccounted(schema: seq<Byte>, s: State, kept: seq<Record>, rs: seq<Record>, lost: nat,
                                                 gapless: bool)
    requires Accounted(s, schema + Stream(kept), lost, gapless) && s.queue == []
    requires kept <= rs && (s.open ==> kept == rs)
    ensures gapless ==> s.file <= schema + Stream(rs)
    ensures s.open ==> |s.file| + lost == |schema| + |Stream(rs)| && (s.file == schema + Stream(rs) <==> lost == 0)
  {
    assert s.file + [] == s.file;
    assert rs == kept + rs[|kept|..];
    StreamConcat(kept, rs[|kept|..]);
    assert schema + Stream(rs) == schema + Stream(kept) + Stream(rs[|kept|..]);
  }

  /** The file of every run of passes. */
  lemma {:induction false} PassesAccounted(defs: seq<LogDef>, passes: seq<Pass>, s: State, rs: seq<Record>, lost: nat,
                                                gapless: bool)
    requires Small(defs, passes) && |passes| > 0
    requires s == Run(Opened(defs), OpsOf(passes)) && rs == Written(passes)
    requires lost == Lost(Opened(defs), OpsOf(passes)) && gapless == Gapless(Opened(defs), OpsOf(passes))
    ensures s.queue == [] && NoOrphans(Opened(defs), OpsOf(passes))
    ensures gapless ==> s.file <= SchemaOf(defs) + Stream(rs)
    ensures s.open ==> |s.file| + lost == |SchemaOf(defs)| + |Stream(rs)|
    ensures s.open ==> (s.file == SchemaOf(defs) + Stream(rs) <==> lost == 0)
  {
    PassesDrain(defs, passes);
    RoomKeepsAll(Opened(defs), OpsOf(passes));
    KeptAccounted(defs, OpsOf(passes));
    DrainedAccounted(SchemaOf(defs), s, Kept(Opened(defs), OpsOf(passes)), rs, lost, gapless);
  }

  // ---- the log thread ----

  /** One record of each type, in table order. */
  predicate OneOfEach(defs: seq<LogDef>, rs: seq<Record>) {
    |rs| == |defs| && forall i :: 0 <= i < |rs| ==> Describes(defs[i], rs[i])
  }

  predicate AllTypes(defs: seq<LogDef>, passes: seq<Pass>) {
    forall k :: 0 <= k < |passes| ==> OneOfEach(defs, passes[k].records)
  }

  const LONGEST := 49

  lemma {:induction false} StreamBound(rs: seq<Record>)
    requires forall i :: 0 <= i < |rs| ==> |RecordBytes(rs[i])| <= LONGEST
    ensures |Stream(rs)| <= LONGEST * |rs|
  {
    if |rs| > 0 {
      StreamBound(rs[1..]);
    }
  }

  /** The table's bound on what a pass writes. */
  predicate ShortBodies(defs: seq<LogDef>) {
    && |SchemaOf(defs)| + LONGEST * |defs| <= FLUSH_CHUNK
    && forall i :: 0 <= i < |defs| ==> 3 + defs[i].bodySize <= LONGEST
  }

  lemma {:induction false} BodyShort(i: nat)
    requires i < |LogDefs()|
    ensures |LogDefs()| == 11 && 3 + LogDefs()[i].bodySize <= LONGEST
  {
  }

  lemma {:induction false} RobotBodiesShort(defs: seq<LogDef>)
    requires defs == LogDefs()
    ensures ShortBodies(defs)
  {
    BodyShort(0);
    forall i | 0 <= i < |defs| ensures 3 + defs[i].bodySize <= LONGEST {
      BodyShort(i);
    }
  }

  lemma {:induction false} AllTypesSmall(defs: seq<LogDef>, passes: seq<Pass>)
    requires ShortBodies(defs) && AllTypes(defs, passes)
    ensures Small(defs, passes)
  {
    forall k | 0 <= k < |passes| ensures |SchemaOf(defs)| + |Stream(passes[k].records)| <= FLUSH_CHUNK {
      assert OneOfEach(defs, passes[k].records);
      StreamBound(passes[k].records);
    }
  }

  lemma {:induction false} DescribedConcat(defs: seq<LogDef>, a: seq<Record>, b: seq<Record>)
    requires Described(defs, a) && OneOfEach(defs, b)
    ensures Described(defs, a + b)
  {
    var rs := a + b;
    forall k | 0 <= k < |rs| ensures InTable(defs, rs[k]) {
      if k < |a| {
        assert rs[k] == a[k];
      } else {
        assert Describes(defs[k - |a|], rs[k]);
      }
    }
  }

  lemma {:induction false} AllTypesDescribed(defs: seq<LogDef>, passes: seq<Pass>)
    requires AllTypes(defs, passes)
    ensures Described(defs, Written(passes))
  {
    if |passes| > 0 {
      var before, p := passes[..|passes| - 1], passes[|passes| - 1];
      AllTypesDescribed(defs, before);
      DescribedConcat(defs, Written(before), p.records);
    }
  }

  lemma {:induction false} WholeFile(schema: seq<Byte>, file: seq<Byte>, rs: seq<Record>)
    requires file == schema + Stream(rs)
    ensures |file| >= |schema| && file <= schema + Stream(rs) && Whole(rs, |file| - |schema|) == rs
  {
    WholeExactly(rs, |Stream(rs)|);
  }

  lemma {:induction false} PassesDecode(defs: seq<LogDef>, passes: seq<Pass>, s: State, rs: seq<Record>)
    requires WellFormed(defs) && ShortBodies(defs) && AllTypes(defs, passes) && |passes| > 0
    requires s == Run(Opened(defs), OpsOf(passes)) && rs == Written(passes)
    requires Gapless(Opened(defs), OpsOf(passes)) && |s.file| >= |SchemaOf(defs)|
    ensures Decodes(s.file, defs, rs)
  {
    AllTypesSmall(defs, passes);
    AllTypesDescribed(defs, passes);
    PassesAccounted(defs, passes, s, rs, Lost(Opened(defs), OpsOf(passes)), true);
    FileRoundTrip(defs, rs, s.file);
  }

  lemma {:induction false} PassesWhole(defs: seq<LogDef>, passes: seq<Pass>, s: State, rs: seq<Record>, lost: nat)
    requires ShortBodies(defs) && AllTypes(defs, passes) && |passes| > 0
    requires s == Run(Opened(defs), OpsOf(passes)) && rs == Written(passes) && lost == Lost(Opened(defs), OpsOf(passes))
    ensures s.queue == [] && NoOrphans(Opened(defs), OpsOf(passes))
    ensures s.open ==> (s.file == SchemaOf(defs) + Stream(rs) <==> lost == 0)
    ensures s.open && lost == 0 ==>
              && Gapless(Opened(defs), OpsOf(passes))
              && |s.file| >= |SchemaOf(defs)| && Whole(rs, |s.file| - |SchemaOf(defs)|) == rs
  {
    AllTypesSmall(defs, passes);
    PassesAccounted(defs, passes, s, rs, lost, Gapless(Opened(defs), OpsOf(passes)));
    if s.open && lost == 0 {
      LosslessIsGapless(Opened(defs), OpsOf(passes));
      WholeFile(SchemaOf(defs), s.file, rs);
    }
  }

  /**
   Over every run of the log thread, whatever the card does: the ring is empty after every pass, no
   header is left alone, and the file of a log still open is the schema and every record written exactly
   when no byte was lost; it then decodes to the table and all of them. Without gaps, once the schema is
   in it, the file decodes to the table and the records written that lie wholly in it.
   */
  lemma {:induction false} ThreadLogDecodes(defs: seq<LogDef>, passes: seq<Pass>, s: State, rs: seq<Record>, lost: nat)
    requires defs == LogDefs() && AllTypes(defs, passes) && |passes| > 0
    requires s == Run(Opened(defs), OpsOf(passes)) && rs == Written(passes) && lost == Lost(Opened(defs), OpsOf(passes))
    ensures s.queue == [] && NoOrphans(Opened(defs), OpsOf(passes))
    ensures s.open ==> (s.file == SchemaOf(defs) + Stream(rs) <==> lost == 0)
    ensures Gapless(Opened(defs), OpsOf(passes)) && |s.file| >= |SchemaOf(defs)| ==> Decodes(s.file, defs, rs)
    ensures s.open && lost == 0 ==> Decodes(s.file, defs, rs) && Whole(rs, |s.file| - |SchemaOf(defs)|) == rs
  {
    TableWellFormed();
    RobotBodiesShort(defs);
    PassesWhole(defs, passes, s, rs, lost);
    if Gapless(Opened(defs), OpsOf(passes)) && |s.file| >= |SchemaOf(defs)| {
      PassesDecode(defs, passes, s, rs);
    }
  }

  // ---- another caller ----

  function Times(r: Record, n: nat): (rs: seq<Record>)
    ensures |rs| == n
  {
    if n == 0 then [] else Times(r, n - 1) + [r]
  }

  lemma {:induction false} TimesFit(s: State, r: Record, n: nat)
    requires |RecordBytes(r)| == LONGEST && |s.queue| + LONGEST * n <= CAPACITY
    ensures NoOrphans(s, Logs(Times(r, n)))
    ensures s.open ==> Run(s, Logs(Times(r, n))).open && |Run(s, Logs(Times(r, n))).queue| == |s.queue| + LONGEST * n
  {
    TimesSize(r, n);
    LogsFit(s, Times(r, n));
    RoomKeepsAll(s, Logs(Times(r, n)));
  }

  /** n records fit; of the next one only the header does. */
  lemma {:induction false} HeaderLeft(s: State, r: Record, n: nat, more: nat)
    requires |RecordBytes(r)| == LONGEST && s.open && n < more
    requires |s.queue| + LONGEST * n + 3 <= CAPACITY < |s.queue| + LONGEST * n + LONGEST
    ensures !NoOrphans(s, Logs(Times(r, more)))
  {
    TimesFit(s, r, n);
    LogsPrefix(r, more, n);
    WriteOutcome(Run(s, Logs(Times(r, n))), r);
  }

  /**
   A caller that only ever writes the longest record of the table, without a flush, leaves a lone header
   exactly when it writes more than 648 of them.
   */
  lemma {:induction false} LoneHeaderExactly(defs: seq<LogDef>, r: Record, n: nat)
    requires defs == LogDefs() && Describes(defs[0], r)
    ensures NoOrphans(Opened(defs), Logs(Times(r, n))) <==> n <= 648
  {
    assert |r.body| == 46 && |SchemaOf(defs)| == 979;
    if n <= 648 {
      TimesFit(Opened(defs), r, n);
    } else {
      HeaderLeft(Opened(defs), r, 648, n);
    }
  }

  lemma {:induction false} TimesSize(r: Record, n: nat)
    requires |RecordBytes(r)| == LONGEST
    ensures |Stream(Times(r, n))| == LONGEST * n
  {
    if n > 0 {
      TimesSize(r, n - 1);
      StreamNext(Times(r, n - 1), r);
    }
  }

  lemma {:induction false} LogsPrefix(r: Record, n: nat, k: nat)
    requires k < n
    ensures |Logs(Times(r, n))| == n && Logs(Times(r, n))[..k] == Logs(Times(r, k)) && Logs(Times(r, n))[k] == Log(r)
  {
    LogsOfTimes(r, n);
    LogsOfTimes(r, k);
  }

  lemma {:induction false} LogsOfTimes(r: Record, n: nat)
    ensures |Logs(Times(r, n))| == n && forall i :: 0 <= i < n ==> Logs(Times(r, n))[i] == Log(r)
  {
    if n > 0 {
      LogsOfTimes(r, n - 1);
      assert Times(r, n)[..n - 1] == Times(r, n - 1);
    }
  }
}
