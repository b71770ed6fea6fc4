/** The offline log decoder, and that it recovers exactly what the logger wrote. */
module LogDecoder {
  import opened LogFormat

  datatype Entry = Entry(name: string, bodySize: int, layout: seq<nat>, labels: seq<string>)

  type Schema = map<Byte, Entry>
  type Rows = map<Byte, seq<seq<seq<Byte>>>>

  // ---- the decoder's two scans ----

  predicate AtFmt(data: seq<Byte>, pos: nat) {
    pos + FMT_SIZE <= |data| && data[pos..pos + 3] == [SYNC1, SYNC2, FMT_ID]
  }

  function EntryAt(data: seq<Byte>, pos: nat): Entry
    requires pos + FMT_SIZE <= |data|
  {
    var length: int := data[pos + 4];
    var name := Stripped(Chars(data[pos + 5..pos + 9]), true);
    var fmt := Stripped(Chars(data[pos + 9..pos + 25]), false);
    var labels := Stripped(Chars(data[pos + 25..pos + 89]), false);
    Entry(name, length - 3, Layout(fmt), Labels(Split(labels)))
  }

  datatype Scanned = Scanned(schema: Schema, pos: nat)

  /** Schema records from pos on, as long as they last. */
  function SchemaFrom(data: seq<Byte>, pos: nat, schema: Schema): Scanned
    decreases |data| - pos
  {
    if AtFmt(data, pos) then SchemaFrom(data, pos + FMT_SIZE, schema[data[pos + 3] := EntryAt(data, pos)])
    else Scanned(schema, pos)
  }

  datatype Record = Record(id: Byte, body: seq<Byte>)

  /** The records unpacked, in file order, and the bytes passed over in search of a sync mark. */
  datatype Decoded = Decoded(records: seq<Record>, skipped: nat)

  /** Every entry moves the scan forward; a length byte of zero would not. */
  predicate Advancing(schema: Schema) {
    forall t :: t in schema && t != FMT_ID ==> schema[t].bodySize > -3
  }

  /** The bytes from start to end, none if they are out of order. */
  function Slice(data: seq<Byte>, start: nat, end: nat): seq<Byte>
    requires end <= |data|
  {
    if start <= end then data[start..end] else []
  }

  /** The record, if its size matches its format. */
  function Unpacked(id: Byte, layout: seq<nat>, body: seq<Byte>): seq<Record> {
    if Total(layout) == |body| then [Record(id, body)] else []
  }

  function After(done: seq<Record>, skipped: nat, d: Decoded): Decoded {
    Decoded(done + d.records, skipped + d.skipped)
  }

  /** Data records from pos on, resynchronising byte by byte, up to where a pass would not move on. */
  function RecordsFrom(data: seq<Byte>, pos: nat, schema: Schema): Decoded
    decreases |data| - pos
  {
    if pos >= |data| - 3 then Decoded([], 0)
    else if data[pos] != SYNC1 || data[pos + 1] != SYNC2 then
      After([], 1, RecordsFrom(data, pos + 1, schema))
    else
      var id := data[pos + 2];
      if id == FMT_ID then RecordsFrom(data, pos + FMT_SIZE, schema)
      else if id !in schema then RecordsFrom(data, pos + 1, schema)
      else
        var end := pos + 3 + schema[id].bodySize;
        if end > |data| || end <= pos then Decoded([], 0)
        else After(Unpacked(id, schema[id].layout, Slice(data, pos + 3, end)), 0, RecordsFrom(data, end, schema))
  }

  // ---- when the record scan ends ----

  /** Body sizes come from length bytes. */
  predicate Sized(schema: Schema) {
    forall t :: t in schema ==> schema[t].bodySize >= -3
  }

  lemma {:induction false} SchemaSized(data: seq<Byte>, pos: nat, schema: Schema)
    requires Sized(schema)
    ensures Sized(SchemaFrom(data, pos, schema).schema)
    decreases |data| - pos
  {
    if AtFmt(data, pos) {
      SchemaSized(data, pos + FMT_SIZE, schema[data[pos + 3] := EntryAt(data, pos)]);
    }
  }

  /** Where one pass of the record scan leaves the position; past the data if it stops. */
  function NextPos(data: seq<Byte>, pos: nat, schema: Schema): (next: nat)
    requires Sized(schema) && pos < |data| - 3
  {
    if data[pos] != SYNC1 || data[pos + 1] != SYNC2 then pos + 1
    else
      var id := data[pos + 2];
      if id == FMT_ID then pos + FMT_SIZE
      else if id !in schema then pos + 1
      else if pos + 3 + schema[id].bodySize > |data| then |data|
      else pos + 3 + schema[id].bodySize
  }

  ghost predicate AlwaysMoves(schema: Schema)
    requires Sized(schema)
  {
    forall data: seq<Byte>, pos: nat :: pos < |data| - 3 ==> NextPos(data, pos, schema) > pos
  }

  /** Every pass of the record scan moves on, over any data, exactly when no data type has a zero length byte. */
  lemma MovesExactly(schema: Schema)
    requires Sized(schema)
    ensures AlwaysMoves(schema) <==> Advancing(schema)
  {
    if t :| t in schema && t != FMT_ID && schema[t].bodySize == -3 {
      assert NextPos([SYNC1, SYNC2, t, 0], 0, schema) == 0;
    }
  }

  /** The record scan from pos on comes to an end. */
  predicate Ends(data: seq<Byte>, pos: nat, schema: Schema)
    requires Sized(schema)
    decreases |data| - pos
  {
    pos >= |data| - 3 || (NextPos(data, pos, schema) > pos && Ends(data, NextPos(data, pos, schema), schema))
  }

  /** The position after n passes. */
  function PosAfter(data: seq<Byte>, pos: nat, schema: Schema, n: nat): nat
    requires Sized(schema)
    decreases n
  {
    if n == 0 || pos >= |data| - 3 then pos else PosAfter(data, NextPos(data, pos, schema), schema, n - 1)
  }

  lemma {:induction false} EndsReached(data: seq<Byte>, pos: nat, schema: Schema) returns (n: nat)
    requires Sized(schema) && Ends(data, pos, schema)
    ensures PosAfter(data, pos, schema, n) >= |data| - 3
    decreases |data| - pos
  {
    n := 0;
    if pos < |data| - 3 {
      n := EndsReached(data, NextPos(data, pos, schema), schema);
      n := n + 1;
    }
  }

  lemma {:induction false} StuckNeverEnds(data: seq<Byte>, pos: nat, schema: Schema, n: nat)
    requires Sized(schema) && !Ends(data, pos, schema)
    ensures PosAfter(data, pos, schema, n) < |data| - 3
    decreases n
  {
    if n > 0 {
      StuckNeverEnds(data, NextPos(data, pos, schema), schema, n - 1);
    }
  }

  /** Ends says exactly that some number of passes finishes the scan. */
  lemma EndsExactly(data: seq<Byte>, pos: nat, schema: Schema)
    requires Sized(schema)
    ensures Ends(data, pos, schema) <==> exists n: nat :: PosAfter(data, pos, schema, n) >= |data| - 3
  {
    if Ends(data, pos, schema) {
      var n := EndsReached(data, pos, schema);
    } else {
      forall n: nat ensures PosAfter(data, pos, schema, n) < |data| - 3 {
        StuckNeverEnds(data, pos, schema, n);
      }
    }
  }

  lemma {:induction false} AdvancingEnds(data: seq<Byte>, pos: nat, schema: Schema)
    requires Sized(schema) && Advancing(schema)
    ensures Ends(data, pos, schema)
    decreases |data| - pos
  {
    if pos < |data| - 3 {
      AdvancingEnds(data, NextPos(data, pos, schema), schema);
    }
  }

  /** One schema record whose length byte is zero, then a record of its type. */
  function StuckFile(t: Byte): (file: seq<Byte>)
    ensures |file| == FMT_SIZE + 4
  {
    [SYNC1, SYNC2, FMT_ID, t, 0] + Zeros(84) + [SYNC1, SYNC2, t, 0]
  }

  /** On that file the schema scan stops at the record, and the record scan never leaves it. */
  lemma StuckFileNeverEnds(t: Byte)
    requires t != FMT_ID
    ensures var (file, scanned) := (StuckFile(t), SchemaFrom(StuckFile(t), 0, map[]));
            && Sized(scanned.schema) && scanned.pos == FMT_SIZE && NextPos(file, FMT_SIZE, scanned.schema) == FMT_SIZE
            && !Ends(file, scanned.pos, scanned.schema)
  {
    var file := StuckFile(t);
    assert file[0..3] == [SYNC1, SYNC2, FMT_ID] && file[3] == t && file[4] == 0;
    assert file[FMT_SIZE] == SYNC1 && file[FMT_SIZE + 1] == SYNC2 && file[FMT_SIZE + 2] == t;
    SchemaSized(file, 0, map[]);
    var schema: Schema := map[t := EntryAt(file, 0)];
    assert map[][t := EntryAt(file, 0)] == schema;
    assert SchemaFrom(file, 0, map[]) == SchemaFrom(file, FMT_SIZE, schema) == Scanned(schema, FMT_SIZE);
  }

  /** The bodies of one type, in order. */
  function BodiesOf(rs: seq<Record>, id: Byte): seq<seq<Byte>> {
    if |rs| == 0 then []
    else BodiesOf(rs[..|rs| - 1], id) + (if rs[|rs| - 1].id == id then [rs[|rs| - 1].body] else [])
  }

  /** The rows of one type are the fields of its bodies. */
  predicate RowHolds(row: seq<seq<seq<Byte>>>, layout: seq<nat>, bodies: seq<seq<Byte>>) {
    && |row| == |bodies|
    && forall i :: 0 <= i < |row| ==> Total(layout) == |bodies[i]| && row[i] == Cut(layout, bodies[i])
  }

  /** Every row list holds the fields of the bodies of its type. */
  predicate RowsHold(rows: Rows, schema: Schema, rs: seq<Record>) {
    rows.Keys == schema.Keys && forall t :: t in schema ==> RowHolds(rows[t], schema[t].layout, BodiesOf(rs, t))
  }

  method ReadSchema(data: seq<Byte>) returns (schema: Schema, pos: nat)
    ensures Scanned(schema, pos) == SchemaFrom(data, 0, map[])
  {
    schema, pos := map[], 0;
    while pos + FMT_SIZE <= |data|
      invariant SchemaFrom(data, pos, schema) == SchemaFrom(data, 0, map[])
      decreases |data| - pos
    {
      if data[pos..pos + 3] != [SYNC1, SYNC2, FMT_ID] {
        break;
      }
      schema := schema[data[pos + 3] := EntryAt(data, pos)];
      pos := pos + FMT_SIZE;
    }
  }

  lemma {:induction false} BodiesNext(rs: seq<Record>, r: Record, t: Byte)
    ensures BodiesOf(rs + [r], t) == BodiesOf(rs, t) + (if r.id == t then [r.body] else [])
  {
    assert (rs + [r])[..|rs|] == rs;
  }

  lemma {:induction false} RowAppended(rows: Rows, rows': Rows, schema: Schema, rs: seq<Record>, r: Record)
    requires RowsHold(rows, schema, rs) && r.id in schema && Total(schema[r.id].layout) == |r.body|
    requires rows' == rows[r.id := rows[r.id] + [Cut(schema[r.id].layout, r.body)]]
    ensures RowsHold(rows', schema, rs + [r])
  {
    forall t | t in schema ensures RowHolds(rows'[t], schema[t].layout, BodiesOf(rs + [r], t)) {
      BodiesNext(rs, r, t);
      assert BodiesOf(rs, t) + [] == BodiesOf(rs, t);
      assert RowHolds(rows[t], schema[t].layout, BodiesOf(rs, t));
    }
  }

  /** One record at pos: its row is added if it unpacks. */
  method ReadRow(data: seq<Byte>, pos: nat, end: nat, schema: Schema, rows: Rows, ghost done: seq<Record>)
    returns (rows': Rows, ghost done': seq<Record>)
    requires pos + 3 <= |data| && end <= |data| && data[pos + 2] in schema && RowsHold(rows, schema, done)
    ensures RowsHold(rows', schema, done')
    ensures done' == done + Unpacked(data[pos + 2], schema[data[pos + 2]].layout, Slice(data, pos + 3, end))
  {
    var id, body := data[pos + 2], Slice(data, pos + 3, end);
    rows', done' := rows, done;
    if Total(schema[id].layout) == |body| {
      rows' := rows[id := rows[id] + [Cut(schema[id].layout, body)]];
      done' := done + [Record(id, body)];
      RowAppended(rows, rows', schema, done, Record(id, body));
    }
  }

  predicate InSync(data: seq<Byte>, pos: nat)
    requires pos + 1 < |data|
  {
    data[pos] == SYNC1 && data[pos + 1] == SYNC2
  }

  /** What is done and what the scan from pos on yields make up the whole, and that scan ends. */
  predicate Scanning(data: seq<Byte>, pos: nat, schema: Schema, done: seq<Record>, skipped: nat, all: Decoded)
    requires Sized(schema)
  {
    Ends(data, pos, schema) && all == After(done, skipped, RecordsFrom(data, pos, schema))
  }

  lemma PassByte(data: seq<Byte>, pos: nat, schema: Schema, done: seq<Record>, skipped: nat, all: Decoded)
    requires Sized(schema) && pos < |data| - 3 && !InSync(data, pos) && Scanning(data, pos, schema, done, skipped, all)
    ensures Scanning(data, pos + 1, schema, done, skipped + 1, all)
  {
  }

  lemma PassUnread(data: seq<Byte>, pos: nat, schema: Schema, done: seq<Record>, skipped: nat, all: Decoded)
    requires Sized(schema) && pos < |data| - 3 && InSync(data, pos) && Scanning(data, pos, schema, done, skipped, all)
    ensures data[pos + 2] == FMT_ID ==> Scanning(data, pos + FMT_SIZE, schema, done, skipped, all)
    ensures data[pos + 2] != FMT_ID && data[pos + 2] !in schema ==> Scanning(data, pos + 1, schema, done, skipped, all)
  {
  }

  lemma TakeRecord(data: seq<Byte>, pos: nat, end: nat, schema: Schema, done: seq<Record>, skipped: nat, all: Decoded)
    requires Sized(schema) && pos < |data| - 3 && InSync(data, pos) && Scanning(data, pos, schema, done, skipped, all)
    requires data[pos + 2] != FMT_ID && data[pos + 2] in schema && end == pos + 3 + schema[data[pos + 2]].bodySize <= |data|
    ensures var id := data[pos + 2];
            pos < end && Scanning(data, end, schema, done + Unpacked(id, schema[id].layout, Slice(data, pos + 3, end)), skipped, all)
  {
  }

  lemma ScanOver(data: seq<Byte>, pos: nat, schema: Schema, done: seq<Record>, skipped: nat, all: Decoded)
    requires Sized(schema) && Scanning(data, pos, schema, done, skipped, all)
    requires pos < |data| - 3 ==>
               && InSync(data, pos) && data[pos + 2] != FMT_ID && data[pos + 2] in schema
               && pos + 3 + schema[data[pos + 2]].bodySize > |data|
    ensures all == Decoded(done, skipped)
  {
    assert done + [] == done;
  }

  method ReadRows(data: seq<Byte>, start: nat, schema: Schema) returns (rows: Rows, skipped: nat)
    requires Sized(schema) && Ends(data, start, schema)
    ensures RowsHold(rows, schema, RecordsFrom(data, start, schema).records)
    ensures skipped == RecordsFrom(data, start, schema).skipped
  {
    rows, skipped := map t | t in schema :: [], 0;
    var pos := start;
    ghost var done: seq<Record> := [];
    ghost var all := RecordsFrom(data, start, schema);
    while pos < |data| - 3
      invariant RowsHold(rows, schema, done) && Scanning(data, pos, schema, done, skipped, all)
      decreases |data| - pos
    {
      if data[pos] != SYNC1 || data[pos + 1] != SYNC2 {
        PassByte(data, pos, schema, done, skipped, all);
        pos := pos + 1;
        skipped := skipped + 1;
        continue;
      }
      var id := data[pos + 2];
      PassUnread(data, pos, schema, done, skipped, all);
      if id == FMT_ID {
        pos := pos + FMT_SIZE;
        continue;
      }
      if id !in schema {
        pos := pos + 1;
        continue;
      }
      var end := pos + 3 + schema[id].bodySize;
      if end > |data| {
        break;
      }
      TakeRecord(data, pos, end, schema, done, skipped, all);
      rows, done := ReadRow(data, pos, end, schema, rows, done);
      pos := end;
    }
    ScanOver(data, pos, schema, done, skipped, all);
  }

  /** The whole decoder; nothing is decoded when the file starts with no schema record. */
  method Decode(data: seq<Byte>) returns (schema: Schema, rows: Rows, skipped: nat)
    requires var scanned := SchemaFrom(data, 0, map[]); Sized(scanned.schema) && Ends(data, scanned.pos, scanned.schema)
    ensures schema == SchemaFrom(data, 0, map[]).schema
    ensures schema == map[] ==> rows == map[] && skipped == 0
    ensures schema != map[] ==>
              var d := RecordsFrom(data, SchemaFrom(data, 0, map[]).pos, schema);
              RowsHold(rows, schema, d.records) && skipped == d.skipped
  {
    var pos;
    schema, pos := ReadSchema(data);
    rows, skipped := map[], 0;
    if schema != map[] {
      rows, skipped := ReadRows(data, pos, schema);
    }
  }

  // ---- what the logger writes ----

  function RecordBytes(r: Record): (s: seq<Byte>)
    ensures |s| == 3 + |r.body|
  {
    [SYNC1, SYNC2, r.id] + r.body
  }

  function Stream(rs: seq<Record>): seq<Byte> {
    if |rs| == 0 then [] else RecordBytes(rs[0]) + Stream(rs[1..])
  }

  /** The records that lie wholly within the first n bytes of their stream. */
  function Whole(rs: seq<Record>, n: int): seq<Record> {
    if |rs| == 0 || |RecordBytes(rs[0])| > n then [] else [rs[0]] + Whole(rs[1..], n - |RecordBytes(rs[0])|)
  }

  /** The schema has an entry of the record's exact size. */
  predicate Known(schema: Schema, r: Record) {
    && r.id in schema && r.id != FMT_ID && |r.body| > 0
    && schema[r.id].bodySize == |r.body| == Total(schema[r.id].layout)
  }

  predicate AllKnown(schema: Schema, rs: seq<Record>) {
    forall i :: 0 <= i < |rs| ==> Known(schema, rs[i])
  }

  // ---- the schema comes back ----

  function EntryOf(d: LogDef): Entry {
    Entry(d.name, d.bodySize, Layout(d.fmt), Labels(Split(d.labels)))
  }

  /** The table as the decoder holds it. */
  function Collected(defs: seq<LogDef>, schema: Schema): Schema {
    if |defs| == 0 then schema else Collected(defs[1..], schema[defs[0].id := EntryOf(defs[0])])
  }

  lemma FieldAt(data: seq<Byte>, pos: nat, r: seq<Byte>, lo: nat, hi: nat)
    requires pos + |r| <= |data| && data[pos..pos + |r|] == r && lo <= hi <= |r|
    ensures data[pos + lo..pos + hi] == r[lo..hi]
  {
    forall k | lo <= k < hi ensures data[pos + k] == r[k] {
      assert r[k] == data[pos..pos + |r|][k];
    }
  }

  lemma FmtFields(d: LogDef)
    ensures var r := FmtRecord(d);
            && r[0..3] == [SYNC1, SYNC2, FMT_ID] && r[3] == d.id && r[4] == (3 + d.bodySize) % 256
            && r[5..9] == Field(d.name, 4, 4)
            && r[9..25] == Field(d.fmt, 15, 16)
            && r[25..89] == Field(d.labels, 63, 64)
  {
  }

  /** One schema record read back. */
  lemma EntryRoundTrip(data: seq<Byte>, pos: nat, d: LogDef)
    requires pos + FMT_SIZE <= |data| && data[pos..pos + FMT_SIZE] == FmtRecord(d) && Fits(d)
    ensures AtFmt(data, pos) && data[pos + 3] == d.id && EntryAt(data, pos) == EntryOf(d)
  {
    var r := FmtRecord(d);
    FmtFields(d);
    FieldAt(data, pos, r, 0, 3);
    FieldAt(data, pos, r, 5, 9);
    FieldAt(data, pos, r, 9, 25);
    FieldAt(data, pos, r, 25, 89);
    assert data[pos + 3] == r[3] && data[pos + 4] == r[4];
    EntryTexts(data, pos, d);
  }

  lemma EntryTexts(data: seq<Byte>, pos: nat, d: LogDef)
    requires pos + FMT_SIZE <= |data| && Fits(d) && data[pos + 4] == 3 + d.bodySize
    requires data[pos + 5..pos + 9] == Field(d.name, 4, 4)
    requires data[pos + 9..pos + 25] == Field(d.fmt, 15, 16)
    requires data[pos + 25..pos + 89] == Field(d.labels, 63, 64)
    ensures EntryAt(data, pos) == EntryOf(d)
  {
    FieldRoundTrip(d.name, 4, 4, true);
    FieldRoundTrip(d.fmt, 15, 16, false);
    FieldRoundTrip(d.labels, 63, 64, false);
  }

  lemma AtFmtShift(data: seq<Byte>, pos: nat)
    requires pos <= |data|
    ensures AtFmt(data, pos) <==> AtFmt(data[pos..], 0)
  {
    if pos + FMT_SIZE <= |data| {
      assert data[pos..][0..3] == data[pos..pos + 3];
    }
  }

  /** The schema scan over a well-formed table stops right after it with the table. */
  lemma {:induction false} SchemaRoundTrip(data: seq<Byte>, pos: nat, defs: seq<LogDef>, rest: seq<Byte>, schema: Schema)
    requires pos <= |data| && data[pos..] == SchemaOf(defs) + rest && !AtFmt(rest, 0)
    requires forall i :: 0 <= i < |defs| ==> Fits(defs[i])
    ensures SchemaFrom(data, pos, schema) == Scanned(Collected(defs, schema), pos + |SchemaOf(defs)|)
    decreases |defs|
  {
    if |defs| == 0 {
      assert data[pos..] == rest;
      AtFmtShift(data, pos);
    } else {
      var next := pos + FMT_SIZE;
      assert data[pos..][..FMT_SIZE] == FmtRecord(defs[0]);
      assert data[pos..next] == data[pos..][..FMT_SIZE];
      EntryRoundTrip(data, pos, defs[0]);
      assert data[next..] == data[pos..][FMT_SIZE..];
      assert (SchemaOf(defs) + rest)[FMT_SIZE..] == SchemaOf(defs[1..]) + rest;
      SchemaRoundTrip(data, next, defs[1..], rest, schema[defs[0].id := EntryOf(defs[0])]);
    }
  }

  /** The collected table holds exactly the entries of the definitions. */
  lemma {:induction false} CollectedEntries(defs: seq<LogDef>, schema: Schema)
    requires forall i, j :: 0 <= i < j < |defs| ==> defs[i].id != defs[j].id
    ensures forall i :: 0 <= i < |defs| ==>
              defs[i].id in Collected(defs, schema) && Collected(defs, schema)[defs[i].id] == EntryOf(defs[i])
    ensures forall t :: t in Collected(defs, schema) ==> t in schema || exists i :: 0 <= i < |defs| && defs[i].id == t
    ensures forall t :: t in schema && (forall i :: 0 <= i < |defs| ==> defs[i].id != t) ==>
              t in Collected(defs, schema) && Collected(defs, schema)[t] == schema[t]
  {
    if |defs| > 0 {
      var next := schema[defs[0].id := EntryOf(defs[0])];
      CollectedEntries(defs[1..], next);
      forall t | t in Collected(defs, schema) ensures t in schema || exists i :: 0 <= i < |defs| && defs[i].id == t {
        if t !in schema {
          if t == defs[0].id {
          } else {
            var i :| 0 <= i < |defs[1..]| && defs[1..][i].id == t;
            assert defs[i + 1].id == t;
          }
        }
      }
      forall i | 0 <= i < |defs| ensures
        defs[i].id in Collected(defs, schema) && Collected(defs, schema)[defs[i].id] == EntryOf(defs[i])
      {
        if i > 0 {
          assert defs[1..][i - 1] == defs[i];
        }
      }
    }
  }

  // ---- the records come back ----

  lemma PrefixHead(data: seq<Byte>, pos: nat, r: Record, rest: seq<Record>)
    requires pos <= |data| && data[pos..] <= RecordBytes(r) + Stream(rest)
    ensures |data| - pos > 0 ==> data[pos] == SYNC1
    ensures |data| - pos > 1 ==> data[pos + 1] == SYNC2
    ensures |data| - pos > 2 ==> data[pos + 2] == r.id
    ensures |data| - pos >= |RecordBytes(r)| ==>
              && data[pos + 3..pos + |RecordBytes(r)|] == r.body
              && data[pos + |RecordBytes(r)|..] <= Stream(rest)
  {
    var s, all := data[pos..], RecordBytes(r) + Stream(rest);
    assert s == all[..|s|];
    var k := |RecordBytes(r)|;
    if |s| >= k {
      assert data[pos + 3..pos + k] == s[3..k] == all[3..k];
      assert data[pos + k..] == s[k..] == all[k..|s|];
      assert all[k..|s|] == Stream(rest)[..|s| - k];
    }
  }

  /** The scan takes in a record that lies wholly in the data. */
  lemma TakesWhole(data: seq<Byte>, pos: nat, schema: Schema, r: Record, rest: seq<Record>)
    requires Known(schema, r)
    requires pos + 3 + |r.body| <= |data| && data[pos] == SYNC1 && data[pos + 1] == SYNC2 && data[pos + 2] == r.id
    requires data[pos + 3..pos + 3 + |r.body|] == r.body
    requires RecordsFrom(data, pos + 3 + |r.body|, schema) == Decoded(rest, 0)
    ensures RecordsFrom(data, pos, schema) == Decoded([r] + rest, 0)
  {
    assert Slice(data, pos + 3, pos + 3 + |r.body|) == r.body;
  }

  /** The scan stops at a record that is cut off. */
  lemma StopsAtPartial(data: seq<Byte>, pos: nat, schema: Schema, r: Record)
    requires Known(schema, r) && pos <= |data| < pos + 3 + |r.body|
    requires |data| - pos > 2 ==> data[pos] == SYNC1 && data[pos + 1] == SYNC2 && data[pos + 2] == r.id
    ensures RecordsFrom(data, pos, schema) == Decoded([], 0)
  {
  }

  predicate HeaderAt(data: seq<Byte>, pos: nat, id: Byte) {
    && (|data| - pos > 0 ==> data[pos] == SYNC1)
    && (|data| - pos > 1 ==> data[pos + 1] == SYNC2)
    && (|data| - pos > 2 ==> data[pos + 2] == id)
  }

  /** The data from pos on is the records in order, the last of them possibly cut off. */
  predicate Follows(data: seq<Byte>, pos: nat, rs: seq<Record>)
    decreases |rs|
  {
    if |rs| == 0 then pos == |data|
    else
      var end := pos + 3 + |rs[0].body|;
      && pos <= |data| && HeaderAt(data, pos, rs[0].id)
      && (end <= |data| ==> data[pos + 3..end] == rs[0].body && Follows(data, end, rs[1..]))
  }

  lemma {:induction false} PrefixFollows(data: seq<Byte>, pos: nat, rs: seq<Record>)
    requires pos <= |data| && data[pos..] <= Stream(rs)
    ensures Follows(data, pos, rs)
    decreases |rs|
  {
    if |rs| == 0 {
      assert data[pos..] == [];
    } else {
      PrefixHead(data, pos, rs[0], rs[1..]);
      var end := pos + 3 + |rs[0].body|;
      if end <= |data| {
        PrefixFollows(data, end, rs[1..]);
      }
    }
  }

  /**
   Over records in order, the last of them possibly cut off, the scan recovers exactly those that lie
   wholly in the data, in order, and skips no byte.
   */
  lemma {:induction false} RecordsRoundTrip(data: seq<Byte>, pos: nat, schema: Schema, rs: seq<Record>)
    requires AllKnown(schema, rs) && Follows(data, pos, rs)
    ensures RecordsFrom(data, pos, schema) == Decoded(Whole(rs, |data| - pos), 0)
    decreases |rs|
  {
    if |rs| > 0 {
      var end := pos + 3 + |rs[0].body|;
      KnownParts(schema, rs);
      if end <= |data| {
        RecordsRoundTrip(data, end, schema, rs[1..]);
        TakesWhole(data, pos, schema, rs[0], Whole(rs[1..], |data| - end));
      } else {
        StopsAtPartial(data, pos, schema, rs[0]);
      }
    }
  }

  lemma KnownParts(schema: Schema, rs: seq<Record>)
    requires |rs| > 0 && AllKnown(schema, rs)
    ensures Known(schema, rs[0]) && AllKnown(schema, rs[1..])
  {
  }

  // ---- whole files ----

  predicate Describes(d: LogDef, r: Record) {
    d.id == r.id && d.bodySize == |r.body|
  }

  predicate InTable(defs: seq<LogDef>, r: Record) {
    exists i :: 0 <= i < |defs| && Describes(defs[i], r)
  }

  /** Every record is of a type in the table and has its size. */
  predicate Described(defs: seq<LogDef>, rs: seq<Record>) {
    forall k :: 0 <= k < |rs| ==> InTable(defs, rs[k])
  }

  lemma DescribedKnown(defs: seq<LogDef>, rs: seq<Record>)
    requires WellFormed(defs) && Described(defs, rs)
    ensures Advancing(Collected(defs, map[])) && AllKnown(Collected(defs, map[]), rs)
  {
    var schema := Collected(defs, map[]);
    CollectedEntries(defs, map[]);
    forall t | t in schema ensures schema[t].bodySize > -3 {
      var i :| 0 <= i < |defs| && defs[i].id == t;
    }
    forall k | 0 <= k < |rs| ensures Known(schema, rs[k]) {
      assert InTable(defs, rs[k]);
      var i :| 0 <= i < |defs| && Describes(defs[i], rs[k]);
      assert Fits(defs[i]) && Covers(defs[i]);
    }
  }

  lemma RecordsAreNotSchema(defs: seq<LogDef>, rs: seq<Record>, rest: seq<Byte>)
    requires WellFormed(defs) && Described(defs, rs) && rest <= Stream(rs)
    ensures !AtFmt(rest, 0)
  {
    if |rs| > 0 {
      DescribedKnown(defs, rs);
      assert Known(Collected(defs, map[]), rs[0]);
      assert rest[0..] == rest;
      PrefixHead(rest, 0, rs[0], rs[1..]);
      assert |rest| >= 3 ==> rest[0..3][2] == rs[0].id;
    }
  }

  /** The file decodes to exactly the table, and to exactly the given records that lie wholly in it. */
  ghost predicate Decodes(file: seq<Byte>, defs: seq<LogDef>, rs: seq<Record>) {
    var (n, schema) := (|SchemaOf(defs)|, Collected(defs, map[]));
    && n <= |file|
    && SchemaFrom(file, 0, map[]) == Scanned(schema, n)
    && Advancing(schema)
    && RecordsFrom(file, n, schema) == Decoded(Whole(rs, |file| - n), 0)
  }

  lemma PrefixParts(data: seq<Byte>, a: seq<Byte>, b: seq<Byte>)
    requires data <= a + b && |a| <= |data|
    ensures data == a + data[|a|..] && data[|a|..] <= b
  {
    var all := a + b;
    assert data == all[..|data|];
    assert data[..|a|] == all[..|a|] == a;
    assert data[|a|..] == all[|a|..|data|] == b[..|data| - |a|];
  }

  /**
   From any prefix of the table's schema and any records of its types that takes in the schema, the
   decoder recovers exactly the table and exactly the records that lie wholly in the prefix, in
   order, with no byte skipped.
   */
  lemma {:induction false} FileRoundTrip(defs: seq<LogDef>, rs: seq<Record>, data: seq<Byte>)
    requires WellFormed(defs) && Described(defs, rs)
    requires data <= SchemaOf(defs) + Stream(rs) && |SchemaOf(defs)| <= |data|
    ensures Decodes(data, defs, rs)
  {
    var n := |SchemaOf(defs)|;
    PrefixParts(data, SchemaOf(defs), Stream(rs));
    RecordsAreNotSchema(defs, rs, data[n..]);
    assert data[0..] == data;
    SchemaRoundTrip(data, 0, defs, data[n..], map[]);
    DescribedKnown(defs, rs);
    PrefixFollows(data, n, rs);
    RecordsRoundTrip(data, n, Collected(defs, map[]), rs);
  }

  /** The schema of the table holds exactly its ids, each with its own entry. */
  lemma SchemaOfTable(defs: seq<LogDef>, t: Byte)
    requires WellFormed(defs)
    ensures t in Collected(defs, map[]) <==> exists i :: 0 <= i < |defs| && defs[i].id == t
    ensures forall i :: 0 <= i < |defs| ==> defs[i].id in Collected(defs, map[]) && Collected(defs, map[])[defs[i].id] == EntryOf(defs[i])
  {
    CollectedEntries(defs, map[]);
  }

  /** A header without its body swallows what follows it as that body. */
  lemma OrphanSwallows(data: seq<Byte>, pos: nat, schema: Schema, id: Byte, after: seq<Byte>)
    requires id in schema && id != FMT_ID
    requires pos <= |data| && data[pos..] == [SYNC1, SYNC2, id] + after
    requires 0 < schema[id].bodySize == Total(schema[id].layout) <= |after|
    ensures |RecordsFrom(data, pos, schema).records| > 0
    ensures RecordsFrom(data, pos, schema).records[0] == Record(id, after[..schema[id].bodySize])
  {
    var b := schema[id].bodySize;
    var s := data[pos..];
    assert data[pos] == s[0] && data[pos + 1] == s[1] && data[pos + 2] == s[2];
    assert data[pos + 3..pos + 3 + b] == s[3..3 + b] == after[..b];
  }

  /** Bytes without a sync mark are passed over one by one, and counted; then the scan goes on as if they were not there. */
  lemma {:induction false} NoiseSkipped(data: seq<Byte>, pos: nat, schema: Schema, n: nat)
    requires pos + n + 3 <= |data| && forall k :: pos <= k < pos + n ==> data[k] != SYNC1
    ensures RecordsFrom(data, pos, schema)
         == Decoded(RecordsFrom(data, pos + n, schema).records, n + RecordsFrom(data, pos + n, schema).skipped)
    decreases n
  {
    if n > 0 {
      NoiseSkipped(data, pos + 1, schema, n - 1);
    }
  }

  /**
   At a sync mark: a schema record is passed over whole, one byte of an unknown type, and a record whose size
   does not match its format whole, all of them uncounted.
   */
  lemma {:induction false} MarkPassed(data: seq<Byte>, pos: nat, schema: Schema, id: Byte, end: int)
    requires pos + 3 < |data| && data[pos..pos + 3] == [SYNC1, SYNC2, id]
    ensures id == FMT_ID ==> RecordsFrom(data, pos, schema) == RecordsFrom(data, pos + FMT_SIZE, schema)
    ensures id != FMT_ID && id !in schema ==> RecordsFrom(data, pos, schema) == RecordsFrom(data, pos + 1, schema)
    ensures id != FMT_ID && id in schema && end == pos + 3 + schema[id].bodySize && pos + 3 <= end <= |data|
            && Total(schema[id].layout) != schema[id].bodySize ==>
              RecordsFrom(data, pos, schema) == RecordsFrom(data, end, schema)
  {
    var s := data[pos..pos + 3];
    assert data[pos] == s[0] && data[pos + 1] == s[1] && data[pos + 2] == s[2];
  }
}
