/** The DataFlash log format: schema records, data records, and the message table. */
module LogFormat {
  import opened Basics

  type Byte = b: int | 0 <= b < 256

  const SYNC1: Byte := 0xA3
  const SYNC2: Byte := 0x95
  const FMT_ID: Byte := 0x80
  const FMT_SIZE := 89

  /** One row of the message table. */
  datatype LogDef = LogDef(id: Byte, name: string, fmt: string, labels: string, bodySize: nat)

  function Repeated(c: char, n: nat): (s: string)
    ensures |s| == n && forall i :: 0 <= i < n ==> s[i] == c
  {
    seq(n, i => c)
  }

  /** Format QH, then floats times f, then bytes times B: time stamp, rate, values, flags. */
  function Codes(floats: nat, bytes: nat): (s: string)
    ensures |s| == 2 + floats + bytes
  {
    ['Q'] + (['H'] + (Repeated('f', floats) + Repeated('B', bytes)))
  }

  /** Labels start with the time stamp and the rate; the rest is written in two parts. */
  function Timed(first: string, second: string): string {
    "TimeUS,Rate," + (first + second)
  }

  function LogDefs(): (defs: seq<LogDef>) {
    [LogDef(0x09, "ATT", Codes(9, 0), Timed("Roll,Pitch,Yaw,P,Q,R,", "Pdot,Qdot,Rdot"), 46),
     LogDef(0x0A, "LIN", Codes(9, 0), Timed("X,Y,Z,U,V,W,", "Udot,Vdot,Wdot"), 46),
     LogDef(0x05, "RCIN", Codes(4, 2), Timed("YawStk,VelStk,HeightStk,", "LeanStk,Armed,Mode"), 28),
     LogDef(0x06, "OUTP", Codes(4, 0), Timed("Tq0,Tq1,", "Tq2,Tq3"), 26),
     LogDef(0x07, "HIPS", Codes(8, 0), Timed("Pos0,Pos1,Pos2,Pos3,", "Volt0,Volt1,Volt2,Volt3"), 42),
     LogDef(0x08, "HERR", Codes(0, 4), Timed("Err0,Err1,", "Err2,Err3"), 14),
     LogDef(0x0B, "LEGS", Codes(8, 0), Timed("L0,L0dot,ThL0,ThL0dot,", "L1,L1dot,ThL1,ThL1dot"), 42),
     LogDef(0x0C, "LEGV", Codes(4, 0), Timed("Leg0Xdot,Leg0Zdot,", "Leg1Xdot,Leg1Zdot"), 26),
     LogDef(0x0D, "MOTV", Codes(6, 0), Timed("HipVel0,HipVel1,HipVel2,HipVel3,", "WheelVel0,WheelVel1"), 34),
     LogDef(0x0E, "PWR", Codes(3, 0), Timed("BattV,PmonV,", "TotalI"), 22),
     LogDef(0x0F, "VNED", Codes(2, 0), Timed("XdotWorld,", "ZdotWorld"), 18)]
  }

  // ---- texts and fixed-size fields ----

  /** Character codes; the writer's texts are all ASCII. */
  function Ascii(s: string): (t: seq<Byte>)
    ensures |t| == |s|
  {
    seq(|s|, i requires 0 <= i < |s| => if s[i] < '\U{80}' then s[i] as int else 0)
  }

  /** The decoder's reading of bytes as ASCII, with a replacement mark for the others. */
  function Chars(f: seq<Byte>): (s: string)
    ensures |s| == |f|
  {
    seq(|f|, i requires 0 <= i < |f| => if f[i] < 128 then f[i] as char else '\U{FFFD}')
  }

  function Zeros(n: nat): (z: seq<Byte>)
    ensures |z| == n
  {
    seq(n, i => 0)
  }

  function Nuls(n: nat): (z: string)
    ensures |z| == n
  {
    seq(n, i => '\0')
  }

  /** A zeroed field of the given size after a copy of at most limit characters into it. */
  function Field(text: string, limit: nat, size: nat): (f: seq<Byte>)
    requires limit <= size
    ensures |f| == size
  {
    var k := Least(|text|, limit);
    Ascii(text[..k]) + Zeros(size - k)
  }

  /** The text without trailing NULs, nor trailing blanks if those count. */
  function Stripped(s: string, blanks: bool): string {
    if |s| > 0 && (s[|s| - 1] == '\0' || (blanks && s[|s| - 1] == ' ')) then Stripped(s[..|s| - 1], blanks) else s
  }

  /** Printable ASCII without blanks. */
  predicate Visible(s: string) {
    forall i :: 0 <= i < |s| ==> ' ' < s[i] <= '~'
  }

  lemma {:induction false} StrippedNuls(s: string, n: nat, blanks: bool)
    requires Visible(s)
    ensures Stripped(s + Nuls(n), blanks) == s
  {
    if n > 0 {
      assert (s + Nuls(n))[..|s| + n - 1] == s + Nuls(n - 1);
      StrippedNuls(s, n - 1, blanks);
    } else {
      assert s + Nuls(0) == s;
    }
  }

  /** A visible text that fits its field is read back whole. */
  lemma FieldRoundTrip(text: string, limit: nat, size: nat, blanks: bool)
    requires Visible(text) && |text| <= limit <= size
    ensures Stripped(Chars(Field(text, limit, size)), blanks) == text
  {
    assert text[..|text|] == text;
    assert Chars(Field(text, limit, size)) == text + Nuls(size - |text|);
    StrippedNuls(text, size - |text|, blanks);
  }

  // ---- label lists ----

  function Split(s: string): (words: seq<string>)
    ensures |words| > 0
  {
    if |s| == 0 then [""]
    else if s[0] == ',' then [""] + Split(s[1..])
    else var words := Split(s[1..]); [[s[0]] + words[0]] + words[1..]
  }

  /** White space among the characters the decoder's reading can yield. */
  predicate Space(c: char) {
    '\t' <= c <= '\r' || '\U{1C}' <= c <= ' '
  }

  function Trimmed(s: string): string {
    if |s| > 0 && Space(s[0]) then Trimmed(s[1..])
    else if |s| > 0 && Space(s[|s| - 1]) then Trimmed(s[..|s| - 1])
    else s
  }

  /** The trimmed words, without those that are blank. */
  function Labels(words: seq<string>): seq<string> {
    if |words| == 0 then []
    else if Trimmed(words[0]) == "" then Labels(words[1..])
    else [Trimmed(words[0])] + Labels(words[1..])
  }

  // ---- bodies ----

  /** Size of a format code; the decoder drops the codes it does not know. */
  function CodeSize(c: char): nat {
    if c == 'Q' || c == 'q' || c == 'd' then 8
    else if c == 'I' || c == 'i' || c == 'f' || c == 'n' then 4
    else if c == 'H' || c == 'h' then 2
    else if c == 'B' || c == 'b' then 1
    else if c == 'N' then 16
    else if c == 'Z' then 64
    else 0
  }

  /** Field sizes of a body, in order. */
  function Layout(fmt: string): seq<nat> {
    if |fmt| == 0 then []
    else (if CodeSize(fmt[0]) == 0 then [] else [CodeSize(fmt[0])]) + Layout(fmt[1..])
  }

  function Total(layout: seq<nat>): nat {
    if |layout| == 0 then 0 else layout[0] + Total(layout[1..])
  }

  function Cut(layout: seq<nat>, body: seq<Byte>): (r: seq<seq<Byte>>)
    requires Total(layout) == |body|
    ensures |r| == |layout|
  {
    if |layout| == 0 then [] else [body[..layout[0]]] + Cut(layout[1..], body[layout[0]..])
  }

  function Concat(fields: seq<seq<Byte>>): seq<Byte> {
    if |fields| == 0 then [] else fields[0] + Concat(fields[1..])
  }

  /** Cutting a body into its fields loses nothing. */
  lemma {:induction false} CutConcat(layout: seq<nat>, body: seq<Byte>)
    requires Total(layout) == |body|
    ensures Concat(Cut(layout, body)) == body
  {
    if |layout| > 0 {
      CutConcat(layout[1..], body[layout[0]..]);
      assert Cut(layout, body)[1..] == Cut(layout[1..], body[layout[0]..]);
      assert body == body[..layout[0]] + body[layout[0]..];
    }
  }

  // ---- schema records ----

  /** The 89-byte record that describes one message type. */
  function FmtRecord(d: LogDef): (r: seq<Byte>)
    ensures |r| == FMT_SIZE
  {
    [SYNC1, SYNC2, FMT_ID, d.id, (3 + d.bodySize) % 256]
    + Field(d.name, 4, 4) + Field(d.fmt, 15, 16) + Field(d.labels, 63, 64)
  }

  function SchemaOf(defs: seq<LogDef>): (s: seq<Byte>)
    ensures |s| == FMT_SIZE * |defs|
  {
    if |defs| == 0 then [] else FmtRecord(defs[0]) + SchemaOf(defs[1..])
  }

  /** The entry fits its schema record. */
  predicate Fits(d: LogDef) {
    && d.id != FMT_ID
    && Visible(d.name) && |d.name| <= 4
    && Visible(d.fmt) && |d.fmt| <= 15
    && Visible(d.labels) && |d.labels| <= 63
    && 0 < d.bodySize <= 252
  }

  /** The format covers the body exactly. */
  predicate Covers(d: LogDef) {
    Total(Layout(d.fmt)) == d.bodySize
  }

  predicate WellFormed(defs: seq<LogDef>) {
    && (forall i :: 0 <= i < |defs| ==> Fits(defs[i]) && Covers(defs[i]))
    && forall i, j :: 0 <= i < j < |defs| ==> defs[i].id != defs[j].id
  }

  // ---- the message table is well formed ----

  lemma TotalCons(size: nat, rest: seq<nat>)
    ensures Total([size] + rest) == size + Total(rest)
  {
    assert ([size] + rest)[1..] == rest;
  }

  lemma LayoutCons(c: char, rest: string)
    ensures Total(Layout([c] + rest)) == CodeSize(c) + Total(Layout(rest))
  {
    assert ([c] + rest)[1..] == rest;
    if CodeSize(c) == 0 {
      assert [] + Layout(rest) == Layout(rest);
    } else {
      TotalCons(CodeSize(c), Layout(rest));
    }
  }

  lemma {:induction false} FloatsSize(n: nat, rest: string)
    ensures Total(Layout(Repeated('f', n) + rest)) == 4 * n + Total(Layout(rest))
  {
    if n == 0 {
      assert Repeated('f', 0) + rest == rest;
    } else {
      FloatsSize(n - 1, rest);
      LayoutCons('f', Repeated('f', n - 1) + rest);
      assert Repeated('f', n) + rest == ['f'] + (Repeated('f', n - 1) + rest);
    }
  }

  lemma {:induction false} BytesSize(n: nat)
    ensures Total(Layout(Repeated('B', n))) == n
  {
    if n > 0 {
      BytesSize(n - 1);
      LayoutCons('B', Repeated('B', n - 1));
      assert Repeated('B', n) == ['B'] + Repeated('B', n - 1);
    }
  }

  lemma CodesSize(floats: nat, bytes: nat)
    ensures Total(Layout(Codes(floats, bytes))) == 10 + 4 * floats + bytes
  {
    LayoutCons('Q', ['H'] + (Repeated('f', floats) + Repeated('B', bytes)));
    LayoutCons('H', Repeated('f', floats) + Repeated('B', bytes));
    FloatsSize(floats, Repeated('B', bytes));
    BytesSize(bytes);
  }

  lemma CoversBy(d: LogDef, floats: nat, bytes: nat)
    requires d.fmt == Codes(floats, bytes) && d.bodySize == 10 + 4 * floats + bytes
    ensures Covers(d)
  {
    CodesSize(floats, bytes);
  }

  lemma CodesVisible(floats: nat, bytes: nat)
    ensures Visible(Codes(floats, bytes))
  {
  }

  lemma FitsBy(d: LogDef, floats: nat, bytes: nat, first: string, second: string)
    requires d.id != FMT_ID && Visible(d.name) && |d.name| <= 4
    requires d.fmt == Codes(floats, bytes) && floats + bytes <= 13 && 0 < d.bodySize <= 252
    requires d.labels == Timed(first, second) && Visible(first) && Visible(second) && |first| + |second| <= 51
    ensures Fits(d)
  {
    CodesVisible(floats, bytes);
  }

  lemma AttFits(i: nat)
    requires i == 0
    ensures Fits(LogDefs()[i])
  {
    FitsBy(LogDefs()[i], 9, 0, "Roll,Pitch,Yaw,P,Q,R,", "Pdot,Qdot,Rdot");
  }

  lemma LinFits(i: nat)
    requires i == 1
    ensures Fits(LogDefs()[i])
  {
    FitsBy(LogDefs()[i], 9, 0, "X,Y,Z,U,V,W,", "Udot,Vdot,Wdot");
  }

  lemma RcinFits(i: nat)
    requires i == 2
    ensures Fits(LogDefs()[i])
  {
    FitsBy(LogDefs()[i], 4, 2, "YawStk,VelStk,HeightStk,", "LeanStk,Armed,Mode");
  }

  lemma OutpFits(i: nat)
    requires i == 3
    ensures Fits(LogDefs()[i])
  {
    FitsBy(LogDefs()[i], 4, 0, "Tq0,Tq1,", "Tq2,Tq3");
  }

  lemma HipsFits(i: nat)
    requires i == 4
    ensures Fits(LogDefs()[i])
  {
    FitsBy(LogDefs()[i], 8, 0, "Pos0,Pos1,Pos2,Pos3,", "Volt0,Volt1,Volt2,Volt3");
  }

  lemma HerrFits(i: nat)
    requires i == 5
    ensures Fits(LogDefs()[i])
  {
    FitsBy(LogDefs()[i], 0, 4, "Err0,Err1,", "Err2,Err3");
  }

  lemma LegsFits(i: nat)
    requires i == 6
    ensures Fits(LogDefs()[i])
  {
    FitsBy(LogDefs()[i], 8, 0, "L0,L0dot,ThL0,ThL0dot,", "L1,L1dot,ThL1,ThL1dot");
  }

  lemma LegvFits(i: nat)
    requires i == 7
    ensures Fits(LogDefs()[i])
  {
    FitsBy(LogDefs()[i], 4, 0, "Leg0Xdot,Leg0Zdot,", "Leg1Xdot,Leg1Zdot");
  }

  lemma MotvFits(i: nat)
    requires i == 8
    ensures Fits(LogDefs()[i])
  {
    FitsBy(LogDefs()[i], 6, 0, "HipVel0,HipVel1,HipVel2,HipVel3,", "WheelVel0,WheelVel1");
  }

  lemma PwrFits(i: nat)
    requires i == 9
    ensures Fits(LogDefs()[i])
  {
    FitsBy(LogDefs()[i], 3, 0, "BattV,PmonV,", "TotalI");
  }

  lemma VnedFits(i: nat)
    requires i == 10
    ensures Fits(LogDefs()[i])
  {
    FitsBy(LogDefs()[i], 2, 0, "XdotWorld,", "ZdotWorld");
  }

  /** The values of entry i that are floats, and those that are bytes. */
  function Values(i: nat): (nat, nat) {
    match i
    case 0 => (9, 0)
    case 1 => (9, 0)
    case 2 => (4, 2)
    case 3 => (4, 0)
    case 4 => (8, 0)
    case 5 => (0, 4)
    case 6 => (8, 0)
    case 7 => (4, 0)
    case 8 => (6, 0)
    case 9 => (3, 0)
    case _ => (2, 0)
  }

  lemma EntryShape(i: nat)
    requires i < 11
    ensures LogDefs()[i].fmt == Codes(Values(i).0, Values(i).1)
    ensures LogDefs()[i].bodySize == 10 + 4 * Values(i).0 + Values(i).1
  {
  }

  lemma EntryFits(i: nat)
    requires i < 11
    ensures Fits(LogDefs()[i]) && Covers(LogDefs()[i])
  {
    EntryShape(i);
    CoversBy(LogDefs()[i], Values(i).0, Values(i).1);
    match i
    case 0 => AttFits(i);
    case 1 => LinFits(i);
    case 2 => RcinFits(i);
    case 3 => OutpFits(i);
    case 4 => HipsFits(i);
    case 5 => HerrFits(i);
    case 6 => LegsFits(i);
    case 7 => LegvFits(i);
    case 8 => MotvFits(i);
    case 9 => PwrFits(i);
    case _ => VnedFits(i);
  }

  lemma DistinctIds()
    ensures forall i, j :: 0 <= i < j < 11 ==> LogDefs()[i].id != LogDefs()[j].id
  {
  }

  /** Every entry of the table fits its record and covers its body, and the ids are distinct. */
  lemma TableWellFormed()
    ensures WellFormed(LogDefs())
  {
    DistinctIds();
    forall i: nat | i < |LogDefs()| ensures Fits(LogDefs()[i]) && Covers(LogDefs()[i]) {
      EntryFits(i);
    }
  }
}
