/**
 CRC-32 with the reflected polynomial 0xEDB88320: the bit-by-bit form of the calibration store, the
 table-driven form of the uploader, and the error detection both rest on
 (polynomial and sample code: section 8 of RFC 1952).
 */
module Crc {
  import opened CrcTable
  const POLY: bv32 := 0xEDB88320

  /** The polynomial if the low bit is set. */
  function Mask(x: bv32): bv32 {
    if x & 1 == 1 then POLY else 0
  }

  /** One shift of the register. */
  function Step(x: bv32): bv32 {
    (x >> 1) ^ Mask(x)
  }

  function Steps(x: bv32, n: nat): bv32
    decreases n
  {
    if n == 0 then x else Steps(Step(x), n - 1)
  }

  /** The register after one byte. */
  function Feed(x: bv32, b: bv8): bv32 {
    Steps(x ^ (b as bv32), 8)
  }

  /** The register after a message. */
  function Register(x: bv32, data: seq<bv8>): bv32 {
    if |data| == 0 then x else Feed(Register(x, data[..|data| - 1]), data[|data| - 1])
  }

  /** CRC-32/ISO-HDLC. */
  function Crc32(data: seq<bv8>): bv32 {
    Register(0xFFFFFFFF, data) ^ 0xFFFFFFFF
  }

  // ---- the step is linear over exclusive or ----

  predicate IsXor(c: bv32, a: bv32, b: bv32) {
    c == a ^ b
  }

  lemma StepXor(c: bv32, a: bv32, b: bv32)
    requires IsXor(c, a, b)
    ensures IsXor(Step(c), Step(a), Step(b))
  {
    if a & 1 == 0 {
      if b & 1 == 0 {} else {}
    } else {
      if b & 1 == 0 {} else {}
    }
  }

  lemma {:induction false} StepsXor(c: bv32, a: bv32, b: bv32, n: nat)
    requires IsXor(c, a, b)
    ensures IsXor(Steps(c, n), Steps(a, n), Steps(b, n))
    decreases n
  {
    if n > 0 {
      StepXor(c, a, b);
      StepsXor(Step(c), Step(a), Step(b), n - 1);
    }
  }

  // ---- the table is eight steps ----

  lemma Row0IsSteps(i: bv8)
    requires i >> 4 == 0
    ensures Row0(i & 15) == Steps(i as bv32, 8)
  {
    match i & 15
    case 0 => case 1 => case 2 => case 3 =>
    case 4 => case 5 => case 6 => case 7 =>
    case 8 => case 9 => case 10 => case 11 =>
    case 12 => case 13 => case 14 => case _ =>
  }

  lemma Row1IsSteps(i: bv8)
    requires i >> 4 == 1
    ensures Row1(i & 15) == Steps(i as bv32, 8)
  {
    match i & 15
    case 0 => case 1 => case 2 => case 3 =>
    case 4 => case 5 => case 6 => case 7 =>
    case 8 => case 9 => case 10 => case 11 =>
    case 12 => case 13 => case 14 => case _ =>
  }

  lemma Row2IsSteps(i: bv8)
    requires i >> 4 == 2
    ensures Row2(i & 15) == Steps(i as bv32, 8)
  {
    match i & 15
    case 0 => case 1 => case 2 => case 3 =>
    case 4 => case 5 => case 6 => case 7 =>
    case 8 => case 9 => case 10 => case 11 =>
    case 12 => case 13 => case 14 => case _ =>
  }

  lemma Row3IsSteps(i: bv8)
    requires i >> 4 == 3
    ensures Row3(i & 15) == Steps(i as bv32, 8)
  {
    match i & 15
    case 0 => case 1 => case 2 => case 3 =>
    case 4 => case 5 => case 6 => case 7 =>
    case 8 => case 9 => case 10 => case 11 =>
    case 12 => case 13 => case 14 => case _ =>
  }

  lemma Row4IsSteps(i: bv8)
    requires i >> 4 == 4
    ensures Row4(i & 15) == Steps(i as bv32, 8)
  {
    match i & 15
    case 0 => case 1 => case 2 => case 3 =>
    case 4 => case 5 => case 6 => case 7 =>
    case 8 => case 9 => case 10 => case 11 =>
    case 12 => case 13 => case 14 => case _ =>
  }

  lemma Row5IsSteps(i: bv8)
    requires i >> 4 == 5
    ensures Row5(i & 15) == Steps(i as bv32, 8)
  {
    match i & 15
    case 0 => case 1 => case 2 => case 3 =>
    case 4 => case 5 => case 6 => case 7 =>
    case 8 => case 9 => case 10 => case 11 =>
    case 12 => case 13 => case 14 => case _ =>
  }

  lemma Row6IsSteps(i: bv8)
    requires i >> 4 == 6
    ensures Row6(i & 15) == Steps(i as bv32, 8)
  {
    match i & 15
    case 0 => case 1 => case 2 => case 3 =>
    case 4 => case 5 => case 6 => case 7 =>
    case 8 => case 9 => case 10 => case 11 =>
    case 12 => case 13 => case 14 => case _ =>
  }

  lemma Row7IsSteps(i: bv8)
    requires i >> 4 == 7
    ensures Row7(i & 15) == Steps(i as bv32, 8)
  {
    match i & 15
    case 0 => case 1 => case 2 => case 3 =>
    case 4 => case 5 => case 6 => case 7 =>
    case 8 => case 9 => case 10 => case 11 =>
    case 12 => case 13 => case 14 => case _ =>
  }

  lemma Row8IsSteps(i: bv8)
    requires i >> 4 == 8
    ensures Row8(i & 15) == Steps(i as bv32, 8)
  {
    match i & 15
    case 0 => case 1 => case 2 => case 3 =>
    case 4 => case 5 => case 6 => case 7 =>
    case 8 => case 9 => case 10 => case 11 =>
    case 12 => case 13 => case 14 => case _ =>
  }

  lemma Row9IsSteps(i: bv8)
    requires i >> 4 == 9
    ensures Row9(i & 15) == Steps(i as bv32, 8)
  {
    match i & 15
    case 0 => case 1 => case 2 => case 3 =>
    case 4 => case 5 => case 6 => case 7 =>
    case 8 => case 9 => case 10 => case 11 =>
    case 12 => case 13 => case 14 => case _ =>
  }

  lemma Row10IsSteps(i: bv8)
    requires i >> 4 == 10
    ensures Row10(i & 15) == Steps(i as bv32, 8)
  {
    match i & 15
    case 0 => case 1 => case 2 => case 3 =>
    case 4 => case 5 => case 6 => case 7 =>
    case 8 => case 9 => case 10 => case 11 =>
    case 12 => case 13 => case 14 => case _ =>
  }

  lemma Row11IsSteps(i: bv8)
    requires i >> 4 == 11
    ensures Row11(i & 15) == Steps(i as bv32, 8)
  {
    match i & 15
    case 0 => case 1 => case 2 => case 3 =>
    case 4 => case 5 => case 6 => case 7 =>
    case 8 => case 9 => case 10 => case 11 =>
    case 12 => case 13 => case 14 => case _ =>
  }

  lemma Row12IsSteps(i: bv8)
    requires i >> 4 == 12
    ensures Row12(i & 15) == Steps(i as bv32, 8)
  {
    match i & 15
    case 0 => case 1 => case 2 => case 3 =>
    case 4 => case 5 => case 6 => case 7 =>
    case 8 => case 9 => case 10 => case 11 =>
    case 12 => case 13 => case 14 => case _ =>
  }

  lemma Row13IsSteps(i: bv8)
    requires i >> 4 == 13
    ensures Row13(i & 15) == Steps(i as bv32, 8)
  {
    match i & 15
    case 0 => case 1 => case 2 => case 3 =>
    case 4 => case 5 => case 6 => case 7 =>
    case 8 => case 9 => case 10 => case 11 =>
    case 12 => case 13 => case 14 => case _ =>
  }

  lemma Row14IsSteps(i: bv8)
    requires i >> 4 == 14
    ensures Row14(i & 15) == Steps(i as bv32, 8)
  {
    match i & 15
    case 0 => case 1 => case 2 => case 3 =>
    case 4 => case 5 => case 6 => case 7 =>
    case 8 => case 9 => case 10 => case 11 =>
    case 12 => case 13 => case 14 => case _ =>
  }

  lemma Row15IsSteps(i: bv8)
    requires i >> 4 == 15
    ensures Row15(i & 15) == Steps(i as bv32, 8)
  {
    match i & 15
    case 0 => case 1 => case 2 => case 3 =>
    case 4 => case 5 => case 6 => case 7 =>
    case 8 => case 9 => case 10 => case 11 =>
    case 12 => case 13 => case 14 => case _ =>
  }

  lemma Nibbles(i: bv8)
    ensures i >> 4 < 16 && i & 15 < 16
  {
  }

  /** Every entry of the table is eight steps of its index. */
  lemma TableIsSteps()
    ensures TableOfSteps(Table)
  {
    forall i: bv8 ensures Table(i) == Steps(i as bv32, 8) {
      Nibbles(i);
      match i >> 4
      case 0 => Row0IsSteps(i);
      case 1 => Row1IsSteps(i);
      case 2 => Row2IsSteps(i);
      case 3 => Row3IsSteps(i);
      case 4 => Row4IsSteps(i);
      case 5 => Row5IsSteps(i);
      case 6 => Row6IsSteps(i);
      case 7 => Row7IsSteps(i);
      case 8 => Row8IsSteps(i);
      case 9 => Row9IsSteps(i);
      case 10 => Row10IsSteps(i);
      case 11 => Row11IsSteps(i);
      case 12 => Row12IsSteps(i);
      case 13 => Row13IsSteps(i);
      case 14 => Row14IsSteps(i);
      case _ => Row15IsSteps(i);
    }
  }

  // ---- eight steps split into a lookup and a byte shift ----

  /** The lowest n bits are zero. */
  predicate LowZero(h: bv32, n: nat)
    decreases n
  {
    n == 0 || (h & 1 == 0 && LowZero(h >> 1, n - 1))
  }

  function Shifted(h: bv32, n: nat): bv32
    decreases n
  {
    if n == 0 then h else Shifted(h >> 1, n - 1)
  }

  lemma {:induction false} EvenSteps(h: bv32, n: nat)
    requires LowZero(h, n)
    ensures Steps(h, n) == Shifted(h, n)
    decreases n
  {
    if n > 0 {
      StepEven(h);
      EvenSteps(h >> 1, n - 1);
    }
  }

  lemma StepEven(a: bv32)
    requires a & 1 == 0
    ensures Step(a) == a >> 1
  {
  }

  lemma HighZero(x: bv32)
    ensures LowZero(x & 0xFFFFFF00, 8)
  {
  }

  lemma HighShifted(x: bv32)
    ensures Shifted(x & 0xFFFFFF00, 8) == x >> 8
  {
  }

  lemma LowHigh(x: bv32)
    ensures IsXor(x, x & 0xFF, x & 0xFFFFFF00)
  {
  }

  /** Eight steps are eight steps of the low byte and a byte shift. */
  lemma StepsSplit(x: bv32)
    ensures IsXor(Steps(x, 8), Steps(x & 0xFF, 8), x >> 8)
  {
    LowHigh(x);
    HighZero(x);
    HighShifted(x);
    EvenSteps(x & 0xFFFFFF00, 8);
    StepsXor(x, x & 0xFF, x & 0xFFFFFF00, 8);
  }

  /** The uploader's byte step over a lookup table. */
  function TableFeed(table: bv8 -> bv32, x: bv32, b: bv8): bv32 {
    table(((x ^ (b as bv32)) & 0xFF) as bv8) ^ (x >> 8)
  }

  ghost predicate TableOfSteps(table: bv8 -> bv32) {
    forall i: bv8 :: table(i) == Steps(i as bv32, 8)
  }

  /** The table index of a byte step. */
  function IndexOf(x: bv32, b: bv8): bv8 {
    ((x ^ (b as bv32)) & 0xFF) as bv8
  }

  lemma TableFeedParts(table: bv8 -> bv32, x: bv32, b: bv8)
    ensures IsXor(TableFeed(table, x, b), table(IndexOf(x, b)), x >> 8)
  {
  }

  lemma IndexParts(x: bv32, b: bv8)
    ensures IndexOf(x, b) as bv32 == (x ^ (b as bv32)) & 0xFF
    ensures (x ^ (b as bv32)) >> 8 == x >> 8
  {
  }

  lemma SplitAs(y: bv32, low: bv32, high: bv32)
    requires low == y & 0xFF && high == y >> 8
    ensures IsXor(Steps(y, 8), Steps(low, 8), high)
  {
    StepsSplit(y);
  }

  lemma FeedIs(x: bv32, b: bv8, y: bv32)
    requires y == x ^ (b as bv32)
    ensures Feed(x, b) == Steps(y, 8)
  {
  }

  lemma FeedParts(x: bv32, b: bv8)
    ensures IsXor(Feed(x, b), Steps(IndexOf(x, b) as bv32, 8), x >> 8)
  {
    var y := x ^ (b as bv32);
    FeedIs(x, b, y);
    IndexParts(x, b);
    SplitAs(y, IndexOf(x, b) as bv32, x >> 8);
  }

  lemma XorUnique(c: bv32, c': bv32, a: bv32, b: bv32)
    requires IsXor(c, a, b) && IsXor(c', a, b)
    ensures c == c'
  {
  }

  /** With such a table the lookup step is the bit-by-bit step, for every register and byte. */
  lemma TableFeedIsFeed(table: bv8 -> bv32, x: bv32, b: bv8)
    requires TableOfSteps(table)
    ensures TableFeed(table, x, b) == Feed(x, b)
  {
    TableFeedParts(table, x, b);
    FeedParts(x, b);
    XorUnique(TableFeed(table, x, b), Feed(x, b), table(IndexOf(x, b)), x >> 8);
  }
}
