/** The calibration record in flash: save, load, and what load refuses. */
module CalFlash {
  import opened Basics
  import opened Crc
  import opened CrcDetection
  import opened Bytes32

  const MAGIC: bv32 := 0x42525943
  const VERSION: bv32 := 1
  const RECORD := 128
  const CRC_LENGTH := 80
  const PAD := 44
  const FLASH_WORD := 32
  const SECTOR := 0x20000
  const ERASED: bv8 := 0xFF

  /** Floats are carried as their 32 bits. */
  datatype Calib = Calib(magic: bv32, version: bv32, gyro: seq<bv32>, accel: seq<bv32>, crc32: bv32, pad: seq<bv8>) {
    predicate WellFormed() {
      |gyro| == 9 && |accel| == 9 && |pad| == PAD
    }

    predicate SameBiases(other: Calib) {
      gyro == other.gyro && accel == other.accel
    }
  }

  // ---- the record as bytes ----

  function Header(c: Calib): seq<bv32> {
    [c.magic, c.version] + c.gyro + c.accel
  }

  function Image(c: Calib): (s: seq<bv8>)
    requires c.WellFormed()
    ensures |s| == RECORD
  {
    Encoded(Header(c) + [c.crc32]) + c.pad
  }

  function Struct(s: seq<bv8>): (c: Calib)
    requires |s| == RECORD
    ensures c.WellFormed()
  {
    Calib(WordAt(s, 0), WordAt(s, 1),
          seq(9, i requires 0 <= i < 9 => WordAt(s, i + 2)),
          seq(9, i requires 0 <= i < 9 => WordAt(s, i + 11)),
          WordAt(s, 20), s[84..])
  }

  lemma StructImage(c: Calib)
    requires c.WellFormed()
    ensures Struct(Image(c)) == c
  {
    var ws := Header(c) + [c.crc32];
    forall i: nat | i < 21 ensures WordAt(Image(c), i) == ws[i] {
      WordAtEncoded(ws, c.pad, i);
    }
    assert Struct(Image(c)).gyro == c.gyro;
    assert Struct(Image(c)).accel == c.accel;
  }

  // ---- what load accepts ----

  function Zeroed(): Calib {
    Calib(0, 0, [0, 0, 0, 0, 0, 0, 0, 0, 0], [0, 0, 0, 0, 0, 0, 0, 0, 0], 0, Fill(PAD, 0))
  }

  lemma {:induction false} FillsJoin(n: nat, m: nat, b: bv8)
    ensures Fill(n, b) + Fill(m, b) == Fill(n + m, b)
  {
  }

  lemma {:induction false} EncodedZeros(ws: seq<bv32>)
    requires forall i :: 0 <= i < |ws| ==> ws[i] == 0
    ensures Encoded(ws) == Fill(4 * |ws|, 0)
  {
    if |ws| > 0 {
      var n := |ws| - 1;
      EncodedZeros(ws[..n]);
      FillsJoin(4 * n, 4, 0);
      assert BytesOf(0) == Fill(4, 0);
    }
  }

  /** The output of a refused load is all zero bytes. */
  lemma {:induction false} ZeroedIsBlank()
    ensures Image(Zeroed()) == Fill(RECORD, 0)
  {
    var ws := Header(Zeroed()) + [Zeroed().crc32];
    EncodedZeros(ws);
    FillsJoin(4 * |ws|, PAD, 0);
  }

  predicate Accepted(s: seq<bv8>)
    requires |s| == RECORD
  {
    WordAt(s, 0) == MAGIC && WordAt(s, 1) == VERSION && WordAt(s, 20) == Crc32(s[..CRC_LENGTH])
  }

  /** What load hands out for a record in flash. */
  function Loaded(s: seq<bv8>): Calib
    requires |s| == RECORD
  {
    if Accepted(s) then Struct(s) else Zeroed()
  }

  /** The record that save builds around the biases. */
  function Stamped(d: Calib): (c: Calib)
    requires d.WellFormed()
    ensures c.WellFormed()
  {
    Calib(MAGIC, VERSION, d.gyro, d.accel, Crc32(Encoded([MAGIC, VERSION] + d.gyro + d.accel)), Fill(PAD, ERASED))
  }

  lemma ProtectedBytes(c: Calib)
    requires c.WellFormed()
    ensures Image(c)[..CRC_LENGTH] == Encoded(Header(c))
  {
    var ws := Header(c) + [c.crc32];
    EncodedPrefix(ws, 20);
    assert ws[..20] == Header(c);
    assert Image(c)[..CRC_LENGTH] == Encoded(ws)[..CRC_LENGTH];
  }

  /** What save writes, load accepts, with every bias unchanged. */
  lemma SavedLoads(d: Calib)
    requires d.WellFormed()
    ensures Accepted(Image(Stamped(d)))
    ensures Loaded(Image(Stamped(d))) == Stamped(d) && Stamped(d).SameBiases(d)
  {
    var c := Stamped(d);
    StructImage(c);
    ProtectedBytes(c);
    assert Header(c) == [MAGIC, VERSION] + d.gyro + d.accel;
    assert Struct(Image(c)).magic == MAGIC && Struct(Image(c)).version == VERSION;
    assert Struct(Image(c)).crc32 == c.crc32;
  }

  lemma AcceptedIsCodeword(s: seq<bv8>)
    requires |s| == RECORD
    ensures IsCodeword(s[..84]) <==> WordAt(s, 20) == Crc32(s[..CRC_LENGTH])
  {
    assert s[..84][..80] == s[..80];
    assert s[..84][80..84] == s[80..84];
  }

  /**
   After any accepted record, a nonzero change confined to four consecutive bytes of the protected
   bytes and their checksum is refused, and load leaves its output zeroed.
   */
  lemma BurstRefused(s: seq<bv8>, t: seq<bv8>, k: nat)
    requires |s| == |t| == RECORD && Accepted(s)
    requires DifferWithin(s[..84], t[..84], k) && s[..84] != t[..84]
    ensures !Accepted(t) && Loaded(t) == Zeroed()
  {
    AcceptedIsCodeword(s);
    AcceptedIsCodeword(t);
    BurstDetected(s[..84], t[..84], k);
  }

  /** The padding is not protected: it may change freely. */
  lemma PaddingIgnored(s: seq<bv8>, t: seq<bv8>)
    requires |s| == |t| == RECORD && s[..84] == t[..84]
    ensures Accepted(s) == Accepted(t)
  {
    forall i: nat | i < 21 ensures WordAt(s, i) == WordAt(t, i) {
      assert s[4 * i..4 * i + 4] == s[..84][4 * i..4 * i + 4];
      assert t[4 * i..4 * i + 4] == t[..84][4 * i..4 * i + 4];
    }
    assert s[..80] == s[..84][..80] && t[..80] == t[..84][..80];
  }

  /** An erased sector is refused. */
  lemma ErasedRefused(s: seq<bv8>)
    requires |s| == RECORD && forall i :: 0 <= i < RECORD ==> s[i] == ERASED
    ensures !Accepted(s)
  {
    assert s[0..4] == [ERASED, ERASED, ERASED, ERASED];
  }

  // ---- the flash bank ----

  /** A flash operation completes or reports an error, leaving anything behind. */
  datatype Outcome = Done | Failed(left: int -> bv8)

  /** Programming can only clear bits. */
  function Programmed(was: bv8, b: bv8): bv8 {
    was & b
  }

  class Sector {
    const bytes: array<bv8>

    constructor ()
      ensures fresh(bytes) && bytes.Length == SECTOR
    {
      bytes := new bv8[SECTOR];
    }

    method Erase(outcome: Outcome) returns (ok: bool)
      modifies bytes
      ensures ok == outcome.Done?
      ensures ok ==> forall i :: 0 <= i < bytes.Length ==> bytes[i] == ERASED
    {
      match outcome
      case Done =>
        forall i | 0 <= i < bytes.Length { bytes[i] := ERASED; }
        return true;
      case Failed(left) =>
        forall i | 0 <= i < bytes.Length { bytes[i] := left(i); }
        return false;
    }

    /** Programs one 32-byte flash word. */
    method ProgramWord(addr: nat, src: seq<bv8>, outcome: Outcome) returns (ok: bool)
      requires |src| == FLASH_WORD && addr + FLASH_WORD <= bytes.Length
      modifies bytes
      ensures ok == outcome.Done?
      ensures ok ==> forall i :: 0 <= i < bytes.Length ==>
          bytes[i] == if addr <= i < addr + FLASH_WORD then Programmed(old(bytes[i]), src[i - addr]) else old(bytes[i])
    {
      for i := 0 to FLASH_WORD
        invariant forall j :: 0 <= j < bytes.Length ==>
          bytes[j] == if addr <= j < addr + i then Programmed(old(bytes[j]), src[j - addr]) else old(bytes[j])
      {
        bytes[addr + i] := Programmed(bytes[addr + i], src[i]);
      }
      match outcome
      case Done => return true;
      case Failed(left) =>
        forall i | 0 <= i < bytes.Length { bytes[i] := left(i); }
        return false;
    }

    /** Programming an erased flash word stores it. */
    method ProgramErasedWord(addr: nat, src: seq<bv8>, outcome: Outcome) returns (ok: bool)
      requires |src| == FLASH_WORD && addr + FLASH_WORD <= bytes.Length
      requires forall i :: addr <= i < addr + FLASH_WORD ==> bytes[i] == ERASED
      modifies bytes
      ensures ok == outcome.Done?
      ensures ok ==> forall i :: 0 <= i < bytes.Length ==>
          bytes[i] == if addr <= i < addr + FLASH_WORD then src[i - addr] else old(bytes[i])
    {
      ok := ProgramWord(addr, src, outcome);
    }

    method ProgramRecord(buf: seq<bv8>, program: seq<Outcome>) returns (ok: bool)
      requires |buf| == RECORD && bytes.Length == SECTOR && |program| == RECORD / FLASH_WORD
      requires forall i :: 0 <= i < bytes.Length ==> bytes[i] == ERASED
      modifies bytes
      ensures ok <==> forall w :: 0 <= w < |program| ==> program[w].Done?
      ensures ok ==> forall i :: 0 <= i < bytes.Length ==> bytes[i] == if i < RECORD then buf[i] else ERASED
    {
      for word := 0 to RECORD / FLASH_WORD
        invariant forall w :: 0 <= w < word ==> program[w].Done?
        invariant forall i :: 0 <= i < bytes.Length ==> bytes[i] == if i < FLASH_WORD * word then buf[i] else ERASED
      {
        ok := ProgramErasedWord(FLASH_WORD * word, buf[FLASH_WORD * word..FLASH_WORD * (word + 1)], program[word]);
        if !ok {
          return;
        }
      }
      return true;
    }

    method Save(d: Calib, erase: Outcome, program: seq<Outcome>) returns (ok: bool)
      requires d.WellFormed() && bytes.Length == SECTOR && |program| == RECORD / FLASH_WORD
      modifies bytes
      ensures ok <==> erase.Done? && forall w :: 0 <= w < |program| ==> program[w].Done?
      ensures ok ==> bytes[..RECORD] == Image(Stamped(d))
      ensures ok ==> forall i :: RECORD <= i < bytes.Length ==> bytes[i] == ERASED
    {
      var crc := BitwiseCrc32(Encoded([MAGIC, VERSION] + d.gyro + d.accel));
      var buf := Image(Calib(MAGIC, VERSION, d.gyro, d.accel, crc, Fill(PAD, ERASED)));
      assert buf == Image(Stamped(d));
      ok := Erase(erase);
      if ok {
        ok := ProgramRecord(buf, program);
        assert ok ==> bytes[..RECORD] == buf;
      }
    }

    method Load() returns (out: Calib, ok: bool)
      requires bytes.Length == SECTOR
      ensures ok == Accepted(bytes[..RECORD])
      ensures out == Loaded(bytes[..RECORD])
    {
      out := Zeroed();
      var flash := bytes[..RECORD];
      var record := Struct(flash);
      if record.magic != MAGIC { return out, false; }
      if record.version != VERSION { return out, false; }
      var computed := BitwiseCrc32(flash[..CRC_LENGTH]);
      if computed != record.crc32 { return out, false; }
      return record, true;
    }

    method Clear(erase: Outcome)
      requires bytes.Length == SECTOR
      modifies bytes
      ensures erase.Done? ==> !Accepted(bytes[..RECORD])
    {
      var ok := Erase(erase);
      if ok {
        ErasedRefused(bytes[..RECORD]);
      }
    }
  }
}
