/** Little-endian two's complement integers in byte lists. */
module WireInts {
  function Int16Bytes(n: int): (b: seq<nat>)
    ensures |b| == 2
  {
    [n % 256, n / 256 % 256]
  }

  function Int32Bytes(n: int): (b: seq<nat>)
    ensures |b| == 4
  {
    [n % 256, n / 256 % 256, n / 65536 % 256, n / 16777216 % 256]
  }

  function Signed(u: nat, half: nat): int {
    if u >= half then u - 2 * half else u
  }

  function ReadInt8(b: nat): int {
    Signed(b, 0x80)
  }

  function ReadInt16(low: nat, high: nat): int {
    Signed(low + 256 * high, 0x8000)
  }

  function ReadInt32(b0: nat, b1: nat, b2: nat, b3: nat): int {
    Signed(b0 + 256 * b1 + 65536 * b2 + 16777216 * b3, 0x8000_0000)
  }

  lemma Int16RoundTrip(n: int)
    requires -0x8000 <= n < 0x8000
    ensures ReadInt16(Int16Bytes(n)[0], Int16Bytes(n)[1]) == n
  {
  }

  /** The low byte comes first, and the bytes are the value modulo 65536. */
  lemma {:induction false} LowByteFirst(n: int)
    ensures var b := Int16Bytes(n); b[0] < 256 && b[1] < 256 && (n - (b[0] + 256 * b[1])) % 65536 == 0
  {
  }

  /** The low half of a word comes first. */
  lemma {:induction false} LowHalfFirst(n: int, q: int)
    requires q == n / 65536
    ensures Int32Bytes(n) == Int16Bytes(n) + Int16Bytes(q)
  {
    assert n / 16777216 == q / 256;
  }

  lemma Int32RoundTrip(n: int)
    requires -0x8000_0000 <= n < 0x8000_0000
    ensures var b := Int32Bytes(n); ReadInt32(b[0], b[1], b[2], b[3]) == n
  {
    assert n / 65536 == n / 256 / 256 && n / 16777216 == n / 65536 / 256;
  }

}
