/** Little-endian layout of 32-bit words in byte sequences. */
module Bytes32 {
  import opened CrcDetection

  /** The four bytes of a word, low byte first. */
  function BytesOf(w: bv32): (s: seq<bv8>)
    ensures |s| == 4
  {
    [(w & 0xFF) as bv8, ((w >> 8) & 0xFF) as bv8, ((w >> 16) & 0xFF) as bv8, ((w >> 24) & 0xFF) as bv8]
  }

  /** Consecutive words in memory order. */
  function Encoded(ws: seq<bv32>): (s: seq<bv8>)
    ensures |s| == 4 * |ws|
  {
    if |ws| == 0 then [] else Encoded(ws[..|ws| - 1]) + BytesOf(ws[|ws| - 1])
  }

  /** The word at word index i. */
  function WordAt(s: seq<bv8>, i: nat): bv32
    requires 4 * i + 4 <= |s|
  {
    WordOf(s[4 * i..4 * i + 4])
  }

  lemma {:induction false} EncodedAt(ws: seq<bv32>, i: nat)
    requires i < |ws|
    ensures Encoded(ws)[4 * i..4 * i + 4] == BytesOf(ws[i])
  {
    var n := |ws| - 1;
    if i < n {
      EncodedAt(ws[..n], i);
      assert Encoded(ws)[4 * i..4 * i + 4] == Encoded(ws[..n])[4 * i..4 * i + 4];
    }
  }

  /** Reading back any word of an encoding gives the word. */
  lemma WordAtEncoded(ws: seq<bv32>, rest: seq<bv8>, i: nat)
    requires i < |ws|
    ensures WordAt(Encoded(ws) + rest, i) == ws[i]
  {
    EncodedAt(ws, i);
    assert (Encoded(ws) + rest)[4 * i..4 * i + 4] == Encoded(ws)[4 * i..4 * i + 4];
  }

  lemma {:induction false} EncodedPrefix(ws: seq<bv32>, n: nat)
    requires n <= |ws|
    ensures Encoded(ws)[..4 * n] == Encoded(ws[..n])
  {
    if n == |ws| {
      assert ws[..n] == ws;
    } else {
      EncodedPrefix(ws[..|ws| - 1], n);
      assert ws[..|ws| - 1][..n] == ws[..n];
    }
  }
}
