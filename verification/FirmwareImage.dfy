/** The uploader's image: padding, checksum over the whole flash, and chunking. */
module FirmwareImage {
  import opened Basics
  import opened Crc
  import opened CrcTable
  import opened CrcDetection

  const PAD: bv8 := 0xFF
  const PROG_CHUNK := 252

  /** Nothing but fill bytes. */
  predicate Filled(s: seq<bv8>) {
    s == Fill(|s|, PAD)
  }

  /** The fewest fill bytes that reach a multiple of four. */
  function Missing(n: nat): (k: nat)
    ensures k < 4 && (n + k) % 4 == 0
  {
    (4 - n % 4) % 4
  }

  /** Number of four-byte fills the checksum of an image of n bytes appends for a flash of the given size. */
  function Fills(n: nat, flashSize: nat): nat {
    if n < flashSize - 1 then (flashSize - 1 - n + 3) / 4 else 0
  }

  /** The checksum of a fitting image covers the flash exactly when the flash size is a multiple of four. */
  lemma CoversFlash(n: nat, flashSize: nat)
    requires n % 4 == 0 && n <= flashSize
    ensures n + 4 * Fills(n, flashSize) == flashSize <==> flashSize % 4 == 0
  {
  }

  function FourFills(): (s: seq<bv8>)
    ensures |s| == 4 && Filled(s)
  {
    [PAD, PAD, PAD, PAD]
  }

  class Firmware {
    var data: seq<bv8>

    constructor (file: seq<bv8>)
      ensures data == file + Fill(Missing(|file|), PAD)
      ensures |data| % 4 == 0 && |data| < |file| + 4
    {
      data := file;
      new;
      ghost var k := 0;
      while |data| % 4 != 0
        invariant k <= Missing(|file|) && |data| == |file| + k
        invariant data == file + Fill(k, PAD)
        decreases Missing(|file|) - k
      {
        assert (file + Fill(k, PAD)) + [PAD] == file + Fill(k + 1, PAD);
        data := data + [PAD];
        k := k + 1;
      }
    }

    /** The register over the image followed by fill. */
    method Checksum(flashSize: nat) returns (state: bv32)
      ensures state == Register(0, data + Fill(4 * Fills(|data|, flashSize), PAD))
    {
      state := TableCrc32(data, 0);
      ghost var fed;
      state, fed := FeedFills(state, FourFills(), flashSize);
      RegisterConcat(0, data, fed);
    }

    method FeedPad(ghost start: bv32, before: bv32, ghost fed: seq<bv8>, pad: seq<bv8>)
      returns (state: bv32, ghost fed': seq<bv8>)
      requires Filled(fed) && Filled(pad) && before == Register(start, fed)
      ensures Filled(fed') && |fed'| == |fed| + |pad| && state == Register(start, fed')
    {
      RegisterConcat(start, fed, pad);
      fed' := fed + pad;
      state := TableCrc32(pad, before);
    }

    method FeedFills(start: bv32, pad: seq<bv8>, flashSize: nat) returns (state: bv32, ghost fed: seq<bv8>)
      requires |pad| == 4 && Filled(pad)
      ensures state == Register(start, fed)
      ensures |fed| == 4 * Fills(|data|, flashSize) && Filled(fed)
    {
      state, fed := start, [];
      var at := |data|;
      ghost var k := 0;
      while at < flashSize - 1
        invariant at == |data| + 4 * k && |fed| == 4 * k && k <= Fills(|data|, flashSize)
        invariant Filled(fed)
        invariant state == Register(start, fed)
      {
        state, fed := FeedPad(start, state, fed, pad);
        at := at + 4;
        k := k + 1;
      }
    }

    /** The image in programming packets: nothing lost, nothing repeated, every packet small enough. */
    method Chunks() returns (chunks: seq<seq<bv8>>)
      ensures Joined(chunks) == data
      ensures forall i :: 0 <= i < |chunks| ==> 0 < |chunks[i]| <= PROG_CHUNK
      ensures forall i :: 0 <= i < |chunks| - 1 ==> |chunks[i]| == PROG_CHUNK
      ensures |data| % 4 == 0 ==> forall i :: 0 <= i < |chunks| ==> |chunks[i]| % 4 == 0
    {
      chunks := [];
      var i := 0;
      while i < |data|
        invariant i == PROG_CHUNK * |chunks|
        invariant Joined(chunks) == data[..Least(i, |data|)]
        invariant forall j :: 0 <= j < |chunks| ==> |chunks[j]| == Least(PROG_CHUNK, |data| - PROG_CHUNK * j)
        invariant forall j :: 0 <= j < |chunks| ==> PROG_CHUNK * j < |data|
      {
        var end := Least(i + PROG_CHUNK, |data|);
        chunks := chunks + [data[i..end]];
        i := i + PROG_CHUNK;
      }
      assert data[..|data|] == data;
    }
  }

  function Joined(chunks: seq<seq<bv8>>): seq<bv8> {
    if |chunks| == 0 then [] else Joined(chunks[..|chunks| - 1]) + chunks[|chunks| - 1]
  }

}
