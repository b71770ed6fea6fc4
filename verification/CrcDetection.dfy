/** Checksums of whole messages: the two implementations, injectivity, and burst detection. */
module CrcDetection {
  import opened Crc
  import opened CrcTable
  import opened LinearMaps

  // ---- the implementations ----

  lemma ShiftIsStep(crc: bv32)
    ensures (crc >> 1) ^ (POLY & (0 - (crc & 1))) == Step(crc)
  {
    var low := crc & 1;
    if low == 0 {
      assert POLY & (0 - low) == 0;
    } else {
      assert low == 1 && POLY & (0 - low) == POLY;
    }
  }

  /** The calibration store's checksum, bit by bit. */
  method BitwiseCrc32(data: seq<bv8>) returns (r: bv32)
    ensures r == Crc32(data)
  {
    var crc: bv32 := 0xFFFFFFFF;
    for i := 0 to |data|
      invariant crc == Register(0xFFFFFFFF, data[..i])
    {
      RegisterStep(0xFFFFFFFF, data, i);
      crc := FeedByte(crc, data[i]);
    }
    assert data[..|data|] == data;
    return crc ^ 0xFFFFFFFF;
  }

  method FeedByte(x: bv32, byte: bv8) returns (crc: bv32)
    ensures crc == Feed(x, byte)
  {
    crc := x ^ (byte as bv32);
    crc := EightShifts(crc);
  }

  method EightShifts(x: bv32) returns (crc: bv32)
    ensures crc == Steps(x, 8)
  {
    crc := x;
    for b := 0 to 8
      invariant Steps(crc, 8 - b) == Steps(x, 8)
    {
      ShiftIsStep(crc);
      crc := (crc >> 1) ^ (POLY & (0 - (crc & 1)));
    }
  }

  /** The uploader's checksum, by table, without the final complement. */
  method TableCrc32(data: seq<bv8>, start: bv32) returns (state: bv32)
    ensures state == Register(start, data)
  {
    TableIsSteps();
    state := start;
    for i := 0 to |data|
      invariant state == Register(start, data[..i])
    {
      RegisterStep(start, data, i);
      TableFeedIsFeed(Table, state, data[i]);
      state := TableFeed(Table, state, data[i]);
    }
    assert data[..|data|] == data;
  }

  lemma RegisterStep(x: bv32, data: seq<bv8>, i: nat)
    requires i < |data|
    ensures Register(x, data[..i + 1]) == Feed(Register(x, data[..i]), data[i])
  {
    assert data[..i + 1][..i] == data[..i];
  }

  /** The register by table lookups alone. */
  function TableRegister(x: bv32, data: seq<bv8>): bv32 {
    if |data| == 0 then x else TableFeed(Table, TableRegister(x, data[..|data| - 1]), data[|data| - 1])
  }

  /** The two implementations agree on every message and start value. */
  lemma {:induction false} ImplementationsAgree(x: bv32, data: seq<bv8>)
    ensures TableRegister(x, data) == Register(x, data)
  {
    if |data| > 0 {
      ImplementationsAgree(x, data[..|data| - 1]);
      TableIsSteps();
      TableFeedIsFeed(Table, Register(x, data[..|data| - 1]), data[|data| - 1]);
    }
  }

  /** The calibration store's checksum is the complement of the uploader's register from all ones. */
  lemma ChecksumsAgree(data: seq<bv8>)
    ensures Crc32(data) == TableRegister(0xFFFFFFFF, data) ^ 0xFFFFFFFF
  {
    ImplementationsAgree(0xFFFFFFFF, data);
  }

  // ---- eight steps as a byte map ----

  function Xor(a: bv32, b: bv32): bv32 {
    a ^ b
  }

  function EightSteps(x: bv32): bv32 {
    Steps(x, 8)
  }

  function Widen(b: bv8): bv32 {
    b as bv32
  }

  function Words(data: seq<bv8>): seq<bv32> {
    seq(|data|, i requires 0 <= i < |data| => Widen(data[i]))
  }

  /** The polynomial's top bit is set, so the top bit after a step tells the low bit before. */
  lemma StepTop(a: bv32)
    ensures Step(a) & 0x80000000 == 0 <==> a & 1 == 0
  {
  }

  lemma StepInjective(a: bv32, b: bv32)
    requires Step(a) == Step(b)
    ensures a == b
  {
    StepTop(a);
    StepTop(b);
  }

  lemma {:induction false} StepsInjective(a: bv32, b: bv32, n: nat)
    requires Steps(a, n) == Steps(b, n)
    ensures a == b
    decreases n
  {
    if n > 0 {
      StepsInjective(Step(a), Step(b), n - 1);
      StepInjective(a, b);
    }
  }

  lemma XorAssociative(a: bv32, b: bv32, c: bv32)
    ensures Xor(Xor(a, b), c) == Xor(a, Xor(b, c))
  {
  }

  lemma XorInvolutive(a: bv32, b: bv32)
    ensures Xor(Xor(a, b), b) == a
  {
  }

  lemma XorLaws()
    ensures Group(Xor)
  {
    forall a: bv32, b: bv32, c: bv32 ensures Xor(Xor(a, b), c) == Xor(a, Xor(b, c)) {
      XorAssociative(a, b, c);
    }
    forall a: bv32, b: bv32 ensures Xor(Xor(a, b), b) == a {
      XorInvolutive(a, b);
    }
  }

  lemma XorSums()
    ensures Sums(IsXor, Xor)
  {
  }

  lemma EightStepsXor(c: bv32, a: bv32, b: bv32)
    requires IsXor(c, a, b)
    ensures IsXor(EightSteps(c), EightSteps(a), EightSteps(b))
  {
    StepsXor(c, a, b, 8);
  }

  lemma EightStepsAdditive()
    ensures Additive(EightSteps, IsXor)
  {
    forall a: bv32, b: bv32, c: bv32 | IsXor(c, a, b) ensures IsXor(EightSteps(c), EightSteps(a), EightSteps(b)) {
      EightStepsXor(c, a, b);
    }
  }

  lemma EightStepsInjective()
    ensures Injective(EightSteps)
  {
    forall a: bv32, b: bv32 | EightSteps(a) == EightSteps(b) ensures a == b {
      StepsInjective(a, b, 8);
    }
  }

  lemma CleanByteShifts(h: bv32, d: bv32)
    requires h & 0xFF == 0 && d == h >> 8
    ensures Steps(h, 8) == d
  {
    assert h & 0xFFFFFF00 == h;
    HighZero(h);
    HighShifted(h);
    EvenSteps(h, 8);
  }

  lemma EightStepsLower(b: bv8)
    ensures EightSteps((b as bv32) << 8) == b as bv32
    ensures EightSteps((b as bv32) << 16) == (b as bv32) << 8
    ensures EightSteps((b as bv32) << 24) == (b as bv32) << 16
  {
    CleanByteShifts((b as bv32) << 8, b as bv32);
    CleanByteShifts((b as bv32) << 16, (b as bv32) << 8);
    CleanByteShifts((b as bv32) << 24, (b as bv32) << 16);
  }

  lemma FeedIsStep(r: bv32, b: bv8)
    ensures Feed(r, b) == EightSteps(Xor(r, Widen(b)))
  {
  }

  lemma {:induction false} RegisterIsRun(x: bv32, data: seq<bv8>)
    ensures Register(x, data) == Run(EightSteps, Xor, x, Words(data))
  {
    if |data| > 0 {
      var before, last := data[..|data| - 1], data[|data| - 1];
      RegisterIsRun(x, before);
      FeedIsStep(Register(x, before), last);
      assert Words(data)[..|data| - 1] == Words(before) && Words(data)[|data| - 1] == Widen(last);
    }
  }

  // ---- codewords ----

  /** Little-endian word of four bytes. */
  function Word(b0: bv8, b1: bv8, b2: bv8, b3: bv8): bv32 {
    (b0 as bv32) ^ ((b1 as bv32) << 8) ^ ((b2 as bv32) << 16) ^ ((b3 as bv32) << 24)
  }

  lemma WordInjective(b0: bv8, b1: bv8, b2: bv8, b3: bv8, c0: bv8, c1: bv8, c2: bv8, c3: bv8)
    requires Word(b0, b1, b2, b3) == Word(c0, c1, c2, c3)
    ensures b0 == c0 && b1 == c1 && b2 == c2 && b3 == c3
  {
  }

  lemma WordParts(b0: bv8, b1: bv8, b2: bv8, b3: bv8)
    ensures Joined(Xor, Widen(b0), (b1 as bv32) << 8, (b2 as bv32) << 16, (b3 as bv32) << 24)
         == Word(b0, b1, b2, b3)
  {
  }

  lemma FourWords(b0: bv8, b1: bv8, b2: bv8, b3: bv8)
    ensures Words([b0, b1, b2, b3]) == [Widen(b0), Widen(b1), Widen(b2), Widen(b3)]
  {
  }

  lemma RegisterLaws()
    ensures Group(Xor) && Linear(EightSteps, Xor) && Injective(EightSteps)
  {
    XorLaws();
    XorSums();
    EightStepsAdditive();
    AdditiveIsLinear(EightSteps, IsXor, Xor);
    EightStepsInjective();
  }

  /** Four bytes act on a register as the little-endian word of them does. */
  lemma FourBytesAgree(x: bv32, y: bv32, b0: bv8, b1: bv8, b2: bv8, b3: bv8, c0: bv8, c1: bv8, c2: bv8, c3: bv8)
    ensures Register(x, [b0, b1, b2, b3]) == Register(y, [c0, c1, c2, c3])
       <==> Xor(x, Word(b0, b1, b2, b3)) == Xor(y, Word(c0, c1, c2, c3))
  {
    RegisterLaws();
    RegisterIsRun(x, [b0, b1, b2, b3]);
    RegisterIsRun(y, [c0, c1, c2, c3]);
    FourWords(b0, b1, b2, b3);
    FourWords(c0, c1, c2, c3);
    EightStepsLower(b1);
    EightStepsLower(b2);
    EightStepsLower(b3);
    EightStepsLower(c1);
    EightStepsLower(c2);
    EightStepsLower(c3);
    WordParts(b0, b1, b2, b3);
    WordParts(c0, c1, c2, c3);
    FourInputsAgree(EightSteps, Xor, x, y,
                    Widen(b0), Widen(b1), Widen(b2), Widen(b3), (b1 as bv32) << 8, (b2 as bv32) << 16, (b3 as bv32) << 24,
                    Widen(c0), Widen(c1), Widen(c2), Widen(c3), (c1 as bv32) << 8, (c2 as bv32) << 16, (c3 as bv32) << 24);
  }

  // ---- codewords ----

  predicate DifferWithin(u: seq<bv8>, v: seq<bv8>, k: nat) {
    |u| == |v| && k + 4 <= |u| && u[..k] == v[..k] && u[k + 4..] == v[k + 4..]
  }

  lemma {:induction false} RegisterConcat(x: bv32, a: seq<bv8>, b: seq<bv8>)
    ensures Register(x, a + b) == Register(Register(x, a), b)
  {
    if |b| == 0 {
      assert a + b == a;
    } else {
      assert (a + b)[..|a + b| - 1] == a + b[..|b| - 1];
      RegisterConcat(x, a, b[..|b| - 1]);
    }
  }

  /** The same message keeps distinct registers distinct. */
  lemma RegisterInjective(x: bv32, y: bv32, data: seq<bv8>)
    requires Register(x, data) == Register(y, data)
    ensures x == y
  {
    RegisterLaws();
    RegisterIsRun(x, data);
    RegisterIsRun(y, data);
    RunInjective(EightSteps, Xor, x, y, Words(data));
  }

  lemma XorCancel(r: bv32, a: bv32, b: bv32)
    requires Xor(r, a) == Xor(r, b)
    ensures a == b
  {
  }

  lemma SameFour(r: bv32, b0: bv8, b1: bv8, b2: bv8, b3: bv8, c0: bv8, c1: bv8, c2: bv8, c3: bv8)
    requires Register(r, [b0, b1, b2, b3]) == Register(r, [c0, c1, c2, c3])
    ensures b0 == c0 && b1 == c1 && b2 == c2 && b3 == c3
  {
    FourBytesAgree(r, r, b0, b1, b2, b3, c0, c1, c2, c3);
    XorCancel(r, Word(b0, b1, b2, b3), Word(c0, c1, c2, c3));
    WordInjective(b0, b1, b2, b3, c0, c1, c2, c3);
  }

  function Four(u: seq<bv8>, k: nat): seq<bv8>
    requires k + 4 <= |u|
  {
    u[k..k + 4]
  }

  lemma FourSplit(x: bv32, u: seq<bv8>, k: nat)
    requires k + 4 <= |u|
    ensures Register(x, u) == Register(Register(Register(x, u[..k]), Four(u, k)), u[k + 4..])
  {
    assert u == (u[..k] + Four(u, k)) + u[k + 4..];
    RegisterConcat(x, u[..k] + Four(u, k), u[k + 4..]);
    RegisterConcat(x, u[..k], Four(u, k));
  }

  lemma {:induction false} SameBytes(r: bv32, s: seq<bv8>, t: seq<bv8>)
    requires |s| == |t| == 4 && Register(r, s) == Register(r, t)
    ensures s == t
  {
    FourListed(s, s[0], s[1], s[2], s[3]);
    FourListed(t, t[0], t[1], t[2], t[3]);
    SameFour(r, s[0], s[1], s[2], s[3], t[0], t[1], t[2], t[3]);
  }

  lemma {:induction false} FourListed(s: seq<bv8>, b0: bv8, b1: bv8, b2: bv8, b3: bv8)
    requires |s| == 4 && s[0] == b0 && s[1] == b1 && s[2] == b2 && s[3] == b3
    ensures s == [b0, b1, b2, b3]
  {
  }

  lemma SameOutside(u: seq<bv8>, v: seq<bv8>, k: nat)
    requires DifferWithin(u, v, k) && Four(u, k) == Four(v, k)
    ensures u == v
  {
    assert u == u[..k] + Four(u, k) + u[k + 4..];
    assert v == v[..k] + Four(v, k) + v[k + 4..];
  }

  /** A change confined to four consecutive bytes always changes the register. */
  lemma BurstChangesRegister(x: bv32, u: seq<bv8>, v: seq<bv8>, k: nat)
    requires DifferWithin(u, v, k) && Register(x, u) == Register(x, v)
    ensures u == v
  {
    FourSplit(x, u, k);
    FourSplit(x, v, k);
    var r := Register(x, u[..k]);
    RegisterInjective(Register(r, Four(u, k)), Register(r, Four(v, k)), u[k + 4..]);
    SameBytes(r, Four(u, k), Four(v, k));
    SameOutside(u, v, k);
  }

  predicate Complement(w: bv32, r: bv32) {
    w == r ^ 0xFFFFFFFF
  }

  lemma ComplementSum(r: bv32, w: bv32)
    requires Complement(w, r)
    ensures IsXor(0xFFFFFFFF, r, w)
  {
  }

  lemma EqualSums(r: bv32, w: bv32, r': bv32, w': bv32, all: bv32)
    requires IsXor(all, r, w) && IsXor(all, r', w')
    ensures Xor(r, w) == Xor(r', w')
  {
  }

  /** The little-endian word of four bytes. */
  function WordOf(s: seq<bv8>): bv32
    requires |s| == 4
  {
    Word(s[0], s[1], s[2], s[3])
  }

  lemma ComplementsMeet(r: bv32, w: bv32, r': bv32, w': bv32)
    requires Complement(w, r) && Complement(w', r')
    ensures Xor(r, w) == Xor(r', w')
  {
    ComplementSum(r, w);
    ComplementSum(r', w');
    EqualSums(r, w, r', w', 0xFFFFFFFF);
  }

  /** Appending its own complement takes every register to the same place. */
  lemma {:induction false} ChecksumsMeet(r: bv32, s: seq<bv8>, r': bv32, s': seq<bv8>)
    requires |s| == |s'| == 4 && Complement(WordOf(s), r) && Complement(WordOf(s'), r')
    ensures Register(r, s) == Register(r', s')
  {
    assert s == [s[0], s[1], s[2], s[3]] && s' == [s'[0], s'[1], s'[2], s'[3]];
    ComplementsMeet(r, WordOf(s), r', WordOf(s'));
    FourBytesAgree(r, r', s[0], s[1], s[2], s[3], s'[0], s'[1], s'[2], s'[3]);
  }

  /** The last four bytes hold the checksum of the bytes before them, low byte first. */
  predicate IsCodeword(u: seq<bv8>) {
    |u| >= 4 && WordOf(Four(u, |u| - 4)) == Crc32(u[..|u| - 4])
  }

  /** A codeword is fed as its message and then the complement of what that leaves. */
  lemma {:induction false} CodewordEnd(u: seq<bv8>, r: bv32, s: seq<bv8>)
    requires IsCodeword(u) && r == Register(0xFFFFFFFF, u[..|u| - 4]) && s == Four(u, |u| - 4)
    ensures |s| == 4 && Complement(WordOf(s), r) && Register(0xFFFFFFFF, u) == Register(r, s)
  {
    FourSplit(0xFFFFFFFF, u, |u| - 4);
    assert u[|u| - 4 + 4..] == [];
  }

  /** All codewords leave the same register behind. */
  lemma {:induction false} CodewordsMeet(u: seq<bv8>, v: seq<bv8>)
    requires IsCodeword(u) && IsCodeword(v)
    ensures Register(0xFFFFFFFF, u) == Register(0xFFFFFFFF, v)
  {
    var r, s := Register(0xFFFFFFFF, u[..|u| - 4]), Four(u, |u| - 4);
    var r', s' := Register(0xFFFFFFFF, v[..|v| - 4]), Four(v, |v| - 4);
    CodewordEnd(u, r, s);
    CodewordEnd(v, r', s');
    ChecksumsMeet(r, s, r', s');
  }

  /** No change confined to four consecutive bytes, message and checksum included, leaves a codeword. */
  lemma BurstDetected(u: seq<bv8>, v: seq<bv8>, k: nat)
    requires IsCodeword(u) && DifferWithin(u, v, k)
    ensures IsCodeword(v) <==> u == v
  {
    if IsCodeword(v) {
      CodewordsMeet(u, v);
      BurstChangesRegister(0xFFFFFFFF, u, v, k);
    }
  }
}
