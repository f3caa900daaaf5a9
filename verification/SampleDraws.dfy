/**
 Where the sampled blocks lie. Every step of the generator can be undone, so no two seeds share a sequence
 and no block of a source is out of reach of the draws.
 */
module SampleDraws {
  import opened Bytes
  import opened Readback

  // Numbers and bit vectors.

  lemma BackAndForth(x: bv64)
    ensures (x as int) as bv64 == x
  {
  }

  lemma SameNumber(x: bv64, y: bv64)
    ensures x as int == y as int ==> x == y
  {
    BackAndForth(x);
    BackAndForth(y);
  }

  lemma TopBitClear(x: bv64)
    requires x as int < 0x8000_0000_0000_0000
    ensures x < 0x8000_0000_0000_0000
  {
  }

  lemma ShiftedUp(x: bv64)
    requires x < 0x8000_0000_0000_0000
    ensures (x << 1) as int == 2 * (x as int)
    ensures ((x << 1) | 1) as int == 2 * (x as int) + 1
  {
  }

  /** Every 64-bit number has its bit vector. */
  lemma {:induction false} Represent(v: U64) returns (x: bv64)
    ensures x as int == v
  {
    if v == 0 {
      x := 0;
    } else {
      var half := Represent(v / 2);
      TopBitClear(half);
      ShiftedUp(half);
      x := if v % 2 == 0 then half << 1 else (half << 1) | 1;
    }
  }

  // Undoing one step.

  function Undo12(y: bv64): bv64 {
    y ^ (y >> 12) ^ (y >> 24) ^ (y >> 36) ^ (y >> 48) ^ (y >> 60)
  }

  function Undo25(y: bv64): bv64 {
    y ^ (y << 25) ^ (y << 50)
  }

  function Undo27(y: bv64): bv64 {
    y ^ (y >> 27) ^ (y >> 54)
  }

  /** The multiplier is odd and has an inverse modulo 2^64. */
  function Unscrambled(y: bv64): bv64 {
    y * 6415128727920758069
  }

  lemma ScramblingIsUndone(x: bv64)
    ensures Unscrambled(Scrambled(x)) == x
  {
    hide Unscrambled;
    Unscrambles(x);
  }

  lemma Unscrambles(x: bv64)
    ensures Unscrambled(x * 2685821657736338717) == x
  {
  }

  lemma UnscramblingIsUndone(x: bv64)
    ensures Scrambled(Unscrambled(x)) == x
  {
    hide Scrambled;
    Scrambles(x);
  }

  lemma Scrambles(x: bv64)
    ensures Scrambled(x * 6415128727920758069) == x
  {
  }

  lemma Mix12(x: bv64)
    ensures Undo12(MixDown12(x)) == x
  {
    hide Undo12;
    Undoes12(x);
  }

  lemma Undoes12(x: bv64)
    ensures Undo12(x ^ (x >> 12)) == x
  {
  }

  lemma Unmix12(y: bv64)
    ensures MixDown12(Undo12(y)) == y
  {
    hide MixDown12;
    Redoes12(y);
  }

  lemma Redoes12(y: bv64)
    ensures MixDown12(y ^ (y >> 12) ^ (y >> 24) ^ (y >> 36) ^ (y >> 48) ^ (y >> 60)) == y
  {
  }

  lemma Mix25(x: bv64)
    ensures Undo25(MixUp25(x)) == x
  {
    hide Undo25;
    Undoes25(x);
  }

  lemma Undoes25(x: bv64)
    ensures Undo25(x ^ (x << 25)) == x
  {
  }

  lemma Unmix25(y: bv64)
    ensures MixUp25(Undo25(y)) == y
  {
    hide MixUp25;
    Redoes25(y);
  }

  lemma Redoes25(y: bv64)
    ensures MixUp25(y ^ (y << 25) ^ (y << 50)) == y
  {
  }

  lemma Mix27(x: bv64)
    ensures Undo27(MixDown27(x)) == x
  {
    hide Undo27;
    Undoes27(x);
  }

  lemma Undoes27(x: bv64)
    ensures Undo27(x ^ (x >> 27)) == x
  {
  }

  lemma Unmix27(y: bv64)
    ensures MixDown27(Undo27(y)) == y
  {
    hide MixDown27;
    Redoes27(y);
  }

  lemma Redoes27(y: bv64)
    ensures MixDown27(y ^ (y >> 27) ^ (y >> 54)) == y
  {
  }

  /** The state before a step. */
  function Previous(y: bv64): bv64 {
    Undo12(Undo25(Undo27(y)))
  }

  /** The generator's step is a bijection of the states. */
  lemma StepIsUndone(x: bv64)
    ensures Previous(PrngState(x)) == x && PrngState(Previous(x)) == x
  {
    hide Undo12, Undo25, Undo27, MixDown12, MixUp25, MixDown27;
    Mix12(x);
    Mix25(MixDown12(x));
    Mix27(MixUp25(MixDown12(x)));
    Unmix27(x);
    Unmix25(Undo27(x));
    Unmix12(Undo25(Undo27(x)));
  }

  lemma ZeroStays()
    ensures PrngState(0) == 0
  {
  }

  /** Different states have different successors and different draws. */
  lemma StepsAreDistinct(x: bv64, y: bv64)
    requires x != y
    ensures PrngState(x) != PrngState(y) && PrngValue(x) != PrngValue(y)
  {
    hide PrngState, Previous, Scrambled, Unscrambled;
    StepIsUndone(x);
    StepIsUndone(y);
    ScramblingIsUndone(x);
    ScramblingIsUndone(y);
    SameNumber(Scrambled(x), Scrambled(y));
  }

  // Seeds and digests.

  /** The first n bytes. */
  function Top(s: bv64, n: nat): bv64
    requires n <= 8
  {
    if n == 0 then 0
    else if n == 1 then s >> 56
    else if n == 2 then s >> 48
    else if n == 3 then s >> 40
    else if n == 4 then s >> 32
    else if n == 5 then s >> 24
    else if n == 6 then s >> 16
    else if n == 7 then s >> 8
    else s
  }

  /** The byte behind them. */
  function NextByte(s: bv64, n: nat): (b: bv64)
    requires n < 8
    ensures b as int < 256
  {
    if n == 0 then s >> 56
    else if n == 1 then (s >> 48) & 0xff
    else if n == 2 then (s >> 40) & 0xff
    else if n == 3 then (s >> 32) & 0xff
    else if n == 4 then (s >> 24) & 0xff
    else if n == 5 then (s >> 16) & 0xff
    else if n == 6 then (s >> 8) & 0xff
    else s & 0xff
  }

  lemma Join0(s: bv64)
    ensures ShiftInBits(0, s >> 56) == s >> 56
  {
  }

  lemma Join1(s: bv64)
    ensures ShiftInBits(s >> 56, (s >> 48) & 0xff) == s >> 48
  {
  }

  lemma Join2(s: bv64)
    ensures ShiftInBits(s >> 48, (s >> 40) & 0xff) == s >> 40
  {
  }

  lemma Join3(s: bv64)
    ensures ShiftInBits(s >> 40, (s >> 32) & 0xff) == s >> 32
  {
  }

  lemma Join4(s: bv64)
    ensures ShiftInBits(s >> 32, (s >> 24) & 0xff) == s >> 24
  {
  }

  lemma Join5(s: bv64)
    ensures ShiftInBits(s >> 24, (s >> 16) & 0xff) == s >> 16
  {
  }

  lemma Join6(s: bv64)
    ensures ShiftInBits(s >> 16, (s >> 8) & 0xff) == s >> 8
  {
  }

  lemma Join7(s: bv64)
    ensures ShiftInBits(s >> 8, s & 0xff) == s
  {
  }

  lemma BytesJoin(s: bv64, n: nat)
    requires n < 8
    ensures ShiftInBits(Top(s, n), NextByte(s, n)) == Top(s, n + 1)
  {
    hide ShiftInBits;
    if n == 0 {
      Join0(s);
    } else if n == 1 {
      Join1(s);
    } else if n == 2 {
      Join2(s);
    } else if n == 3 {
      Join3(s);
    } else if n == 4 {
      Join4(s);
    } else if n == 5 {
      Join5(s);
    } else if n == 6 {
      Join6(s);
    } else {
      Join7(s);
    }
  }

  lemma TopEnds(s: bv64)
    ensures Top(s, 0) == 0 && Top(s, 8) == s
  {
  }

  lemma {:induction false} BitsAreTop(digest: Digest, s: bv64, n: nat)
    requires n <= 8 && forall i :: 0 <= i < 8 ==> ByteBits(digest[i]) == NextByte(s, i)
    ensures SeedBits(digest, n) == Top(s, n)
  {
    hide NextByte, ShiftInBits, ByteBits, Top;
    TopEnds(s);
    if n > 0 {
      BitsAreTop(digest, s, n - 1);
      BytesJoin(s, n - 1);
    }
  }

  /** Every nonzero state is the seed of some digest. */
  lemma EverySeedOccurs(s: bv64) returns (digest: Digest)
    requires s != 0
    ensures Seed(digest) == s
  {
    hide NextByte, ByteBits, SeedBits, Top;
    var bytes: seq<Byte> := [];
    for i := 0 to 8
      invariant |bytes| == i && forall k :: 0 <= k < i ==> ByteBits(bytes[k]) == NextByte(s, k)
    {
      var b: Byte := NextByteOf(s, i);
      bytes := bytes + [b];
    }
    digest := bytes + Zeros(24);
    TopEnds(s);
    BitsAreTop(digest, s, 8);
  }

  lemma NextByteOf(s: bv64, n: nat) returns (b: Byte)
    requires n < 8
    ensures ByteBits(b) == NextByte(s, n)
  {
    b := NextByte(s, n) as int;
    BackAndForth(NextByte(s, n));
  }

  // Where the blocks lie.

  /** The state n steps before y. */
  function Rewound(y: bv64, n: nat): bv64 {
    if n == 0 then y else Previous(Rewound(y, n - 1))
  }

  lemma {:induction false} RewoundIsNonzero(y: bv64, n: nat)
    requires y != 0
    ensures Rewound(y, n) != 0
  {
    hide Previous, PrngState;
    if n > 0 {
      RewoundIsNonzero(y, n - 1);
      StepIsUndone(Rewound(y, n - 1));
      ZeroStays();
    }
  }

  lemma {:induction false} RewindingReaches(y: bv64, n: nat, k: nat, maxOffset: nat)
    requires k <= n && 0 < maxOffset
    ensures StateAt(Rewound(y, n), k + 2, maxOffset) == Rewound(y, n - k)
  {
    hide Previous, PrngState;
    if k > 0 {
      RewindingReaches(y, n, k - 1, maxOffset);
      StepIsUndone(Rewound(y, n - k));
    }
  }

  /** Every nonzero 64-bit number is the draw of some nonzero state. */
  lemma EveryDrawOccurs(v: U64) returns (y: bv64)
    requires v != 0
    ensures y != 0 && PrngValue(y) == v
  {
    hide Scrambled, Unscrambled;
    var x := Represent(v);
    y := Unscrambled(x);
    UnscramblingIsUndone(x);
    if y == 0 {
      NothingScrambled();
    }
  }

  lemma NothingScrambled()
    ensures Scrambled(0) == 0
  {
  }

  /**
   Every block of every source is in reach of every iteration from the third on: for each offset at which a
   whole block fits, some digest makes that iteration compare the block there.
   */
  lemma EveryBlockIsDrawn(size: FileSize, samples: U32, i: nat, x: nat)
    requires SAMPLE_BLOCK < size && x <= size - SAMPLE_BLOCK && 2 <= i
    ensures exists digest :: SamplePlan(size, digest, samples).Offset(i) == x
  {
    hide PrngState, PrngValue, Previous, Seed, StateAt, Rewound, SamplePlan;
    var maxOffset := size - SAMPLE_BLOCK;
    var y := EveryDrawOccurs(if x == 0 then maxOffset + 1 else x);
    RewoundIsNonzero(y, i - 1);
    var digest := EverySeedOccurs(Rewound(y, i - 1));
    DigestReaches(digest, y, i, maxOffset);
    DrawReaches(size, samples, digest, i, y, x);
  }

  lemma DigestReaches(digest: Digest, y: bv64, i: nat, maxOffset: nat)
    requires 2 <= i && 0 < maxOffset && Seed(digest) == Rewound(y, i - 1)
    ensures PrngState(StateAt(Seed(digest), i, maxOffset)) == y
  {
    hide PrngState, Previous, Seed, StateAt;
    RewindingReaches(y, i - 1, i - 2, maxOffset);
    assert Rewound(y, 1) == Previous(Rewound(y, 0)) == Previous(y);
    StepIsUndone(y);
  }

  lemma DrawReaches(size: FileSize, samples: U32, digest: Digest, i: nat, y: bv64, x: nat)
    requires SAMPLE_BLOCK < size && 2 <= i && PrngState(StateAt(Seed(digest), i, size - SAMPLE_BLOCK)) == y
    requires x <= size - SAMPLE_BLOCK && PrngValue(y) == (if x == 0 then size - SAMPLE_BLOCK + 1 else x)
    ensures SamplePlan(size, digest, samples).Offset(i) == x
  {
    hide PrngState, PrngValue, Seed, StateAt;
    Remainder(PrngValue(y), size - SAMPLE_BLOCK + 1, x);
  }

  lemma Remainder(v: nat, modulus: nat, x: nat)
    requires x < modulus && v == (if x == 0 then modulus else x)
    ensures v % modulus == x
  {
  }

  /** Three draws, written out: 100 MiB under a digest whose first eight bytes are the number one. */
  lemma KnownDraws(digest: Digest)
    requires digest[..8] == [0, 0, 0, 0, 0, 0, 0, 1]
    ensures var plan := SamplePlan(104857600, digest, 3);
            && plan.block == 1048576 && plan.iterations == 5
            && plan.Offset(0) == 0 && plan.Offset(1) == 103809024
            && plan.Offset(2) == 41501840 && plan.Offset(3) == 39936767 && plan.Offset(4) == 18195178
  {
    hide PrngState, PrngValue;
    KnownSeed(digest);
    KnownStates();
  }

  lemma KnownStates()
    ensures PrngState(1) == 0x2000001 && PrngValue(0x2000001) == 5180492295206395165
    ensures PrngState(0x2000001) == 0x4004000802801 && PrngValue(0x4004000802801) == 12380297144915551517
    ensures PrngState(0x4004000802801) == 0xd004003202803 && PrngValue(0xd004003202803) == 13389498078930870103
  {
  }

  lemma KnownSeed(digest: Digest)
    requires digest[..8] == [0, 0, 0, 0, 0, 0, 0, 1]
    ensures Seed(digest) == 1
  {
    hide NextByte, ByteBits, SeedBits, Top;
    KnownBytes();
    TopEnds(1);
    forall i | 0 <= i < 8
      ensures ByteBits(digest[i]) == NextByte(1, i)
    {
      assert digest[i] == digest[..8][i];
    }
    BitsAreTop(digest, 1, 8);
  }

  /** Eight zero bytes at the front of a digest are replaced by a seed of the program's own. */
  lemma NoSeed(digest: Digest)
    requires digest[..8] == [0, 0, 0, 0, 0, 0, 0, 0]
    ensures Seed(digest) == 0x00de_adf1_a5c0_ffee
  {
    hide NextByte, ByteBits, SeedBits, Top;
    ZeroBytes();
    TopEnds(0);
    forall i | 0 <= i < 8
      ensures ByteBits(digest[i]) == NextByte(0, i)
    {
      assert digest[i] == digest[..8][i];
    }
    BitsAreTop(digest, 0, 8);
  }

  lemma ZeroBytes()
    ensures forall i :: 0 <= i < 8 ==> NextByte(0, i) == 0
    ensures ByteBits(0) == 0
  {
  }

  lemma KnownBytes()
    ensures NextByte(1, 0) == 0 && NextByte(1, 1) == 0 && NextByte(1, 2) == 0 && NextByte(1, 3) == 0
    ensures NextByte(1, 4) == 0 && NextByte(1, 5) == 0 && NextByte(1, 6) == 0 && NextByte(1, 7) == 1
    ensures ByteBits(0) == 0 && ByteBits(1) == 1
  {
  }
}
