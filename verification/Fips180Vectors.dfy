/**
 What the pure definition computes: the logical functions bit by bit, the constants as fractional bits of
 roots of primes, the shape of the padding, and the digest of "abc" that FIPS 180-4 gives as its example,
 worked out round by round.
 */
module Fips180Vectors {
  import opened Bytes
  import opened Arithmetic
  import opened Fips180

  // The functions of section 4.1.2, bit by bit.

  /** On every set b of bits where x has ones, Ch is y; where it has zeros, z. */
  lemma ChSelects(x: bv32, y: bv32, z: bv32, b: bv32)
    ensures x & b == b ==> Ch(x, y, z) & b == y & b
    ensures x & b == 0 ==> Ch(x, y, z) & b == z & b
  {
  }

  /** Maj has a one exactly where two of the three have. */
  lemma MajIsTheMajority(x: bv32, y: bv32, z: bv32)
    ensures Maj(x, y, z) == (x & y) | (x & z) | (y & z)
  {
  }

  /** Rotr is a rotation to the right, for every amount the standard uses. */
  lemma RotrRotates(x: bv32)
    ensures Rotr(x, 2) == x.RotateRight(2) && Rotr(x, 13) == x.RotateRight(13) && Rotr(x, 22) == x.RotateRight(22)
    ensures Rotr(x, 6) == x.RotateRight(6) && Rotr(x, 11) == x.RotateRight(11) && Rotr(x, 25) == x.RotateRight(25)
    ensures Rotr(x, 7) == x.RotateRight(7) && Rotr(x, 18) == x.RotateRight(18)
    ensures Rotr(x, 17) == x.RotateRight(17) && Rotr(x, 19) == x.RotateRight(19)
  {
  }

  // The constants of sections 4.2.2 and 5.3.3.

  const PRIMES: seq<seq<nat>> := [
    [2, 3, 5, 7, 11, 13, 17, 19],
    [23, 29, 31, 37, 41, 43, 47, 53],
    [59, 61, 67, 71, 73, 79, 83, 89],
    [97, 101, 103, 107, 109, 113, 127, 131],
    [137, 139, 149, 151, 157, 163, 167, 173],
    [179, 181, 191, 193, 197, 199, 211, 223],
    [227, 229, 233, 239, 241, 251, 257, 263],
    [269, 271, 277, 281, 283, 293, 307, 311]]

  function Prime(t: nat): nat
    requires t < 64
  {
    PRIMES[t / 8][t % 8]
  }

  /** A number with the integral part a and 32 fractional bits, as an integer. */
  function Joined(a: nat, k: bv32): nat {
    a * 0x1_0000_0000 + k as int
  }

  /** r is the cube root of p * 2^96, rounded down. */
  predicate CubeRoot(p: nat, r: nat) {
    r * r * r <= p * 0x1_0000_0000_0000_0000_0000_0000 < (r + 1) * (r + 1) * (r + 1)
  }

  /** r is the square root of p * 2^64, rounded down. */
  predicate SquareRoot(p: nat, r: nat) {
    r * r <= p * 0x1_0000_0000_0000_0000 < (r + 1) * (r + 1)
  }

  lemma Constants0()
    ensures && Constant(0) == 0x428a2f98 && Constant(1) == 0x71374491 && Constant(2) == 0xb5c0fbcf
            && Constant(3) == 0xe9b5dba5 && Constant(4) == 0x3956c25b && Constant(5) == 0x59f111f1
            && Constant(6) == 0x923f82a4 && Constant(7) == 0xab1c5ed5
  {
  }

  lemma Constants8()
    ensures && Constant(8) == 0xd807aa98 && Constant(9) == 0x12835b01 && Constant(10) == 0x243185be
            && Constant(11) == 0x550c7dc3 && Constant(12) == 0x72be5d74 && Constant(13) == 0x80deb1fe
            && Constant(14) == 0x9bdc06a7 && Constant(15) == 0xc19bf174
  {
  }

  lemma Constants16()
    ensures && Constant(16) == 0xe49b69c1 && Constant(17) == 0xefbe4786 && Constant(18) == 0x0fc19dc6
            && Constant(19) == 0x240ca1cc && Constant(20) == 0x2de92c6f && Constant(21) == 0x4a7484aa
            && Constant(22) == 0x5cb0a9dc && Constant(23) == 0x76f988da
  {
  }

  lemma Constants24()
    ensures && Constant(24) == 0x983e5152 && Constant(25) == 0xa831c66d && Constant(26) == 0xb00327c8
            && Constant(27) == 0xbf597fc7 && Constant(28) == 0xc6e00bf3 && Constant(29) == 0xd5a79147
            && Constant(30) == 0x06ca6351 && Constant(31) == 0x14292967
  {
  }

  lemma Constants32()
    ensures && Constant(32) == 0x27b70a85 && Constant(33) == 0x2e1b2138 && Constant(34) == 0x4d2c6dfc
            && Constant(35) == 0x53380d13 && Constant(36) == 0x650a7354 && Constant(37) == 0x766a0abb
            && Constant(38) == 0x81c2c92e && Constant(39) == 0x92722c85
  {
  }

  lemma Constants40()
    ensures && Constant(40) == 0xa2bfe8a1 && Constant(41) == 0xa81a664b && Constant(42) == 0xc24b8b70
            && Constant(43) == 0xc76c51a3 && Constant(44) == 0xd192e819 && Constant(45) == 0xd6990624
            && Constant(46) == 0xf40e3585 && Constant(47) == 0x106aa070
  {
  }

  lemma Constants48()
    ensures && Constant(48) == 0x19a4c116 && Constant(49) == 0x1e376c08 && Constant(50) == 0x2748774c
            && Constant(51) == 0x34b0bcb5 && Constant(52) == 0x391c0cb3 && Constant(53) == 0x4ed8aa4a
            && Constant(54) == 0x5b9cca4f && Constant(55) == 0x682e6ff3
  {
  }

  lemma Constants56()
    ensures && Constant(56) == 0x748f82ee && Constant(57) == 0x78a5636f && Constant(58) == 0x84c87814
            && Constant(59) == 0x8cc70208 && Constant(60) == 0x90befffa && Constant(61) == 0xa4506ceb
            && Constant(62) == 0xbef9a3f7 && Constant(63) == 0xc67178f2
  {
  }

  lemma Roots0()
    ensures && CubeRoot(Prime(0), Joined(1, Constant(0))) && CubeRoot(Prime(1), Joined(1, Constant(1)))
            && CubeRoot(Prime(2), Joined(1, Constant(2))) && CubeRoot(Prime(3), Joined(1, Constant(3)))
            && CubeRoot(Prime(4), Joined(2, Constant(4))) && CubeRoot(Prime(5), Joined(2, Constant(5)))
            && CubeRoot(Prime(6), Joined(2, Constant(6))) && CubeRoot(Prime(7), Joined(2, Constant(7)))
  {
    hide Constant, CubeRoot;
    Constants0();
    Cubes0();
  }

  lemma Cubes0()
    ensures && CubeRoot(2, 0x1_428a2f98) && CubeRoot(3, 0x1_71374491) && CubeRoot(5, 0x1_b5c0fbcf)
            && CubeRoot(7, 0x1_e9b5dba5) && CubeRoot(11, 0x2_3956c25b) && CubeRoot(13, 0x2_59f111f1)
            && CubeRoot(17, 0x2_923f82a4) && CubeRoot(19, 0x2_ab1c5ed5)
  {
  }

  lemma Roots8()
    ensures && CubeRoot(Prime(8), Joined(2, Constant(8))) && CubeRoot(Prime(9), Joined(3, Constant(9)))
            && CubeRoot(Prime(10), Joined(3, Constant(10))) && CubeRoot(Prime(11), Joined(3, Constant(11)))
            && CubeRoot(Prime(12), Joined(3, Constant(12))) && CubeRoot(Prime(13), Joined(3, Constant(13)))
            && CubeRoot(Prime(14), Joined(3, Constant(14))) && CubeRoot(Prime(15), Joined(3, Constant(15)))
  {
    hide Constant, CubeRoot;
    Constants8();
    Cubes8();
  }

  lemma Cubes8()
    ensures && CubeRoot(23, 0x2_d807aa98) && CubeRoot(29, 0x3_12835b01) && CubeRoot(31, 0x3_243185be)
            && CubeRoot(37, 0x3_550c7dc3) && CubeRoot(41, 0x3_72be5d74) && CubeRoot(43, 0x3_80deb1fe)
            && CubeRoot(47, 0x3_9bdc06a7) && CubeRoot(53, 0x3_c19bf174)
  {
  }

  lemma Roots16()
    ensures && CubeRoot(Prime(16), Joined(3, Constant(16))) && CubeRoot(Prime(17), Joined(3, Constant(17)))
            && CubeRoot(Prime(18), Joined(4, Constant(18))) && CubeRoot(Prime(19), Joined(4, Constant(19)))
            && CubeRoot(Prime(20), Joined(4, Constant(20))) && CubeRoot(Prime(21), Joined(4, Constant(21)))
            && CubeRoot(Prime(22), Joined(4, Constant(22))) && CubeRoot(Prime(23), Joined(4, Constant(23)))
  {
    hide Constant, CubeRoot;
    Constants16();
    Cubes16();
  }

  lemma Cubes16()
    ensures && CubeRoot(59, 0x3_e49b69c1) && CubeRoot(61, 0x3_efbe4786) && CubeRoot(67, 0x4_0fc19dc6)
            && CubeRoot(71, 0x4_240ca1cc) && CubeRoot(73, 0x4_2de92c6f) && CubeRoot(79, 0x4_4a7484aa)
            && CubeRoot(83, 0x4_5cb0a9dc) && CubeRoot(89, 0x4_76f988da)
  {
  }

  lemma Roots24()
    ensures && CubeRoot(Prime(24), Joined(4, Constant(24))) && CubeRoot(Prime(25), Joined(4, Constant(25)))
            && CubeRoot(Prime(26), Joined(4, Constant(26))) && CubeRoot(Prime(27), Joined(4, Constant(27)))
            && CubeRoot(Prime(28), Joined(4, Constant(28))) && CubeRoot(Prime(29), Joined(4, Constant(29)))
            && CubeRoot(Prime(30), Joined(5, Constant(30))) && CubeRoot(Prime(31), Joined(5, Constant(31)))
  {
    hide Constant, CubeRoot;
    Constants24();
    Cubes24();
  }

  lemma Cubes24()
    ensures && CubeRoot(97, 0x4_983e5152) && CubeRoot(101, 0x4_a831c66d) && CubeRoot(103, 0x4_b00327c8)
            && CubeRoot(107, 0x4_bf597fc7) && CubeRoot(109, 0x4_c6e00bf3) && CubeRoot(113, 0x4_d5a79147)
            && CubeRoot(127, 0x5_06ca6351) && CubeRoot(131, 0x5_14292967)
  {
  }

  lemma Roots32()
    ensures && CubeRoot(Prime(32), Joined(5, Constant(32))) && CubeRoot(Prime(33), Joined(5, Constant(33)))
            && CubeRoot(Prime(34), Joined(5, Constant(34))) && CubeRoot(Prime(35), Joined(5, Constant(35)))
            && CubeRoot(Prime(36), Joined(5, Constant(36))) && CubeRoot(Prime(37), Joined(5, Constant(37)))
            && CubeRoot(Prime(38), Joined(5, Constant(38))) && CubeRoot(Prime(39), Joined(5, Constant(39)))
  {
    hide Constant, CubeRoot;
    Constants32();
    Cubes32();
  }

  lemma Cubes32()
    ensures && CubeRoot(137, 0x5_27b70a85) && CubeRoot(139, 0x5_2e1b2138) && CubeRoot(149, 0x5_4d2c6dfc)
            && CubeRoot(151, 0x5_53380d13) && CubeRoot(157, 0x5_650a7354) && CubeRoot(163, 0x5_766a0abb)
            && CubeRoot(167, 0x5_81c2c92e) && CubeRoot(173, 0x5_92722c85)
  {
  }

  lemma Roots40()
    ensures && CubeRoot(Prime(40), Joined(5, Constant(40))) && CubeRoot(Prime(41), Joined(5, Constant(41)))
            && CubeRoot(Prime(42), Joined(5, Constant(42))) && CubeRoot(Prime(43), Joined(5, Constant(43)))
            && CubeRoot(Prime(44), Joined(5, Constant(44))) && CubeRoot(Prime(45), Joined(5, Constant(45)))
            && CubeRoot(Prime(46), Joined(5, Constant(46))) && CubeRoot(Prime(47), Joined(6, Constant(47)))
  {
    hide Constant, CubeRoot;
    Constants40();
    Cubes40();
  }

  lemma Cubes40()
    ensures && CubeRoot(179, 0x5_a2bfe8a1) && CubeRoot(181, 0x5_a81a664b) && CubeRoot(191, 0x5_c24b8b70)
            && CubeRoot(193, 0x5_c76c51a3) && CubeRoot(197, 0x5_d192e819) && CubeRoot(199, 0x5_d6990624)
            && CubeRoot(211, 0x5_f40e3585) && CubeRoot(223, 0x6_106aa070)
  {
  }

  lemma Roots48()
    ensures && CubeRoot(Prime(48), Joined(6, Constant(48))) && CubeRoot(Prime(49), Joined(6, Constant(49)))
            && CubeRoot(Prime(50), Joined(6, Constant(50))) && CubeRoot(Prime(51), Joined(6, Constant(51)))
            && CubeRoot(Prime(52), Joined(6, Constant(52))) && CubeRoot(Prime(53), Joined(6, Constant(53)))
            && CubeRoot(Prime(54), Joined(6, Constant(54))) && CubeRoot(Prime(55), Joined(6, Constant(55)))
  {
    hide Constant, CubeRoot;
    Constants48();
    Cubes48();
  }

  lemma Cubes48()
    ensures && CubeRoot(227, 0x6_19a4c116) && CubeRoot(229, 0x6_1e376c08) && CubeRoot(233, 0x6_2748774c)
            && CubeRoot(239, 0x6_34b0bcb5) && CubeRoot(241, 0x6_391c0cb3) && CubeRoot(251, 0x6_4ed8aa4a)
            && CubeRoot(257, 0x6_5b9cca4f) && CubeRoot(263, 0x6_682e6ff3)
  {
  }

  lemma Roots56()
    ensures && CubeRoot(Prime(56), Joined(6, Constant(56))) && CubeRoot(Prime(57), Joined(6, Constant(57)))
            && CubeRoot(Prime(58), Joined(6, Constant(58))) && CubeRoot(Prime(59), Joined(6, Constant(59)))
            && CubeRoot(Prime(60), Joined(6, Constant(60))) && CubeRoot(Prime(61), Joined(6, Constant(61)))
            && CubeRoot(Prime(62), Joined(6, Constant(62))) && CubeRoot(Prime(63), Joined(6, Constant(63)))
  {
    hide Constant, CubeRoot;
    Constants56();
    Cubes56();
  }

  lemma Cubes56()
    ensures && CubeRoot(269, 0x6_748f82ee) && CubeRoot(271, 0x6_78a5636f) && CubeRoot(277, 0x6_84c87814)
            && CubeRoot(281, 0x6_8cc70208) && CubeRoot(283, 0x6_90befffa) && CubeRoot(293, 0x6_a4506ceb)
            && CubeRoot(307, 0x6_bef9a3f7) && CubeRoot(311, 0x6_c67178f2)
  {
  }

  /** Every constant of the rounds holds the first 32 fractional bits of the cube root of its prime. */
  lemma ConstantsAreCubeRoots(t: nat)
    requires t < 64
    ensures exists a: nat :: CubeRoot(Prime(t), Joined(a, Constant(t)))
  {
    hide Constant, Prime, CubeRoot, Joined;
    if t < 16 {
      Roots0();
      Roots8();
    } else if t < 32 {
      Roots16();
      Roots24();
    } else if t < 48 {
      Roots32();
      Roots40();
    } else {
      Roots48();
      Roots56();
    }
  }

  /** The initial hash value holds those of the square roots of the first eight. */
  lemma InitialIsSquareRoots()
    ensures && SquareRoot(2, Joined(1, IV[0])) && SquareRoot(3, Joined(1, IV[1]))
            && SquareRoot(5, Joined(2, IV[2])) && SquareRoot(7, Joined(2, IV[3]))
            && SquareRoot(11, Joined(3, IV[4])) && SquareRoot(13, Joined(3, IV[5]))
            && SquareRoot(17, Joined(4, IV[6])) && SquareRoot(19, Joined(4, IV[7]))
  {
  }

  // Padding.

  /** The number that big-endian bytes stand for. */
  function BigEndian(b: seq<Byte>): nat {
    if b == [] then 0 else 256 * BigEndian(b[..|b| - 1]) + b[|b| - 1]
  }

  lemma DivideOnce(v: nat, p: nat)
    requires p > 0
    ensures (v / p) / 256 == v / (256 * p)
  {
    var x := v / p;
    var q := x / 256;
    var r := x % 256;
    assert v == p * x + v % p && x == 256 * q + r;
    Distribute(p, q, r);
    Monotone(p, r, 255);
    Quotient(v, 256 * p, q);
  }

  lemma Distribute(p: nat, q: nat, r: nat)
    ensures p * (256 * q + r) == q * (256 * p) + p * r
    ensures (q + 1) * (256 * p) == q * (256 * p) + 256 * p
  {
  }

  lemma {:induction false} LeadingBytes(v: U64, i: nat)
    requires i <= 8
    ensures BigEndian(Be64(v)[..i]) == v / Pow256(8 - i)
  {
    hide Pow256;
    if i == 0 {
      LastPower(v);
    } else {
      var x := v / Pow256(8 - i);
      LeadingBytes(v, i - 1);
      assert Be64(v)[..i][..i - 1] == Be64(v)[..i - 1];
      DivideOnce(v, Pow256(8 - i));
      NextPower(8 - i);
      assert x == 256 * (x / 256) + x % 256;
    }
  }

  lemma NextPower(i: nat)
    ensures Pow256(i + 1) == 256 * Pow256(i) && Pow256(0) == 1
  {
  }

  lemma LastPower(v: U64)
    ensures v / Pow256(8) == 0
  {
    assert Pow256(8) == 0x1_0000_0000_0000_0000;
  }

  lemma Be64IsBigEndian(v: U64)
    ensures BigEndian(Be64(v)) == v
  {
    LeadingBytes(v, 8);
    assert Be64(v)[..8] == Be64(v) && Pow256(0) == 1;
  }

  /** Section 5.1.1: the message, a one bit, zeros, and the message's length in bits as a 64-bit number. */
  lemma PadIs(m: seq<Byte>)
    requires |m| < 0x2000_0000_0000_0000
    ensures var p := Pad(m);
            && |p| % 64 == 0 && |m| + 9 <= |p| <= |m| + 72 && p[..|m|] == m && p[|m|] == 0x80
            && (forall i :: |m| < i < |p| - 8 ==> p[i] == 0) && BigEndian(p[|p| - 8..]) == 8 * |m|
  {
    hide Be64, BigEndian;
    Be64IsBigEndian(8 * |m|);
    assert Pad(m)[|Pad(m)| - 8..] == Be64(8 * |m|);
  }

  // The example of one block.

  /** The schedule's first words for "abc". */
  predicate Opens(m: Block) {
    && Schedule(m, 0) == 0x61626380 && Schedule(m, 15) == 24
    && forall t :: 0 < t < 15 ==> Schedule(m, t) == 0
  }

  lemma Words16(m: Block)
    requires Opens(m)
    ensures && Schedule(m, 16) == 0x61626380 && Schedule(m, 17) == 0x000f0000 && Schedule(m, 18) == 0x7da86405
            && Schedule(m, 19) == 0x600003c6 && Schedule(m, 20) == 0x3e9d7b78 && Schedule(m, 21) == 0x0183fc00
            && Schedule(m, 22) == 0x12dcbfdb && Schedule(m, 23) == 0xe2e2c38e
  {
  }

  lemma Words24(m: Block)
    requires Opens(m)
    requires && Schedule(m, 16) == 0x61626380 && Schedule(m, 17) == 0x000f0000 && Schedule(m, 18) == 0x7da86405
             && Schedule(m, 19) == 0x600003c6 && Schedule(m, 20) == 0x3e9d7b78 && Schedule(m, 21) == 0x0183fc00
             && Schedule(m, 22) == 0x12dcbfdb && Schedule(m, 23) == 0xe2e2c38e
    ensures && Schedule(m, 24) == 0xc8215c1a && Schedule(m, 25) == 0xb73679a2 && Schedule(m, 26) == 0xe5bc3909
            && Schedule(m, 27) == 0x32663c5b && Schedule(m, 28) == 0x9d209d67 && Schedule(m, 29) == 0xec8726cb
            && Schedule(m, 30) == 0x702138a4 && Schedule(m, 31) == 0xd3b7973b
  {
  }

  lemma Words32(m: Block)
    requires Opens(m)
    requires && Schedule(m, 16) == 0x61626380 && Schedule(m, 17) == 0x000f0000 && Schedule(m, 18) == 0x7da86405
             && Schedule(m, 19) == 0x600003c6 && Schedule(m, 20) == 0x3e9d7b78 && Schedule(m, 21) == 0x0183fc00
             && Schedule(m, 22) == 0x12dcbfdb && Schedule(m, 23) == 0xe2e2c38e && Schedule(m, 24) == 0xc8215c1a
             && Schedule(m, 25) == 0xb73679a2 && Schedule(m, 26) == 0xe5bc3909 && Schedule(m, 27) == 0x32663c5b
             && Schedule(m, 28) == 0x9d209d67 && Schedule(m, 29) == 0xec8726cb && Schedule(m, 30) == 0x702138a4
             && Schedule(m, 31) == 0xd3b7973b
    ensures && Schedule(m, 32) == 0x93f5997f && Schedule(m, 33) == 0x3b68ba73 && Schedule(m, 34) == 0xaff4ffc1
            && Schedule(m, 35) == 0xf10a5c62 && Schedule(m, 36) == 0x0a8b3996 && Schedule(m, 37) == 0x72af830a
            && Schedule(m, 38) == 0x9409e33e && Schedule(m, 39) == 0x24641522
  {
  }

  lemma Words40(m: Block)
    requires Opens(m)
    requires && Schedule(m, 24) == 0xc8215c1a && Schedule(m, 25) == 0xb73679a2 && Schedule(m, 26) == 0xe5bc3909
             && Schedule(m, 27) == 0x32663c5b && Schedule(m, 28) == 0x9d209d67 && Schedule(m, 29) == 0xec8726cb
             && Schedule(m, 30) == 0x702138a4 && Schedule(m, 31) == 0xd3b7973b && Schedule(m, 32) == 0x93f5997f
             && Schedule(m, 33) == 0x3b68ba73 && Schedule(m, 34) == 0xaff4ffc1 && Schedule(m, 35) == 0xf10a5c62
             && Schedule(m, 36) == 0x0a8b3996 && Schedule(m, 37) == 0x72af830a && Schedule(m, 38) == 0x9409e33e
             && Schedule(m, 39) == 0x24641522
    ensures && Schedule(m, 40) == 0x9f47bf94 && Schedule(m, 41) == 0xf0a64f5a && Schedule(m, 42) == 0x3e246a79
            && Schedule(m, 43) == 0x27333ba3 && Schedule(m, 44) == 0x0c4763f2 && Schedule(m, 45) == 0x840abf27
            && Schedule(m, 46) == 0x7a290d5d && Schedule(m, 47) == 0x065c43da
  {
  }

  lemma Words48(m: Block)
    requires Opens(m)
    requires && Schedule(m, 32) == 0x93f5997f && Schedule(m, 33) == 0x3b68ba73 && Schedule(m, 34) == 0xaff4ffc1
             && Schedule(m, 35) == 0xf10a5c62 && Schedule(m, 36) == 0x0a8b3996 && Schedule(m, 37) == 0x72af830a
             && Schedule(m, 38) == 0x9409e33e && Schedule(m, 39) == 0x24641522 && Schedule(m, 40) == 0x9f47bf94
             && Schedule(m, 41) == 0xf0a64f5a && Schedule(m, 42) == 0x3e246a79 && Schedule(m, 43) == 0x27333ba3
             && Schedule(m, 44) == 0x0c4763f2 && Schedule(m, 45) == 0x840abf27 && Schedule(m, 46) == 0x7a290d5d
             && Schedule(m, 47) == 0x065c43da
    ensures && Schedule(m, 48) == 0xfb3e89cb && Schedule(m, 49) == 0xcc7617db && Schedule(m, 50) == 0xb9e66c34
            && Schedule(m, 51) == 0xa9993667 && Schedule(m, 52) == 0x84badedd && Schedule(m, 53) == 0xc21462bc
            && Schedule(m, 54) == 0x1487472c && Schedule(m, 55) == 0xb20f7a99
  {
  }

  lemma Words56(m: Block)
    requires Opens(m)
    requires && Schedule(m, 40) == 0x9f47bf94 && Schedule(m, 41) == 0xf0a64f5a && Schedule(m, 42) == 0x3e246a79
             && Schedule(m, 43) == 0x27333ba3 && Schedule(m, 44) == 0x0c4763f2 && Schedule(m, 45) == 0x840abf27
             && Schedule(m, 46) == 0x7a290d5d && Schedule(m, 47) == 0x065c43da && Schedule(m, 48) == 0xfb3e89cb
             && Schedule(m, 49) == 0xcc7617db && Schedule(m, 50) == 0xb9e66c34 && Schedule(m, 51) == 0xa9993667
             && Schedule(m, 52) == 0x84badedd && Schedule(m, 53) == 0xc21462bc && Schedule(m, 54) == 0x1487472c
             && Schedule(m, 55) == 0xb20f7a99
    ensures && Schedule(m, 56) == 0xef57b9cd && Schedule(m, 57) == 0xebe6b238 && Schedule(m, 58) == 0x9fe3095e
            && Schedule(m, 59) == 0x78bc8d4b && Schedule(m, 60) == 0xa43fcf15 && Schedule(m, 61) == 0x668b2ff8
            && Schedule(m, 62) == 0xeeaba2cc && Schedule(m, 63) == 0x12b1edeb
  {
  }

  /** One round: the two new words, and the others moved on. */
  function Shift(s: Working, a: bv32, e: bv32): Working {
    Working(a, s.a, s.b, s.c, e, s.e, s.f, s.g)
  }

  lemma Advance(v: Working, m: Block, t: nat, s: Working, k: bv32, w: bv32, a: bv32, e: bv32) returns (n: Working)
    requires t < 64 && Rounds(v, m, t) == s && Constant(t) == k && Schedule(m, t) == w
    requires Round(s, k, w) == Shift(s, a, e)
    ensures n == Shift(s, a, e) == Rounds(v, m, t + 1)
  {
    n := Shift(s, a, e);
  }

  lemma Rounds0(v: Working, m: Block)
    requires Rounds(v, m, 0) ==
            Working(0x6a09e667, 0xbb67ae85, 0x3c6ef372, 0xa54ff53a, 0x510e527f, 0x9b05688c, 0x1f83d9ab, 0x5be0cd19)
    requires Opens(m)
    ensures Rounds(v, m, 8) ==
            Working(0x85a07b5f, 0xe5030380, 0x2b4209f5, 0x04409a6a, 0x0c657a79, 0x9b27a401, 0x714260ad, 0x43ada245)
  {
    hide Schedule, Rounds, Constant;
    Constants0();
    var s := Working(0x6a09e667, 0xbb67ae85, 0x3c6ef372, 0xa54ff53a, 0x510e527f, 0x9b05688c, 0x1f83d9ab, 0x5be0cd19);
    s := Advance(v, m, 0, s, 0x428a2f98, 0x61626380, 0x5d6aebcd, 0xfa2a4622);
    s := Advance(v, m, 1, s, 0x71374491, 0x00000000, 0x5a6ad9ad, 0x78ce7989);
    s := Advance(v, m, 2, s, 0xb5c0fbcf, 0x00000000, 0xc8c347a7, 0xf92939eb);
    s := Advance(v, m, 3, s, 0xe9b5dba5, 0x00000000, 0xd550f666, 0x24e00850);
    s := Advance(v, m, 4, s, 0x3956c25b, 0x00000000, 0x04409a6a, 0x43ada245);
    s := Advance(v, m, 5, s, 0x59f111f1, 0x00000000, 0x2b4209f5, 0x714260ad);
    s := Advance(v, m, 6, s, 0x923f82a4, 0x00000000, 0xe5030380, 0x9b27a401);
    s := Advance(v, m, 7, s, 0xab1c5ed5, 0x00000000, 0x85a07b5f, 0x0c657a79);
  }

  lemma Rounds8(v: Working, m: Block)
    requires Rounds(v, m, 8) ==
            Working(0x85a07b5f, 0xe5030380, 0x2b4209f5, 0x04409a6a, 0x0c657a79, 0x9b27a401, 0x714260ad, 0x43ada245)
    requires Opens(m)
    ensures Rounds(v, m, 16) ==
            Working(0xb0fa238e, 0xc0645fde, 0xd932eb16, 0x87912990, 0x07590dcd, 0x0b92f20c, 0x745a48de, 0x1e578218)
  {
    hide Schedule, Rounds, Constant;
    Constants8();
    var s := Working(0x85a07b5f, 0xe5030380, 0x2b4209f5, 0x04409a6a, 0x0c657a79, 0x9b27a401, 0x714260ad, 0x43ada245);
    s := Advance(v, m, 8, s, 0xd807aa98, 0x00000000, 0x8e04ecb9, 0x32ca2d8c);
    s := Advance(v, m, 9, s, 0x12835b01, 0x00000000, 0x8c87346b, 0x1cc92596);
    s := Advance(v, m, 10, s, 0x243185be, 0x00000000, 0x4798a3f4, 0x436b23e8);
    s := Advance(v, m, 11, s, 0x550c7dc3, 0x00000000, 0xf71fc5a9, 0x816fd6e9);
    s := Advance(v, m, 12, s, 0x72be5d74, 0x00000000, 0x87912990, 0x1e578218);
    s := Advance(v, m, 13, s, 0x80deb1fe, 0x00000000, 0xd932eb16, 0x745a48de);
    s := Advance(v, m, 14, s, 0x9bdc06a7, 0x00000000, 0xc0645fde, 0x0b92f20c);
    s := Advance(v, m, 15, s, 0xc19bf174, 0x00000018, 0xb0fa238e, 0x07590dcd);
  }

  lemma Rounds16(v: Working, m: Block)
    requires Rounds(v, m, 16) ==
            Working(0xb0fa238e, 0xc0645fde, 0xd932eb16, 0x87912990, 0x07590dcd, 0x0b92f20c, 0x745a48de, 0x1e578218)
    requires && Schedule(m, 16) == 0x61626380 && Schedule(m, 17) == 0x000f0000 && Schedule(m, 18) == 0x7da86405
             && Schedule(m, 19) == 0x600003c6 && Schedule(m, 20) == 0x3e9d7b78 && Schedule(m, 21) == 0x0183fc00
             && Schedule(m, 22) == 0x12dcbfdb && Schedule(m, 23) == 0xe2e2c38e
    ensures Rounds(v, m, 24) ==
            Working(0xc5d53d8d, 0xa7a3623f, 0xc2606d6d, 0x9dc68b63, 0xaa47c347, 0x49f5114a, 0xe1257970, 0x8ada8930)
  {
    hide Schedule, Rounds, Constant;
    Constants16();
    var s := Working(0xb0fa238e, 0xc0645fde, 0xd932eb16, 0x87912990, 0x07590dcd, 0x0b92f20c, 0x745a48de, 0x1e578218);
    s := Advance(v, m, 16, s, 0xe49b69c1, 0x61626380, 0x21da9a9b, 0x8034229c);
    s := Advance(v, m, 17, s, 0xefbe4786, 0x000f0000, 0xc2fbd9d1, 0x846ee454);
    s := Advance(v, m, 18, s, 0x0fc19dc6, 0x7da86405, 0xfe777bbf, 0xcc899961);
    s := Advance(v, m, 19, s, 0x240ca1cc, 0x600003c6, 0xe1f20c33, 0xb0638179);
    s := Advance(v, m, 20, s, 0x2de92c6f, 0x3e9d7b78, 0x9dc68b63, 0x8ada8930);
    s := Advance(v, m, 21, s, 0x4a7484aa, 0x0183fc00, 0xc2606d6d, 0xe1257970);
    s := Advance(v, m, 22, s, 0x5cb0a9dc, 0x12dcbfdb, 0xa7a3623f, 0x49f5114a);
    s := Advance(v, m, 23, s, 0x76f988da, 0xe2e2c38e, 0xc5d53d8d, 0xaa47c347);
  }

  lemma Rounds24(v: Working, m: Block)
    requires Rounds(v, m, 24) ==
            Working(0xc5d53d8d, 0xa7a3623f, 0xc2606d6d, 0x9dc68b63, 0xaa47c347, 0x49f5114a, 0xe1257970, 0x8ada8930)
    requires && Schedule(m, 24) == 0xc8215c1a && Schedule(m, 25) == 0xb73679a2 && Schedule(m, 26) == 0xe5bc3909
             && Schedule(m, 27) == 0x32663c5b && Schedule(m, 28) == 0x9d209d67 && Schedule(m, 29) == 0xec8726cb
             && Schedule(m, 30) == 0x702138a4 && Schedule(m, 31) == 0xd3b7973b
    ensures Rounds(v, m, 32) ==
            Working(0x73b33bf5, 0xea992a22, 0xa0060b30, 0x363482c9, 0xba591112, 0x0109ab3a, 0xade79437, 0x6112a3b7)
  {
    hide Schedule, Rounds, Constant;
    Constants24();
    var s := Working(0xc5d53d8d, 0xa7a3623f, 0xc2606d6d, 0x9dc68b63, 0xaa47c347, 0x49f5114a, 0xe1257970, 0x8ada8930);
    s := Advance(v, m, 24, s, 0x983e5152, 0xc8215c1a, 0x1c2c2838, 0x2823ef91);
    s := Advance(v, m, 25, s, 0xa831c66d, 0xb73679a2, 0xcde8037d, 0x14383d8e);
    s := Advance(v, m, 26, s, 0xb00327c8, 0xe5bc3909, 0xb62ec4bc, 0xc74c6516);
    s := Advance(v, m, 27, s, 0xbf597fc7, 0x32663c5b, 0x77d37528, 0xedffbff8);
    s := Advance(v, m, 28, s, 0xc6e00bf3, 0x9d209d67, 0x363482c9, 0x6112a3b7);
    s := Advance(v, m, 29, s, 0xd5a79147, 0xec8726cb, 0xa0060b30, 0xade79437);
    s := Advance(v, m, 30, s, 0x06ca6351, 0x702138a4, 0xea992a22, 0x0109ab3a);
    s := Advance(v, m, 31, s, 0x14292967, 0xd3b7973b, 0x73b33bf5, 0xba591112);
  }

  lemma Rounds32(v: Working, m: Block)
    requires Rounds(v, m, 32) ==
            Working(0x73b33bf5, 0xea992a22, 0xa0060b30, 0x363482c9, 0xba591112, 0x0109ab3a, 0xade79437, 0x6112a3b7)
    requires && Schedule(m, 32) == 0x93f5997f && Schedule(m, 33) == 0x3b68ba73 && Schedule(m, 34) == 0xaff4ffc1
             && Schedule(m, 35) == 0xf10a5c62 && Schedule(m, 36) == 0x0a8b3996 && Schedule(m, 37) == 0x72af830a
             && Schedule(m, 38) == 0x9409e33e && Schedule(m, 39) == 0x24641522
    ensures Rounds(v, m, 40) ==
            Working(0x79ea687a, 0x6dc57a8a, 0x34df1604, 0x41a65cb1, 0x1efbc0a0, 0xf0781bc8, 0xa507a53d, 0x0772a26b)
  {
    hide Schedule, Rounds, Constant;
    Constants32();
    var s := Working(0x73b33bf5, 0xea992a22, 0xa0060b30, 0x363482c9, 0xba591112, 0x0109ab3a, 0xade79437, 0x6112a3b7);
    s := Advance(v, m, 32, s, 0x27b70a85, 0x93f5997f, 0x98e12507, 0x9cd9f5f6);
    s := Advance(v, m, 33, s, 0x2e1b2138, 0x3b68ba73, 0xfe604df5, 0x59249dd3);
    s := Advance(v, m, 34, s, 0x4d2c6dfc, 0xaff4ffc1, 0xa9a7738c, 0x085f3833);
    s := Advance(v, m, 35, s, 0x53380d13, 0xf10a5c62, 0x65a0cfe4, 0xf4b002d6);
    s := Advance(v, m, 36, s, 0x650a7354, 0x0a8b3996, 0x41a65cb1, 0x0772a26b);
    s := Advance(v, m, 37, s, 0x766a0abb, 0x72af830a, 0x34df1604, 0xa507a53d);
    s := Advance(v, m, 38, s, 0x81c2c92e, 0x9409e33e, 0x6dc57a8a, 0xf0781bc8);
    s := Advance(v, m, 39, s, 0x92722c85, 0x24641522, 0x79ea687a, 0x1efbc0a0);
  }

  lemma Rounds40(v: Working, m: Block)
    requires Rounds(v, m, 40) ==
            Working(0x79ea687a, 0x6dc57a8a, 0x34df1604, 0x41a65cb1, 0x1efbc0a0, 0xf0781bc8, 0xa507a53d, 0x0772a26b)
    requires && Schedule(m, 40) == 0x9f47bf94 && Schedule(m, 41) == 0xf0a64f5a && Schedule(m, 42) == 0x3e246a79
             && Schedule(m, 43) == 0x27333ba3 && Schedule(m, 44) == 0x0c4763f2 && Schedule(m, 45) == 0x840abf27
             && Schedule(m, 46) == 0x7a290d5d && Schedule(m, 47) == 0x065c43da
    ensures Rounds(v, m, 48) ==
            Working(0x4172328d, 0xa14c14b0, 0x72ab4b91, 0x26628815, 0xfecf0bc6, 0xd57b94a9, 0xb7755da1, 0xa80f11f0)
  {
    hide Schedule, Rounds, Constant;
    Constants40();
    var s := Working(0x79ea687a, 0x6dc57a8a, 0x34df1604, 0x41a65cb1, 0x1efbc0a0, 0xf0781bc8, 0xa507a53d, 0x0772a26b);
    s := Advance(v, m, 40, s, 0xa2bfe8a1, 0x9f47bf94, 0xd6670766, 0x26352d63);
    s := Advance(v, m, 41, s, 0xa81a664b, 0xf0a64f5a, 0xdf46652f, 0x838b2711);
    s := Advance(v, m, 42, s, 0xc24b8b70, 0x3e246a79, 0x17aa0dfe, 0xdecd4715);
    s := Advance(v, m, 43, s, 0xc76c51a3, 0x27333ba3, 0x9d4baf93, 0xfda24c2e);
    s := Advance(v, m, 44, s, 0xd192e819, 0x0c4763f2, 0x26628815, 0xa80f11f0);
    s := Advance(v, m, 45, s, 0xd6990624, 0x840abf27, 0x72ab4b91, 0xb7755da1);
    s := Advance(v, m, 46, s, 0xf40e3585, 0x7a290d5d, 0xa14c14b0, 0xd57b94a9);
    s := Advance(v, m, 47, s, 0x106aa070, 0x065c43da, 0x4172328d, 0xfecf0bc6);
  }

  lemma Rounds48(v: Working, m: Block)
    requires Rounds(v, m, 48) ==
            Working(0x4172328d, 0xa14c14b0, 0x72ab4b91, 0x26628815, 0xfecf0bc6, 0xd57b94a9, 0xb7755da1, 0xa80f11f0)
    requires && Schedule(m, 48) == 0xfb3e89cb && Schedule(m, 49) == 0xcc7617db && Schedule(m, 50) == 0xb9e66c34
             && Schedule(m, 51) == 0xa9993667 && Schedule(m, 52) == 0x84badedd && Schedule(m, 53) == 0xc21462bc
             && Schedule(m, 54) == 0x1487472c && Schedule(m, 55) == 0xb20f7a99
    ensures Rounds(v, m, 56) ==
            Working(0x38cc9913, 0x3ec45cdb, 0xf5702fdb, 0x101fd28f, 0x54cb266b, 0xe50e1b4f, 0x9f4787c3, 0x529e7d00)
  {
    hide Schedule, Rounds, Constant;
    Constants48();
    var s := Working(0x4172328d, 0xa14c14b0, 0x72ab4b91, 0x26628815, 0xfecf0bc6, 0xd57b94a9, 0xb7755da1, 0xa80f11f0);
    s := Advance(v, m, 48, s, 0x19a4c116, 0xfb3e89cb, 0x05757ceb, 0xbd714038);
    s := Advance(v, m, 49, s, 0x1e376c08, 0xcc7617db, 0xf11bfaa8, 0x6e5c390c);
    s := Advance(v, m, 50, s, 0x2748774c, 0xb9e66c34, 0x7a0508a1, 0x52f1ccf7);
    s := Advance(v, m, 51, s, 0x34b0bcb5, 0xa9993667, 0x886e7a22, 0x49231c1e);
    s := Advance(v, m, 52, s, 0x391c0cb3, 0x84badedd, 0x101fd28f, 0x529e7d00);
    s := Advance(v, m, 53, s, 0x4ed8aa4a, 0xc21462bc, 0xf5702fdb, 0x9f4787c3);
    s := Advance(v, m, 54, s, 0x5b9cca4f, 0x1487472c, 0x3ec45cdb, 0xe50e1b4f);
    s := Advance(v, m, 55, s, 0x682e6ff3, 0xb20f7a99, 0x38cc9913, 0x54cb266b);
  }

  lemma Rounds56(v: Working, m: Block)
    requires Rounds(v, m, 56) ==
            Working(0x38cc9913, 0x3ec45cdb, 0xf5702fdb, 0x101fd28f, 0x54cb266b, 0xe50e1b4f, 0x9f4787c3, 0x529e7d00)
    requires && Schedule(m, 56) == 0xef57b9cd && Schedule(m, 57) == 0xebe6b238 && Schedule(m, 58) == 0x9fe3095e
             && Schedule(m, 59) == 0x78bc8d4b && Schedule(m, 60) == 0xa43fcf15 && Schedule(m, 61) == 0x668b2ff8
             && Schedule(m, 62) == 0xeeaba2cc && Schedule(m, 63) == 0x12b1edeb
    ensures Rounds(v, m, 64) ==
            Working(0x506e3058, 0xd39a2165, 0x04d24d6c, 0xb85e2ce9, 0x5ef50f24, 0xfb121210, 0x948d25b6, 0x961f4894)
  {
    hide Schedule, Rounds, Constant;
    Constants56();
    var s := Working(0x38cc9913, 0x3ec45cdb, 0xf5702fdb, 0x101fd28f, 0x54cb266b, 0xe50e1b4f, 0x9f4787c3, 0x529e7d00);
    s := Advance(v, m, 56, s, 0x748f82ee, 0xef57b9cd, 0xfcd1887b, 0x9b5e906c);
    s := Advance(v, m, 57, s, 0x78a5636f, 0xebe6b238, 0xc062d46f, 0x7e44008e);
    s := Advance(v, m, 58, s, 0x84c87814, 0x9fe3095e, 0xffb70472, 0x6d83bfc6);
    s := Advance(v, m, 59, s, 0x8cc70208, 0x78bc8d4b, 0xb6ae8fff, 0xb21bad3d);
    s := Advance(v, m, 60, s, 0x90befffa, 0xa43fcf15, 0xb85e2ce9, 0x961f4894);
    s := Advance(v, m, 61, s, 0xa4506ceb, 0x668b2ff8, 0x04d24d6c, 0x948d25b6);
    s := Advance(v, m, 62, s, 0xbef9a3f7, 0xeeaba2cc, 0xd39a2165, 0xfb121210);
    s := Advance(v, m, 63, s, 0xc67178f2, 0x12b1edeb, 0x506e3058, 0x5ef50f24);
  }

  /** The 64 rounds over the block of "abc". */
  lemma AbcRounds(m: Block)
    requires Opens(m)
    ensures var v := Working(0x6a09e667, 0xbb67ae85, 0x3c6ef372, 0xa54ff53a, 0x510e527f, 0x9b05688c, 0x1f83d9ab, 0x5be0cd19);
            Rounds(v, m, 64) ==
            Working(0x506e3058, 0xd39a2165, 0x04d24d6c, 0xb85e2ce9, 0x5ef50f24, 0xfb121210, 0x948d25b6, 0x961f4894)
  {
    hide Schedule;
    var v := Working(0x6a09e667, 0xbb67ae85, 0x3c6ef372, 0xa54ff53a, 0x510e527f, 0x9b05688c, 0x1f83d9ab, 0x5be0cd19);
    Words16(m);
    Words24(m);
    Words32(m);
    Words40(m);
    Words48(m);
    Words56(m);
    Rounds0(v, m);
    Rounds8(v, m);
    Rounds16(v, m);
    Rounds24(v, m);
    Rounds32(v, m);
    Rounds40(v, m);
    Rounds48(v, m);
    Rounds56(v, m);
  }

  lemma AbcBlock()
    ensures Pad(Ascii("abc")) == [0x61, 0x62, 0x63, 0x80] + Zeros(59) + [24]
  {
    assert Ascii("abc") == [0x61, 0x62, 0x63];
    assert Be64(24) == [0, 0, 0, 0, 0, 0, 0, 24] by {
      Be64Small(24);
    }
    assert Zeros(52) + [0, 0, 0, 0, 0, 0, 0, 24] == Zeros(59) + [24];
    assert PadZeros(3) == 52;
  }

  lemma Be64Small(v: Byte)
    ensures Be64(v) == [0, 0, 0, 0, 0, 0, 0, v]
  {
    forall i | 0 <= i < 7
      ensures Be64(v)[i] == 0
    {
      Pow256Grows(7 - i);
      SmallQuotient(v, Pow256(7 - i));
    }
    assert Pow256(0) == 1;
  }

  lemma {:induction false} Pow256Grows(i: nat)
    requires i > 0
    ensures Pow256(i) >= 256
  {
    if i > 1 {
      Pow256Grows(i - 1);
    }
  }

  lemma AbcJoins()
    ensures Join32(0x61, 0x62, 0x63, 0x80) == 0x61626380
    ensures Join32(0, 0, 0, 0) == 0 && Join32(0, 0, 0, 24) == 24
  {
  }

  lemma AbcLoads()
    ensures LoadBe32([0x61, 0x62, 0x63, 0x80]) == 0x61626380
    ensures LoadBe32([0, 0, 0, 0]) == 0 && LoadBe32([0, 0, 0, 24]) == 24
  {
    hide Join32;
    AbcJoins();
  }

  lemma AbcOpens(m: Block)
    requires m == Pad(Ascii("abc"))
    ensures Opens(m)
  {
    hide Pad, LoadBe32;
    AbcBlock();
    AbcLoads();
    assert m[0..4] == [0x61, 0x62, 0x63, 0x80] && m[60..64] == [0, 0, 0, 24];
    forall t | 0 < t < 15
      ensures Schedule(m, t) == 0
    {
      assert m[4 * t..4 * t + 4] == [0, 0, 0, 0];
    }
  }

  lemma AbcWords(m: Block)
    requires m == Pad(Ascii("abc"))
    ensures HashBlocks(m) == [0xba7816bf, 0x8f01cfea, 0x414140de, 0x5dae2223, 0xb00361a3, 0x96177a9c, 0xb410ff61, 0xf20015ad]
  {
    hide Schedule, Rounds, Pad;
    AbcOpens(m);
    AbcRounds(m);
    assert m[..0] == [] && m[0..] == m;
  }

  lemma NoWords()
    ensures WordBytes([]) == []
  {
  }

  lemma WordsAppend(w: seq<bv32>, x: bv32)
    ensures WordBytes(w + [x]) == WordBytes(w) + StoreBe32(x)
  {
    hide StoreBe32;
    assert (w + [x])[..|w|] == w;
  }

  lemma AbcStores()
    ensures && StoreBe32(0xba7816bf) == [0xba, 0x78, 0x16, 0xbf]
            && StoreBe32(0x8f01cfea) == [0x8f, 0x01, 0xcf, 0xea]
            && StoreBe32(0x414140de) == [0x41, 0x41, 0x40, 0xde]
            && StoreBe32(0x5dae2223) == [0x5d, 0xae, 0x22, 0x23]
            && StoreBe32(0xb00361a3) == [0xb0, 0x03, 0x61, 0xa3]
            && StoreBe32(0x96177a9c) == [0x96, 0x17, 0x7a, 0x9c]
            && StoreBe32(0xb410ff61) == [0xb4, 0x10, 0xff, 0x61]
            && StoreBe32(0xf20015ad) == [0xf2, 0x00, 0x15, 0xad]
  {
  }

  lemma AbcBytes()
    ensures WordBytes([0xba7816bf, 0x8f01cfea, 0x414140de, 0x5dae2223, 0xb00361a3, 0x96177a9c, 0xb410ff61, 0xf20015ad]) == [
      0xba, 0x78, 0x16, 0xbf, 0x8f, 0x01, 0xcf, 0xea, 0x41, 0x41, 0x40, 0xde, 0x5d, 0xae, 0x22, 0x23,
      0xb0, 0x03, 0x61, 0xa3, 0x96, 0x17, 0x7a, 0x9c, 0xb4, 0x10, 0xff, 0x61, 0xf2, 0x00, 0x15, 0xad]
  {
    hide WordBytes, StoreBe32;
    var w: seq<bv32> := [0xba7816bf, 0x8f01cfea, 0x414140de, 0x5dae2223, 0xb00361a3, 0x96177a9c, 0xb410ff61, 0xf20015ad];
    AbcStores();
    NoWords();
    WordsAppend(w[..0], w[0]);
    assert w[..0] + [w[0]] == w[..1];
    WordsAppend(w[..1], w[1]);
    assert w[..1] + [w[1]] == w[..2];
    WordsAppend(w[..2], w[2]);
    assert w[..2] + [w[2]] == w[..3];
    WordsAppend(w[..3], w[3]);
    assert w[..3] + [w[3]] == w[..4];
    WordsAppend(w[..4], w[4]);
    assert w[..4] + [w[4]] == w[..5];
    WordsAppend(w[..5], w[5]);
    assert w[..5] + [w[5]] == w[..6];
    WordsAppend(w[..6], w[6]);
    assert w[..6] + [w[6]] == w[..7];
    WordsAppend(w[..7], w[7]);
    assert w[..7] + [w[7]] == w[..8];
    assert w[..0] == [] && w[..8] == w;
  }

  /** The known answer for the one-block message "abc". */
  lemma AbcDigest()
    ensures Sha256(Ascii("abc")) == [
      0xba, 0x78, 0x16, 0xbf, 0x8f, 0x01, 0xcf, 0xea, 0x41, 0x41, 0x40, 0xde, 0x5d, 0xae, 0x22, 0x23,
      0xb0, 0x03, 0x61, 0xa3, 0x96, 0x17, 0x7a, 0x9c, 0xb4, 0x10, 0xff, 0x61, 0xf2, 0x00, 0x15, 0xad]
  {
    hide Pad, HashBlocks;
    AbcBlock();
    AbcWords(Pad(Ascii("abc")));
    AbcBytes();
  }
}
