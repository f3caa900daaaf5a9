/**
 SHA-256 as FIPS 180-4 writes it: padding (section 5.1.1), the message schedule and the
 compression function (section 6.2.2), on whole messages and without any running state.
 */
module Fips180 {
  import opened Bytes

  /** The eight 32-bit words of a hash value. */
  type HashValue = h: seq<bv32> | |h| == 8 witness [0, 0, 0, 0, 0, 0, 0, 0]

  /** A message block of 512 bits. */
  type Block = b: seq<Byte> | |b| == 64 witness Zeros(64)

  /** The working variables a..h of section 6.2.2. */
  datatype Working = Working(a: bv32, b: bv32, c: bv32, d: bv32, e: bv32, f: bv32, g: bv32, h: bv32)

  /** Section 4.2.2, in rows of eight. */
  const K: seq<seq<bv32>> := [
    [0x428a2f98, 0x71374491, 0xb5c0fbcf, 0xe9b5dba5, 0x3956c25b, 0x59f111f1, 0x923f82a4, 0xab1c5ed5],
    [0xd807aa98, 0x12835b01, 0x243185be, 0x550c7dc3, 0x72be5d74, 0x80deb1fe, 0x9bdc06a7, 0xc19bf174],
    [0xe49b69c1, 0xefbe4786, 0x0fc19dc6, 0x240ca1cc, 0x2de92c6f, 0x4a7484aa, 0x5cb0a9dc, 0x76f988da],
    [0x983e5152, 0xa831c66d, 0xb00327c8, 0xbf597fc7, 0xc6e00bf3, 0xd5a79147, 0x06ca6351, 0x14292967],
    [0x27b70a85, 0x2e1b2138, 0x4d2c6dfc, 0x53380d13, 0x650a7354, 0x766a0abb, 0x81c2c92e, 0x92722c85],
    [0xa2bfe8a1, 0xa81a664b, 0xc24b8b70, 0xc76c51a3, 0xd192e819, 0xd6990624, 0xf40e3585, 0x106aa070],
    [0x19a4c116, 0x1e376c08, 0x2748774c, 0x34b0bcb5, 0x391c0cb3, 0x4ed8aa4a, 0x5b9cca4f, 0x682e6ff3],
    [0x748f82ee, 0x78a5636f, 0x84c87814, 0x8cc70208, 0x90befffa, 0xa4506ceb, 0xbef9a3f7, 0xc67178f2]]

  function Constant(t: nat): bv32
    requires t < 64
  {
    K[t / 8][t % 8]
  }

  /** Section 5.3.3. */
  const IV: HashValue := [
    0x6a09e667, 0xbb67ae85, 0x3c6ef372, 0xa54ff53a, 0x510e527f, 0x9b05688c, 0x1f83d9ab, 0x5be0cd19]

  function Rotr(x: bv32, n: bv32): bv32
    requires 0 < n < 32
  {
    (x >> n) | (x << (32 - n))
  }

  /** Addition modulo 2^32 (section 3.2). */
  function Add(x: bv32, y: bv32): bv32 {
    x + y
  }

  function Ch(x: bv32, y: bv32, z: bv32): bv32 {
    (x & y) ^ (!x & z)
  }

  function Maj(x: bv32, y: bv32, z: bv32): bv32 {
    (x & y) ^ (x & z) ^ (y & z)
  }

  function BigSigma0(x: bv32): bv32 {
    Rotr(x, 2) ^ Rotr(x, 13) ^ Rotr(x, 22)
  }

  function BigSigma1(x: bv32): bv32 {
    Rotr(x, 6) ^ Rotr(x, 11) ^ Rotr(x, 25)
  }

  function SmallSigma0(x: bv32): bv32 {
    Rotr(x, 7) ^ Rotr(x, 18) ^ (x >> 3)
  }

  function SmallSigma1(x: bv32): bv32 {
    Rotr(x, 17) ^ Rotr(x, 19) ^ (x >> 10)
  }

  /** Four bytes as one word, the first one on top. */
  function Join32(a: bv32, b: bv32, c: bv32, d: bv32): bv32 {
    (a << 24) | (b << 16) | (c << 8) | d
  }

  function LoadBe32(p: seq<Byte>): bv32
    requires |p| == 4
  {
    Join32(p[0] as bv32, p[1] as bv32, p[2] as bv32, p[3] as bv32)
  }

  function StoreBe32(v: bv32): (p: seq<Byte>)
    ensures |p| == 4
  {
    [(v >> 24) as bv8 as int, ((v >> 16) & 0xff) as bv8 as int, ((v >> 8) & 0xff) as bv8 as int,
     (v & 0xff) as bv8 as int]
  }

  /** 256 to the power i. */
  function Pow256(i: nat): (p: nat)
    ensures p > 0
  {
    if i == 0 then 1 else 256 * Pow256(i - 1)
  }

  /** The 64-bit big-endian encoding of v. */
  function Be64(v: U64): (p: seq<Byte>)
    ensures |p| == 8
  {
    seq(8, i requires 0 <= i < 8 => (v / Pow256(7 - i)) % 256)
  }

  /** W_t of section 6.2.2, step 1. */
  function Schedule(block: Block, t: nat): bv32
    requires t < 64
  {
    if t < 16 then LoadBe32(block[4 * t..4 * t + 4])
    else Add(Add(SmallSigma1(Schedule(block, t - 2)), Schedule(block, t - 7)),
             Add(SmallSigma0(Schedule(block, t - 15)), Schedule(block, t - 16)))
  }

  /** One iteration of section 6.2.2, step 3. */
  function Round(v: Working, k: bv32, w: bv32): Working {
    var t1 := Add(Add(Add(Add(v.h, BigSigma1(v.e)), Ch(v.e, v.f, v.g)), k), w);
    var t2 := Add(BigSigma0(v.a), Maj(v.a, v.b, v.c));
    Working(Add(t1, t2), v.a, v.b, v.c, Add(v.d, t1), v.e, v.f, v.g)
  }

  function Rounds(v: Working, block: Block, t: nat): Working
    requires t <= 64
  {
    if t == 0 then v else Round(Rounds(v, block, t - 1), Constant(t - 1), Schedule(block, t - 1))
  }

  /** Section 6.2.2, steps 2 to 4: the intermediate hash value after one block. */
  function Compress(h: HashValue, block: Block): HashValue {
    var v := Rounds(Working(h[0], h[1], h[2], h[3], h[4], h[5], h[6], h[7]), block, 64);
    [Add(h[0], v.a), Add(h[1], v.b), Add(h[2], v.c), Add(h[3], v.d),
     Add(h[4], v.e), Add(h[5], v.f), Add(h[6], v.g), Add(h[7], v.h)]
  }

  /** The intermediate hash value after every block of a padded message. */
  function HashBlocks(m: seq<Byte>): HashValue
    requires |m| % 64 == 0
  {
    if |m| == 0 then IV else Compress(HashBlocks(m[..|m| - 64]), m[|m| - 64..])
  }

  /** The number of zero bytes of section 5.1.1: the least k with |m| + 1 + k congruent to 56 modulo 64. */
  function PadZeros(length: nat): (k: nat)
    ensures k < 64
    ensures (length + 1 + k) % 64 == 56
  {
    (55 - length) % 64
  }

  /** Section 5.1.1. The length field is 8|m| for every |m| < 2^61, which is all FIPS 180-4 defines. */
  function Pad(m: seq<Byte>): (p: seq<Byte>)
    ensures |p| % 64 == 0
  {
    var marked, zeros, length := m + [0x80], Zeros(PadZeros(|m|)), Be64(Wrap64(8 * |m|));
    assert |marked + zeros| == |m| + 1 + PadZeros(|m|);
    assert |marked + zeros + length| == |m| + 1 + PadZeros(|m|) + 8;
    marked + zeros + length
  }

  function WordBytes(h: seq<bv32>): (b: seq<Byte>)
    ensures |b| == 4 * |h|
  {
    if h == [] then [] else WordBytes(h[..|h| - 1]) + StoreBe32(h[|h| - 1])
  }

  function Sha256(m: seq<Byte>): Digest {
    WordBytes(HashBlocks(Pad(m)))
  }

  /** The digest under a name that specifications can leave folded. */
  function DigestOf(data: seq<Byte>): Digest {
    Sha256(data)
  }

  predicate Matches(data: seq<Byte>, digest: Digest) {
    DigestOf(data) == digest
  }

  /** Two different inputs with one digest. */
  ghost predicate Collision(x: seq<Byte>, y: seq<Byte>) {
    x != y && Sha256(x) == Sha256(y)
  }
}
