/** Reading a region through a hash, and the sampled comparison of source and target. */
module Readback {
  import opened Bytes
  import opened Arithmetic
  import opened Status
  import opened Io

  const SAMPLE_BLOCK := 1024 * 1024
  const DEFAULT_SAMPLES := 64
  const SOURCE_ALIGNMENT := 512

  datatype Side = SourceSide | TargetSide

  function SideRead(env: Environment, side: Side, s: Snapshot, length: nat, offset: nat): Result<seq<Byte>> {
    ReadResult(if side.SourceSide? then env.source(s.clock) else env.readback(s.clock, s.bytes),
               env.transfer(s.clock), length, offset)
  }

  function Ticked(s: Snapshot): Snapshot {
    s.(clock := s.clock + 1)
  }

  function Reported(s: Snapshot, phase: Phase, completed: nat, total: nat): Snapshot {
    s.(events := s.events + [Event(phase, completed, total)])
  }

  /** Reads [offset, length) block by block, reporting after each; `read` is what came before. */
  function ReadRegion(env: Environment, side: Side, phase: Phase, s: Snapshot, length: nat, block: nat,
                      offset: nat, read: seq<Byte>): (Result<seq<Byte>>, Snapshot)
    requires offset <= length && 0 < block
    decreases length - offset
  {
    if offset == length then (Success(read), s)
    else
      var wanted := Min(length - offset, block);
      match SideRead(env, side, s, wanted, offset)
      case Failure(e) => (Failure(e), Ticked(s))
      case Success(data) =>
        if |data| < wanted then (Failure(IoFailed), Ticked(s))
        else
          ReadRegion(env, side, phase, Reported(Ticked(s), phase, offset + wanted, length), length, block,
                     offset + wanted, read + data)
  }

  /** Buffer, first report, then the region; the digest is that of the bytes returned. */
  function HashRegion(env: Environment, side: Side, phase: Phase, s: Snapshot, length: nat, block: U64)
    : (Result<seq<Byte>>, Snapshot)
    requires 0 < block
  {
    if RoundUp(block, SOURCE_ALIGNMENT) == 0 then (Failure(TooLarge), s)
    else if !env.memory(s.clock) then (Failure(NoMemory), Ticked(s))
    else ReadRegion(env, side, phase, Reported(Ticked(s), phase, 0, length), length, block, 0, [])
  }

  // Sampling.

  /** One step of the xorshift generator: the next state and the number drawn. */
  function PrngState(x: bv64): bv64 {
    MixDown27(MixUp25(MixDown12(x)))
  }

  function MixDown12(x: bv64): bv64 {
    x ^ (x >> 12)
  }

  function MixUp25(x: bv64): bv64 {
    x ^ (x << 25)
  }

  function MixDown27(x: bv64): bv64 {
    x ^ (x >> 27)
  }

  function PrngValue(state: bv64): U64 {
    Scrambled(state) as int
  }

  function Scrambled(state: bv64): bv64 {
    state * 2685821657736338717
  }

  function ShiftIn(seed: bv64, byte: Byte): bv64 {
    ShiftInBits(seed, ByteBits(byte))
  }

  function ByteBits(byte: Byte): bv64 {
    byte as bv64
  }

  function ShiftInBits(seed: bv64, bits: bv64): bv64 {
    (seed << 8) | bits
  }

  /** The first eight digest bytes, big-endian. */
  function SeedBits(digest: Digest, n: nat): bv64
    requires n <= 8
  {
    if n == 0 then 0 else ShiftIn(SeedBits(digest, n - 1), digest[n - 1])
  }

  function Seed(digest: Digest): bv64 {
    if SeedBits(digest, 8) != 0 then SeedBits(digest, 8) else 0xdeadf1a5c0ffee
  }

  /** The generator state before iteration i. */
  function StateAt(seed: bv64, i: nat, maxOffset: nat): bv64 {
    if i <= 2 || maxOffset == 0 then seed else PrngState(StateAt(seed, i - 1, maxOffset))
  }

  /** The block offset of iteration i: the first block, the last one, then random ones. */
  function SampleOffset(seed: bv64, i: nat, maxOffset: nat): nat {
    if i == 0 then 0
    else if i == 1 then maxOffset
    else if maxOffset == 0 then 0
    else PrngValue(PrngState(StateAt(seed, i, maxOffset))) % (maxOffset + 1)
  }

  /** What sampling was asked for. */
  datatype Plan = Plan(size: nat, block: nat, seed: bv64, iterations: nat) {
    function Offset(i: nat): nat {
      SampleOffset(seed, i, Max(0, size - block))
    }

    function Total(): nat {
      iterations * block
    }
  }

  /** Whether a pair of blocks is complete and equal. */
  predicate SameBlock(left: seq<Byte>, right: seq<Byte>, block: nat) {
    |left| == block && |right| == block && left == right
  }

  datatype SampleResult = SampleResult(status: Status, mismatches: nat, verified: nat)

  /** Iterations i and up, after `verified` bytes. */
  function SampleFrom(env: Environment, s: Snapshot, plan: Plan, i: nat, verified: nat): (SampleResult, Snapshot)
    requires i <= plan.iterations
    decreases plan.iterations - i
  {
    if i == plan.iterations then (SampleResult(Ok, 0, verified), s)
    else
      var left := SideRead(env, SourceSide, s, plan.block, plan.Offset(i));
      var right := SideRead(env, TargetSide, Ticked(s), plan.block, plan.Offset(i));
      if left.Failure? then (SampleResult(left.error, 0, verified), Ticked(s))
      else if right.Failure? then (SampleResult(right.error, 0, verified), Ticked(Ticked(s)))
      else if !SameBlock(left.value, right.value, plan.block)
      then (SampleResult(VerifyMismatch, 1, verified), Ticked(Ticked(s)))
      else
        SampleFrom(env, Reported(Ticked(Ticked(s)), Verify, verified + plan.block, plan.Total()), plan, i + 1,
                   verified + plan.block)
  }

  function SamplePlan(size: nat, digest: Digest, samples: U32): Plan {
    Plan(size, Min(size, SAMPLE_BLOCK), Seed(digest), (if samples == 0 then DEFAULT_SAMPLES else samples) + 2)
  }

  /** The sampled comparison; an empty source has nothing to compare. */
  function SampleFiles(env: Environment, s: Snapshot, size: nat, digest: Digest, samples: U32)
    : (SampleResult, Snapshot)
  {
    var plan := SamplePlan(size, digest, samples);
    if size == 0 then (SampleResult(Ok, 0, 0), Reported(s, Verify, 0, 0))
    else if !env.memory(s.clock) || !env.memory(s.clock + 1) then (SampleResult(NoMemory, 0, 0), Ticked(Ticked(s)))
    else SampleFrom(env, Reported(Ticked(Ticked(s)), Verify, 0, plan.Total()), plan, 0, 0)
  }
}
