/** Region hashing and sampling as the source runs them. */
module Verifier {
  import opened Bytes
  import opened Arithmetic
  import opened Status
  import opened Text
  import opened Fips180
  import opened Io
  import opened Readback
  import Streaming

  method ReadSide(w: World, side: Side, length: nat, offset: nat) returns (r: Result<seq<Byte>>)
    modifies w
    ensures r == SideRead(w.env, side, old(w.View()), length, offset)
    ensures w.View() == Ticked(old(w.View()))
  {
    if side == SourceSide {
      r := w.ReadSource(length, offset);
    } else {
      r := w.ReadBack(length, offset);
    }
  }

  /** The first block of a region, and the rest. */
  lemma RegionUnfolds(env: Environment, side: Side, phase: Phase, s: Snapshot, length: nat, block: nat,
                      offset: nat, read: seq<Byte>)
    requires offset <= length && 0 < block
    ensures ReadRegion(env, side, phase, s, length, block, offset, read) ==
            if offset == length then (Success(read), s)
            else
              var wanted := Min(length - offset, block);
              match SideRead(env, side, s, wanted, offset)
              case Failure(e) => (Failure(e), Ticked(s))
              case Success(data) =>
                if |data| < wanted then (Failure(IoFailed), Ticked(s))
                else ReadRegion(env, side, phase, Reported(Ticked(s), phase, offset + wanted, length), length, block,
                                offset + wanted, read + data)
  {
  }

  /** Streams a region through the hash. */
  method HashFileRegion(w: World, side: Side, phase: Phase, length: nat, bufferSize: U64)
    returns (r: Result<Digest>, ghost data: Result<seq<Byte>>)
    requires 0 < bufferSize
    modifies w
    ensures (data, w.View()) == HashRegion(w.env, side, phase, old(w.View()), length, bufferSize)
    ensures data.Failure? ==> r == Failure(data.error)
    ensures data.Success? ==> r == Success(Sha256(data.value))
  {
    hide Sha256, SideRead, Streaming.Context.Valid, ReadRegion;
    if RoundUp(bufferSize, SOURCE_ALIGNMENT) == 0 {
      return Failure(TooLarge), Failure(TooLarge);
    }
    var memory := w.Allocate();
    if !memory {
      return Failure(NoMemory), Failure(NoMemory);
    }
    w.Notify(phase, 0, length);
    var ctx := new Streaming.Context();
    ghost var start := w.View();
    var offset := 0;
    while offset < length
      invariant 0 <= offset <= length
      invariant ctx.Valid() && fresh(ctx) && fresh(ctx.state) && fresh(ctx.buffer)
      invariant ReadRegion(w.env, side, phase, w.View(), length, bufferSize, offset, ctx.message)
                == ReadRegion(w.env, side, phase, start, length, bufferSize, 0, [])
    {
      var wanted := Min(length - offset, bufferSize);
      RegionUnfolds(w.env, side, phase, w.View(), length, bufferSize, offset, ctx.message);
      var block := ReadSide(w, side, wanted, offset);
      if block.Failure? {
        return Failure(block.error), Failure(block.error);
      }
      if |block.value| < wanted {
        return Failure(IoFailed), Failure(IoFailed);
      }
      ctx.Update(block.value);
      offset := offset + wanted;
      w.Notify(phase, offset, length);
    }
    RegionUnfolds(w.env, side, phase, w.View(), length, bufferSize, offset, ctx.message);
    data := Success(ctx.message);
    var digest := ctx.Final();
    r := Success(digest);
  }

  /** Folds the first eight digest bytes into a seed. */
  method SeedFromHash(digest: Digest) returns (seed: bv64)
    ensures seed == Seed(digest)
  {
    hide ShiftIn;
    seed := 0;
    for i := 0 to 8
      invariant seed == SeedBits(digest, i)
    {
      seed := ShiftIn(seed, digest[i]);
    }
    if seed == 0 {
      seed := 0xdeadf1a5c0ffee;
    }
  }

  /** One sampled pair of blocks; a short read counts as a mismatch. */
  method CompareBlock(w: World, block: nat, offset: nat) returns (status: Status, mismatches: nat)
    modifies w
    ensures var left := SideRead(w.env, SourceSide, old(w.View()), block, offset);
            var right := SideRead(w.env, TargetSide, Ticked(old(w.View())), block, offset);
            if left.Failure? then status == left.error && mismatches == 0 && w.View() == Ticked(old(w.View()))
            else
              && w.View() == Ticked(Ticked(old(w.View())))
              && (status, mismatches) == if right.Failure? then (right.error, 0)
                                         else if SameBlock(left.value, right.value, block) then (Ok, 0)
                                         else (VerifyMismatch, 1)
  {
    hide SideRead;
    mismatches := 0;
    var left := ReadSide(w, SourceSide, block, offset);
    if left.Failure? {
      return left.error, 0;
    }
    var right := ReadSide(w, TargetSide, block, offset);
    if right.Failure? {
      return right.error, 0;
    }
    if |left.value| != block || |right.value| != block {
      return VerifyMismatch, 1;
    }
    var equal := ConstantTimeEqual(left.value, right.value, block);
    assert left.value[..block] == left.value && right.value[..block] == right.value;
    if equal {
      status := Ok;
    } else {
      status, mismatches := VerifyMismatch, 1;
    }
  }

  /** The offset of one iteration, drawing from the generator from the third one on. */
  method NextOffset(i: nat, seed: bv64, maxOffset: nat, ghost first: bv64) returns (offset: nat, next: bv64)
    requires seed == StateAt(first, Max(i, 2), maxOffset)
    ensures offset == SampleOffset(first, i, maxOffset)
    ensures next == StateAt(first, Max(i + 1, 2), maxOffset)
  {
    hide PrngState, PrngValue;
    next := seed;
    if i == 0 {
      offset := 0;
    } else if i == 1 {
      offset := maxOffset;
    } else if maxOffset == 0 {
      offset := 0;
    } else {
      next := PrngState(seed);
      offset := PrngValue(next) % (maxOffset + 1);
    }
  }

  /** All iterations of a plan. */
  method SampleLoop(w: World, plan: Plan) returns (r: SampleResult)
    requires plan.block <= plan.size
    modifies w
    ensures (r, w.View()) == SampleFrom(w.env, old(w.View()), plan, 0, 0)
  {
    hide SideRead, SameBlock, StateAt, SampleOffset;
    ghost var start := w.View();
    StateStarts(plan.seed, plan.size - plan.block);
    var seed, verified: nat, total := plan.seed, 0, plan.Total();
    for i := 0 to plan.iterations
      invariant seed == StateAt(plan.seed, Max(i, 2), plan.size - plan.block)
      invariant SampleFrom(w.env, w.View(), plan, i, verified) == SampleFrom(w.env, start, plan, 0, 0)
    {
      var offset;
      offset, seed := NextOffset(i, seed, plan.size - plan.block, plan.seed);
      assert offset == plan.Offset(i);
      var status, mismatches := CompareBlock(w, plan.block, offset);
      if status != Ok {
        return SampleResult(status, mismatches, verified);
      }
      verified := verified + plan.block;
      w.Notify(Verify, verified, total);
    }
    r := SampleResult(Ok, 0, verified);
  }

  /** The sampled comparison: first block, last block, then pseudo-random ones. */
  method VerifySamples(w: World, size: nat, digest: Digest, samples: U32) returns (r: SampleResult)
    modifies w
    ensures (r, w.View()) == SampleFiles(w.env, old(w.View()), size, digest, samples)
  {
    hide SampleFrom, Seed;
    var count := if samples == 0 then DEFAULT_SAMPLES else samples;
    var block := Min(size, SAMPLE_BLOCK);
    if block == 0 {
      w.Notify(Verify, 0, 0);
      return SampleResult(Ok, 0, 0);
    }
    var left := w.Allocate();
    var right := w.Allocate();
    if !left || !right {
      return SampleResult(NoMemory, 0, 0);
    }
    var seed := SeedFromHash(digest);
    var plan := Plan(size, block, seed, count + 2);
    w.Notify(Verify, 0, plan.Total());
    r := SampleLoop(w, plan);
  }

  lemma StateStarts(seed: bv64, maxOffset: nat)
    ensures StateAt(seed, 2, maxOffset) == seed
  {
  }
}
