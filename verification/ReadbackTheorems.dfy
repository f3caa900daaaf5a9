/** What a region digest and a passed sampling say about the bytes. */
module ReadbackTheorems {
  import opened Bytes
  import opened Arithmetic
  import opened Status
  import opened Io
  import opened Readback

  lemma ShiftRightKeepsNonzero(x: bv64)
    ensures x != 0 ==> x ^ (x >> 12) != 0
    ensures x != 0 ==> x ^ (x >> 27) != 0
  {
  }

  lemma ShiftLeftKeepsNonzero(x: bv64)
    ensures x != 0 ==> x ^ (x << 25) != 0
  {
  }

  /** The generator never reaches the absorbing state zero. */
  lemma GeneratorStaysNonzero(x: bv64)
    requires x != 0
    ensures PrngState(x) != 0
  {
    var a := x ^ (x >> 12);
    var b := a ^ (a << 25);
    ShiftRightKeepsNonzero(x);
    ShiftLeftKeepsNonzero(a);
    ShiftRightKeepsNonzero(b);
  }

  lemma {:induction false} StatesNonzero(digest: Digest, i: nat, maxOffset: nat)
    ensures StateAt(Seed(digest), i, maxOffset) != 0
  {
    hide SeedBits, PrngState;
    if i > 2 && maxOffset != 0 {
      StatesNonzero(digest, i - 1, maxOffset);
      GeneratorStaysNonzero(StateAt(Seed(digest), i - 1, maxOffset));
    }
  }

  /** Every sampled block lies in the source; the first and the last block are among them. */
  lemma SamplesLieInSource(size: nat, digest: Digest, samples: U32, i: nat)
    requires 0 < size
    ensures var plan := SamplePlan(size, digest, samples);
            && plan.Offset(i) + plan.block <= size && 2 < plan.iterations
            && plan.Offset(0) == 0 && plan.Offset(1) + plan.block == size
  {
    hide PrngState, PrngValue, StateAt, Seed;
  }

  lemma SideReadShape(env: Environment, side: Side, s: Snapshot, length: nat, offset: nat, content: seq<Byte>)
    ensures var r := SideRead(env, side, s, length, offset);
            (r.Failure? ==> r.error != Ok) &&
            (r.Success? ==>
              && |r.value| <= length
              && (Shows(env, side, s.bytes, content) && |r.value| == length && offset <= |content| ==>
                    content[..offset] + r.value <= content))
  {
    var r := SideRead(env, side, s, length, offset);
    if r.Success? && Shows(env, side, s.bytes, content) && |r.value| == length && offset <= |content| {
      assert content[..offset] + r.value == content[..offset + length];
    }
  }

  /** Reading a region changes nothing but the clock and the reports, and returns as many bytes as asked for. */
  lemma {:induction false} RegionFrame(env: Environment, side: Side, phase: Phase, s: Snapshot, length: nat,
                                       block: nat, offset: nat, read: seq<Byte>)
    requires offset <= length && 0 < block && |read| == offset
    ensures var (r, last) := ReadRegion(env, side, phase, s, length, block, offset, read);
            && (r.Success? ==> |r.value| == length) && (r.Failure? ==> r.error != Ok)
            && last.bytes == s.bytes && last.mutations == s.mutations && last.clock >= s.clock
    decreases length - offset
  {
    hide SideRead;
    if offset < length {
      var wanted := Min(length - offset, block);
      var data := SideRead(env, side, s, wanted, offset);
      SideReadShape(env, side, s, wanted, offset, []);
      if data.Success? && |data.value| == wanted {
        RegionFrame(env, side, phase, Reported(Ticked(s), phase, offset + wanted, length), length, block,
                    offset + wanted, read + data.value);
      }
    }
  }

  /** Over stable bytes, the region read is their prefix. */
  lemma {:induction false} RegionIsPrefix(env: Environment, side: Side, phase: Phase, s: Snapshot, length: nat,
                                          block: nat, offset: nat, content: seq<Byte>)
    requires offset <= length && 0 < block && offset <= |content| && Shows(env, side, s.bytes, content)
    ensures var r := ReadRegion(env, side, phase, s, length, block, offset, content[..offset]).0;
            r.Success? ==> length <= |content| && r.value == content[..length]
    decreases length - offset
  {
    hide SideRead, Shows;
    if offset < length {
      var wanted := Min(length - offset, block);
      var data := SideRead(env, side, s, wanted, offset);
      SideReadShape(env, side, s, wanted, offset, content);
      if data.Success? && |data.value| == wanted {
        assert content[..offset] + data.value == content[..offset + wanted];
        SameBytes(env, side, s.bytes, Reported(Ticked(s), phase, offset + wanted, length).bytes, content);
        RegionIsPrefix(env, side, phase, Reported(Ticked(s), phase, offset + wanted, length), length, block,
                       offset + wanted, content);
      }
    }
  }

  lemma SameBytes(env: Environment, side: Side, before: seq<Byte>, after: seq<Byte>, content: seq<Byte>)
    requires Shows(env, side, before, content) && before == after
    ensures Shows(env, side, after, content)
  {
  }

  /** Every tick shows the same bytes on that side. */
  ghost predicate Shows(env: Environment, side: Side, bytes: seq<Byte>, content: seq<Byte>) {
    forall t: nat :: (if side.SourceSide? then env.source(t) else env.readback(t, bytes)) == content
  }

  /** The reads of the j-th pair, in a sampling whose first read is at tick `from`, are complete and equal. */
  ghost predicate PairAgrees(env: Environment, bytes: seq<Byte>, plan: Plan, from: nat, j: nat) {
    var tick := from + 2 * j;
    var left := ReadResult(env.source(tick), env.transfer(tick), plan.block, plan.Offset(j));
    var right := ReadResult(env.readback(tick + 1, bytes), env.transfer(tick + 1), plan.block, plan.Offset(j));
    left.Success? && right.Success? && SameBlock(left.value, right.value, plan.block)
  }

  /** Pairs i and up agree. */
  ghost predicate PairsAgree(env: Environment, bytes: seq<Byte>, plan: Plan, from: nat, i: nat) {
    forall j :: i <= j < plan.iterations ==> PairAgrees(env, bytes, plan, from, j)
  }

  lemma PairsUnfold(env: Environment, bytes: seq<Byte>, plan: Plan, from: nat, i: nat)
    requires i < plan.iterations
    ensures PairsAgree(env, bytes, plan, from, i) <==>
            PairAgrees(env, bytes, plan, from, i) && PairsAgree(env, bytes, plan, from, i + 1)
  {
    hide PairAgrees;
  }

  /**
   In every environment: sampling passes exactly when every pair, as it was read, is complete and
   equal, and then it counts every block.
   */
  lemma {:induction false} SamplingComparesReads(env: Environment, s: Snapshot, plan: Plan, from: nat, i: nat, verified: nat)
    requires i <= plan.iterations && verified == i * plan.block && s.clock == from + 2 * i
    ensures var r := SampleFrom(env, s, plan, i, verified).0;
            && (r.status == Ok <==> PairsAgree(env, s.bytes, plan, from, i))
            && (r.status == Ok ==> r.verified == plan.Total())
    decreases plan.iterations - i
  {
    hide SampleOffset, ReadResult, SameBlock, PairsAgree;
    if i < plan.iterations {
      PairsUnfold(env, s.bytes, plan, from, i);
      ReadErrors(env.source(s.clock), env.transfer(s.clock), plan.block, plan.Offset(i));
      ReadErrors(env.readback(s.clock + 1, s.bytes), env.transfer(s.clock + 1), plan.block, plan.Offset(i));
      var next := Reported(Ticked(Ticked(s)), Verify, verified + plan.block, plan.Total());
      assert (i + 1) * plan.block == i * plan.block + plan.block;
      SamplingComparesReads(env, next, plan, from, i + 1, verified + plan.block);
    } else {
      NoPairs(env, s.bytes, plan, from);
    }
  }

  lemma ReadErrors(content: seq<Byte>, transfer: Transfer, length: nat, offset: nat)
    ensures var r := ReadResult(content, transfer, length, offset); r.Failure? ==> r.error != Ok
  {
  }

  lemma NoPairs(env: Environment, bytes: seq<Byte>, plan: Plan, from: nat)
    ensures PairsAgree(env, bytes, plan, from, plan.iterations)
  {
  }

  /**
   A whole sampling in every environment: it passes exactly when the source is empty or both buffers
   are there and all pairs agree, and it counts no byte exactly when the source is empty.
   */
  lemma SampleFilesDecide(env: Environment, s: Snapshot, size: nat, digest: Digest, samples: U32)
    ensures var r, plan := SampleFiles(env, s, size, digest, samples).0, SamplePlan(size, digest, samples);
            && (r.status == Ok <==>
                  size == 0 || (env.memory(s.clock) && env.memory(s.clock + 1)
                                && PairsAgree(env, s.bytes, plan, s.clock + 2, 0)))
            && (r.status == Ok ==> r.verified == plan.Total() && (r.verified == 0 <==> size == 0))
  {
    hide SampleFrom, Seed, PairsAgree;
    var plan := SamplePlan(size, digest, samples);
    SamplingComparesReads(env, Reported(Ticked(Ticked(s)), Verify, 0, plan.Total()), plan, s.clock + 2, 0, 0);
    if size > 0 {
      Monotone(plan.block, 1, plan.iterations);
    }
  }

  /** The j-th sampled block is whole and the same on both sides. */
  ghost predicate SampleAgrees(plan: Plan, source: seq<Byte>, target: seq<Byte>, j: nat) {
    SameBlock(Window(source, plan.Offset(j), plan.block), Window(target, plan.Offset(j), plan.block), plan.block)
  }

  lemma BlockWasCompared(env: Environment, bytes: seq<Byte>, plan: Plan, from: nat, j: nat,
                         source: seq<Byte>, target: seq<Byte>)
    requires Shows(env, SourceSide, bytes, source) && Shows(env, TargetSide, bytes, target)
    ensures PairAgrees(env, bytes, plan, from, j) ==> SampleAgrees(plan, source, target, j)
    ensures Generous(env) && plan.block <= SAMPLE_BLOCK && SampleAgrees(plan, source, target, j) ==>
              PairAgrees(env, bytes, plan, from, j)
  {
    hide SampleOffset;
    if Generous(env) {
      assert env.transfer(from + 2 * j).Moved? && env.transfer(from + 2 * j + 1).Moved?;
    }
  }

  /** No transfer fails or stops short of a sample block, and memory never runs out. */
  ghost predicate Generous(env: Environment) {
    forall t: nat :: env.memory(t) && env.transfer(t).Moved? && env.transfer(t).limit >= SAMPLE_BLOCK
  }

  /** Over sides that do not change meanwhile, passing compares the sampled blocks; without faults it decides them. */
  lemma SamplingDecides(env: Environment, s: Snapshot, plan: Plan, source: seq<Byte>, target: seq<Byte>)
    requires Shows(env, SourceSide, s.bytes, source) && Shows(env, TargetSide, s.bytes, target)
    ensures SampleFrom(env, s, plan, 0, 0).0.status == Ok ==>
              forall j :: 0 <= j < plan.iterations ==> SampleAgrees(plan, source, target, j)
    ensures plan.block <= SAMPLE_BLOCK && Generous(env)
            && (forall j :: 0 <= j < plan.iterations ==> SampleAgrees(plan, source, target, j)) ==>
              SampleFrom(env, s, plan, 0, 0).0.status == Ok
  {
    hide SampleFrom, PairAgrees, SampleAgrees, Generous, Shows;
    SamplingComparesReads(env, s, plan, s.clock, 0, 0);
    forall j | 0 <= j < plan.iterations
      ensures PairAgrees(env, s.bytes, plan, s.clock, j) ==> SampleAgrees(plan, source, target, j)
      ensures plan.block <= SAMPLE_BLOCK && Generous(env) && SampleAgrees(plan, source, target, j) ==>
                PairAgrees(env, s.bytes, plan, s.clock, j)
    {
      BlockWasCompared(env, s.bytes, plan, s.clock, j, source, target);
    }
  }

  /** For unchanging sources of up to two blocks, passing means equality of every byte; without faults it decides it. */
  lemma SmallSourcesFullyCompared(env: Environment, s: Snapshot, size: nat, digest: Digest, samples: U32,
                                  source: seq<Byte>, target: seq<Byte>)
    requires 0 < size <= 2 * SAMPLE_BLOCK
    requires Shows(env, SourceSide, s.bytes, source) && Shows(env, TargetSide, s.bytes, target)
    ensures SampleFiles(env, s, size, digest, samples).0.status == Ok ==>
              size <= |source| && size <= |target| && source[..size] == target[..size]
    ensures Generous(env) && size <= |source| && size <= |target| && source[..size] == target[..size] ==>
              SampleFiles(env, s, size, digest, samples).0.status == Ok
  {
    hide SampleOffset, Seed, SampleFrom, SampleAgrees, Shows;
    var plan := SamplePlan(size, digest, samples);
    SamplesLieInSource(size, digest, samples, 0);
    SamplingDecides(env, Reported(Ticked(Ticked(s)), Verify, 0, plan.Total()), plan, source, target);
    if SampleFiles(env, s, size, digest, samples).0.status == Ok {
      EndsAgree(plan, source, target);
      TwoBlocksCover(source, target, size, plan.block);
    }
    if size <= |source| && size <= |target| && source[..size] == target[..size] {
      forall j | 0 <= j < plan.iterations
        ensures SampleAgrees(plan, source, target, j)
      {
        SamplesLieInSource(size, digest, samples, j);
        SampleInPrefix(plan, source, target, size, j);
      }
    }
  }

  lemma EndsAgree(plan: Plan, source: seq<Byte>, target: seq<Byte>)
    requires plan.Offset(0) == 0 && 2 < plan.iterations && 0 < plan.block <= plan.size
    requires plan.Offset(1) + plan.block == plan.size
    requires SampleAgrees(plan, source, target, 0) && SampleAgrees(plan, source, target, 1)
    ensures plan.size <= |source| && plan.size <= |target|
    ensures Window(source, 0, plan.block) == Window(target, 0, plan.block)
    ensures Window(source, plan.size - plan.block, plan.block) == Window(target, plan.size - plan.block, plan.block)
  {
    hide SampleOffset;
  }

  lemma SampleInPrefix(plan: Plan, source: seq<Byte>, target: seq<Byte>, size: nat, j: nat)
    requires size <= |source| && size <= |target| && source[..size] == target[..size]
    requires plan.Offset(j) + plan.block <= size
    ensures SampleAgrees(plan, source, target, j)
  {
    hide SampleOffset;
    WindowsAgree(source, target, size, plan.Offset(j), plan.block);
  }

  lemma WindowsAgree(x: seq<Byte>, y: seq<Byte>, size: nat, offset: nat, block: nat)
    requires size <= |x| && size <= |y| && offset + block <= size && x[..size] == y[..size]
    ensures SameBlock(Window(x, offset, block), Window(y, offset, block), block)
  {
    forall i | 0 <= i < block
      ensures Window(x, offset, block)[i] == Window(y, offset, block)[i]
    {
      assert x[offset + i] == x[..size][offset + i] == y[..size][offset + i];
    }
  }

  lemma TwoBlocksCover(x: seq<Byte>, y: seq<Byte>, size: nat, block: nat)
    requires size <= |x| && size <= |y| && block <= size <= 2 * block
    requires Window(x, 0, block) == Window(y, 0, block)
    requires Window(x, size - block, block) == Window(y, size - block, block)
    ensures x[..size] == y[..size]
  {
    forall i | 0 <= i < size
      ensures x[i] == y[i]
    {
      if i < block {
        assert x[i] == Window(x, 0, block)[i] == Window(y, 0, block)[i];
      } else {
        var j := i - (size - block);
        assert x[i] == Window(x, size - block, block)[j] == Window(y, size - block, block)[j];
      }
    }
  }
}
