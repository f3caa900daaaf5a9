/**
 What sampled verification establishes about the written image when the source may change before it is
 reopened. The evidence documentation lets "success verified" stand for a completed readback. What is
 read back, and what it is compared with, are the reopened source's: it may be empty, shorter or another.
 */
module SampledCoverage {
  import opened Bytes
  import opened Arithmetic
  import opened Status
  import opened Fips180
  import opened Device
  import opened Io
  import opened Targets
  import opened WriteLoop
  import opened WriteTheorems
  import opened Readback
  import opened ReadbackTheorems
  import opened Pipeline
  import opened PipelineTheorems
  import opened BeforeWrite

  /** All planned pairs agree, as they were read from tick `from` on; they lie in the reopened source and cover both its ends. */
  ghost predicate ComparesAll(env: Environment, bytes: seq<Byte>, plan: Plan, from: nat) {
    && PairsAgree(env, bytes, plan, from, 0)
    && 2 < plan.iterations && plan.Offset(0) == 0 && plan.Offset(1) + plan.block == plan.size
    && forall j: nat :: plan.Offset(j) + plan.block <= plan.size
  }

  /** What a run that passed sampling compared: nothing exactly when the reopened source was empty, else every pair. */
  ghost predicate ComparesUnlessEmpty(env: Environment, o: WriteOptions, out: Outcome) {
    && out.trace.reopened.Some? && env.openSource(out.trace.reopened.value.clock).Success?
    && var tick := out.trace.reopened.value.clock;
       var plan := SamplePlan(env.openSource(tick).value, out.result.sourceSha256, o.sampleCount);
       && (out.result.bytesVerified == 0 <==> plan.size == 0)
       && (plan.size != 0 ==>
             ComparesAll(env, out.snapshot.bytes, plan, tick + 4) && out.result.bytesVerified == plan.Total())
  }

  /** Over every run in sample mode that ends in success_verified. */
  lemma NothingComparedExactly(env: Environment, s: Snapshot, options: WriteOptions)
    ensures RunWrite(env, s, options).result.state == SuccessVerified && options.verifyMode == VerifySample ==>
              ComparesUnlessEmpty(env, Defaults(options), RunWrite(env, s, options))
  {
    hide RunWrite, PairsAgree, Seed, SampleOffset, Gated, MediumAgrees, ReportsAgree, WholeImage, Matches;
    RunIsRight(env, s, options);
    var o, out := Defaults(options), RunWrite(env, s, options);
    if out.result.state == SuccessVerified && options.verifyMode == VerifySample {
      var size := env.openSource(out.trace.reopened.value.clock).value;
      if size != 0 {
        forall j: nat
          ensures SamplePlan(size, out.result.sourceSha256, o.sampleCount).Offset(j)
                  + SamplePlan(size, out.result.sourceSha256, o.sampleCount).block <= size
        {
          SamplesLieInSource(size, out.result.sourceSha256, o.sampleCount, j);
        }
        SamplesLieInSource(size, out.result.sourceSha256, o.sampleCount, 0);
      }
    }
  }

  /** What a passed sampling is about: the size the source had when it was reopened, and where the pairs were read. */
  function Sampling(env: Environment, o: WriteOptions, out: Outcome): (Plan, nat) {
    var tick := if out.trace.reopened.Some? then out.trace.reopened.value.clock else 0;
    var size := if env.openSource(tick).Success? then env.openSource(tick).value else 0;
    (SamplePlan(size, out.result.sourceSha256, o.sampleCount), tick + 4)
  }

  /** The compared blocks are blocks of the image that was written, and reach its last byte. */
  ghost predicate CoversImage(plan: Plan, size: nat) {
    && (forall j: nat :: j < plan.iterations ==> plan.Offset(j) + plan.block <= size)
    && exists j: nat :: j < plan.iterations && plan.Offset(j) + plan.block == size
  }

  /** A plan made for one size covers an image of another exactly when the sizes are equal. */
  lemma PlanCoversExactly(size: nat, digest: Digest, samples: U32, written: nat)
    requires 0 < written
    ensures CoversImage(SamplePlan(size, digest, samples), written) <==> size == written
  {
    hide SampleOffset, Seed;
    var plan := SamplePlan(size, digest, samples);
    if size == 0 {
      forall j: nat
        ensures plan.Offset(j) + plan.block == 0
      {
        NothingToSample(plan, j);
      }
    } else {
      forall j: nat
        ensures plan.Offset(j) + plan.block <= size
      {
        SamplesLieInSource(size, digest, samples, j);
      }
      SamplesLieInSource(size, digest, samples, 1);
    }
  }

  lemma NothingToSample(plan: Plan, j: nat)
    requires plan.size == 0 && plan.block == 0
    ensures plan.Offset(j) == 0
  {
  }

  /**
   Over every sampled run that ends in success_verified: the compared blocks are those of the written
   image and reach its last byte exactly when the reopened source has the size of the image.
   */
  lemma ImageCoveredExactly(env: Environment, s: Snapshot, options: WriteOptions)
    ensures var out := RunWrite(env, s, options);
            out.result.state == SuccessVerified && options.verifyMode == VerifySample ==>
              var (plan, from) := Sampling(env, Defaults(options), out);
              && (plan.size != 0 ==> PairsAgree(env, out.snapshot.bytes, plan, from, 0))
              && (CoversImage(plan, out.result.sourceSize) <==> plan.size == out.result.sourceSize)
  {
    hide RunWrite, PairsAgree, Seed, SampleOffset, Gated, ReportsAgree, WholeImage, Matches, Overlay, CoversImage, Loop;
    RunIsRight(env, s, options);
    var o, out := Defaults(options), RunWrite(env, s, options);
    if out.result.state == SuccessVerified && options.verifyMode == VerifySample {
      PlanCoversExactly(Sampling(env, o, out).0.size, out.result.sourceSha256, o.sampleCount, out.result.sourceSize);
    }
  }

  /** The j-th block as the source showed it is the written image's. */
  ghost predicate SourceShows(env: Environment, plan: Plan, from: nat, image: seq<Byte>, j: nat) {
    ReadResult(env.source(from + 2 * j), env.transfer(from + 2 * j), plan.block, plan.Offset(j))
    == Success(Window(image, plan.Offset(j), plan.block))
  }

  /** The j-th block as the medium read back is the written image's. */
  ghost predicate MediumShows(env: Environment, bytes: seq<Byte>, plan: Plan, from: nat, image: seq<Byte>, j: nat) {
    ReadResult(env.readback(from + 2 * j + 1, bytes), env.transfer(from + 2 * j + 1), plan.block, plan.Offset(j))
    == Success(Window(image, plan.Offset(j), plan.block))
  }

  /**
   What a passed sampling says about the written image: a block read back is the image's exactly when
   the reopened source still showed the image there.
   */
  lemma VouchesExactly(env: Environment, s: Snapshot, options: WriteOptions, j: nat)
    ensures var out := RunWrite(env, s, options);
            out.result.state == SuccessVerified && options.verifyMode == VerifySample ==>
              var (plan, from) := Sampling(env, Defaults(options), out);
              0 < plan.size && j < plan.iterations ==>
                (MediumShows(env, out.snapshot.bytes, plan, from, out.trace.streamed, j) <==>
                 SourceShows(env, plan, from, out.trace.streamed, j))
  {
    hide RunWrite, Seed, SampleOffset, Gated, ReportsAgree, MediumAgrees, WholeImage, Matches, ReadResult, Window, Loop;
    RunIsRight(env, s, options);
    var o, out := Defaults(options), RunWrite(env, s, options);
    if out.result.state == SuccessVerified && options.verifyMode == VerifySample {
      var (plan, from) := Sampling(env, o, out);
      assert 0 < plan.size && j < plan.iterations ==> PairAgrees(env, out.snapshot.bytes, plan, from, j);
    }
  }

  /** A run streams an image that never changes as it is. */
  lemma UnchangingImageIsStreamed(env: Environment, s: Snapshot, options: WriteOptions, content: seq<Byte>)
    requires forall t: nat :: env.source(t) == content
    ensures var out := RunWrite(env, s, options);
            out.status == Ok ==>
              out.result.sourceSize <= |content| && out.trace.streamed == content[..out.result.sourceSize]
  {
    hide RunWrite, Gated, ReportsAgree, WholeImage, Matches, Loop, Sampled, EndingsAgree, Overlay, RoundUp;
    RunIsRight(env, s, options);
    var out := RunWrite(env, s, options);
    if out.status == Ok {
      StableSourceIsStreamed(env, out.trace.job.value, LoopState(out.trace.start, 0, [], 0), content);
    }
  }

  /**
   Over an unchanging image and an unchanging readback, for images of up to two blocks: a sampled run that
   ends in success_verified has read back the image byte for byte, if the reopened source has its size.
   */
  lemma SmallImagesAreReadBack(env: Environment, s: Snapshot, options: WriteOptions, content: seq<Byte>,
                               target: seq<Byte>)
    requires Shows(env, SourceSide, RunWrite(env, s, options).snapshot.bytes, content)
    requires Shows(env, TargetSide, RunWrite(env, s, options).snapshot.bytes, target)
    ensures var out := RunWrite(env, s, options);
            out.result.state == SuccessVerified && options.verifyMode == VerifySample
            && Sampling(env, Defaults(options), out).0.size == out.result.sourceSize <= 2 * SAMPLE_BLOCK ==>
              out.result.sourceSize <= |target| && target[..out.result.sourceSize] == out.trace.streamed
  {
    hide RunWrite, Seed, SampleOffset, Gated, ReportsAgree, WholeImage, Matches, ReadResult, Window, Loop, Overlay,
         SampleAgrees, PairAgrees, RoundUp;
    RunIsRight(env, s, options);
    var o, out := Defaults(options), RunWrite(env, s, options);
    var (plan, from) := Sampling(env, o, out);
    if out.result.state == SuccessVerified && options.verifyMode == VerifySample
       && plan.size == out.result.sourceSize <= 2 * SAMPLE_BLOCK {
      UnchangingImageIsStreamed(env, s, options, content);
      SamplesLieInSource(plan.size, out.result.sourceSha256, o.sampleCount, 0);
      BlockWasCompared(env, out.snapshot.bytes, plan, from, 0, content, target);
      BlockWasCompared(env, out.snapshot.bytes, plan, from, 1, content, target);
      EndsAgree(plan, content, target);
      TwoBlocksCover(content, target, plan.size, plan.block);
    }
  }

  // Verified runs over a medium that reads back wrong: the image has other bytes or another size when it is reopened.

  const SAMPLED := ONE_TRY.(verifyMode := VerifySample)

  /** The image is [7, 9] until verification, and then has `size` bytes of `later`; the medium reads back [7, 1]. */
  function Changed(size: nat, later: seq<Byte>): Environment
    requires size <= 2
  {
    Environment(
      openSource := t => Success(if t == 0 then 2 else size),
      source := t => if t < 10 then [7, 9] else later,
      inspect := t => Success(NAMELESS),
      openTarget := t => Ok,
      resize := t => Ok,
      flush := t => Ok,
      transfer := t => Moved(2),
      openReadback := t => Success(2),
      readback := (t, bytes) => [7, 1],
      memory := t => true)
  }

  /** Those bytes are the ones the medium reads back. */
  predicate Fools(size: nat, later: seq<Byte>) {
    size <= 2 && size <= |later| && later[..size] == [7, 1][..size]
  }

  /** Success over the written image, with three blocks of that size compared. */
  predicate Verified(out: Outcome, size: nat) {
    && out.status == Ok && out.result.state == SuccessVerified && out.result.bytesVerified == 3 * size
    && out.snapshot.bytes == [7, 9]
  }

  lemma ChangedHash(size: nat, later: seq<Byte>, events: seq<Event>)
    requires size <= 2
    ensures HashRegion(Changed(size, later), SourceSide, HashSource, Snapshot(2, [0, 0], 0, events), 2, 4096)
            == (Success([7, 9]), Snapshot(4, [0, 0], 0, events + [Event(HashSource, 0, 2)] + [Event(HashSource, 2, 2)]))
  {
    var env := Changed(size, later);
    assert RoundUp(4096, SOURCE_ALIGNMENT) == 4096;
    var s := Reported(Snapshot(3, [0, 0], 0, events), HashSource, 0, 2);
    assert Window([7, 9], 0, 2) == [7, 9] && [] + [7, 9] == [7, 9];
    assert SideRead(env, SourceSide, s, 2, 0) == Success([7, 9]);
    var next := Reported(Ticked(s), HashSource, 2, 2);
    assert ReadRegion(env, SourceSide, HashSource, next, 2, 4096, 2, [7, 9]) == (Success([7, 9]), next);
  }

  lemma ChangedChunk(size: nat, later: seq<Byte>, events: seq<Event>)
    requires size <= 2
    ensures var st := LoopState(Snapshot(7, [0, 0], 0, events), 0, [], 0);
            var (status, last) := Loop(Changed(size, later), Job(2, 4096, false, 512, 1), st);
            && status == Ok && last.offset == 2 && last.streamed == [7, 9]
            && last.snapshot.bytes == [7, 9] && last.snapshot.clock == 9
  {
    var env, job := Changed(size, later), Job(2, 4096, false, 512, 1);
    var data := [7, 9];
    assert Window(data, 0, 2) == data && data + Zeros(0) == data && data[..2] == data && [] + data == data;
    assert Overlay([0, 0], 0, data) == data;
    var start := Snapshot(8, [0, 0], 0, events);
    assert AttemptSucceeds(env, job, data, 0, start);
    assert AttemptOnce(env, job, data, 0, start) == Snapshot(9, data, 1, events);
  }

  /** The sampling behind the reopened files, from tick 12 on. */
  lemma ChangedSamples(size: nat, later: seq<Byte>, s: Snapshot, digest: Digest)
    requires Fools(size, later) && s.clock == 12
    ensures var (r, last) := SampleFiles(Changed(size, later), s, size, digest, 1);
            r.status == Ok && r.verified == 3 * size && r.mismatches == 0 && last.bytes == s.bytes
  {
    hide Seed, SampleFrom, SampleOffset;
    var env, plan := Changed(size, later), SamplePlan(size, digest, 1);
    forall j | 0 <= j < plan.iterations
      ensures PairAgrees(env, s.bytes, plan, 14, j)
    {
      OneBlock(plan, j);
      assert Window(later, 0, size) == later[..size] && Window([7, 1], 0, size) == [7, 1][..size];
    }
    SampleFilesDecide(env, s, size, digest, 1);
    if size > 0 {
      SampledQuietly(env, Reported(Ticked(Ticked(s)), Verify, 0, plan.Total()), plan, 0, 0);
    }
  }

  lemma OneBlock(plan: Plan, j: nat)
    requires plan.block == plan.size
    ensures plan.Offset(j) == 0
  {
  }

  lemma {:induction false} SampledQuietly(env: Environment, s: Snapshot, plan: Plan, i: nat, verified: nat)
    requires i <= plan.iterations
    ensures var (r, last) := SampleFrom(env, s, plan, i, verified);
            last.bytes == s.bytes && (r.status == Ok ==> r.mismatches == 0)
    decreases plan.iterations - i
  {
    hide SampleOffset, SideRead, SameBlock;
    if i < plan.iterations {
      SampledQuietly(env, Reported(Ticked(Ticked(s)), Verify, verified + plan.block, plan.Total()), plan, i + 1,
                     verified + plan.block);
    }
  }

  /** From the open on. */
  lemma ChangedFromOpen(size: nat, later: seq<Byte>, s: Snapshot, r: WriteResult, t: Trace)
    requires Fools(size, later) && s == Snapshot(4, [0, 0], 0, s.events) && r.sourceSize == 2
    ensures Matches([7, 9], r.sourceSha256) ==> Verified(Opening(Changed(size, later), s, SAMPLED, r, t, NAMELESS), size)
  {
    hide Loop, Token, Matches, SampleFiles;
    var env, events := Changed(size, later), s.events;
    assert OpenResult(env, 4, Token(NAMELESS), SAMPLED) == Success(OpenFile(false, 2, 512));
    assert RoundUp(4096, 4096) == 4096;
    ChangedChunk(size, later, events + [Event(Write, 0, 2)]);
    var st := LoopState(Snapshot(7, [0, 0], 0, events + [Event(Write, 0, 2)]), 0, [], 0);
    var last := Loop(env, Job(2, 4096, false, 512, 1), st).1;
    var flushed := Reported(Ticked(Reported(last.snapshot, Flush, 0, 1)), Flush, 1, 1);
    ChangedSamples(size, later, Ticked(Ticked(flushed)), r.sourceSha256);
  }

  /** Runs end in success_verified over a medium that reads back wrong, whatever was made of the image meanwhile. */
  lemma VerifiedOverWrongMedium(size: nat, later: seq<Byte>)
    requires Fools(size, later)
    ensures Verified(RunWrite(Changed(size, later), BLANK, SAMPLED), size)
    ensures forall t: nat :: Changed(size, later).readback(t, [7, 9]) != [7, 9]
  {
    hide Opening, HashRegion, Sha256, Token;
    var events := [] + [Event(Prepare, 0, 1)] + [Event(Prepare, 1, 1)];
    ChangedHash(size, later, events);
    var next := HashRegion(Changed(size, later), SourceSide, HashSource, Snapshot(2, [0, 0], 0, events), 2, 4096).1;
    var r := NO_RESULT.(sourceSize := 2, sourceSha256 := DigestOf([7, 9]));
    ChangedFromOpen(size, later, next, r, Trace(None, BLANK.bytes, BLANK, None, [], None, None, None));
  }

  /** Emptied: no byte compared. */
  lemma VerifiedWithoutComparing()
    ensures Verified(RunWrite(Changed(0, [7, 9]), BLANK, SAMPLED), 0)
  {
    hide RunWrite, Changed;
    VerifiedOverWrongMedium(0, [7, 9]);
  }

  /** Shrunken to its first byte: the second is never compared. */
  lemma VerifiedInPart()
    ensures Verified(RunWrite(Changed(1, [7, 9]), BLANK, SAMPLED), 1)
  {
    hide RunWrite, Changed;
    assert [7, 9][..1] == [7, 1][..1];
    VerifiedOverWrongMedium(1, [7, 9]);
  }

  /** Replaced by what the medium reads back, at its full size: every byte is compared, with another image. */
  lemma VerifiedAgainstAnother()
    ensures Verified(RunWrite(Changed(2, [7, 1]), BLANK, SAMPLED), 2)
  {
    hide RunWrite, Changed;
    VerifiedOverWrongMedium(2, [7, 1]);
  }
}
