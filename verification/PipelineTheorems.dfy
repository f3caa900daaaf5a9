/** What a finished run says, over every environment. */
module PipelineTheorems {
  import opened Bytes
  import opened Arithmetic
  import opened Status
  import opened Fips180
  import opened Device
  import opened Io
  import opened Targets
  import opened WriteLoop
  import opened WriteTheorems
  import opened Readback
  import opened ReadbackTheorems
  import opened Pipeline
  import opened Progress

  /** The states a run may end in, and what each implies. */
  ghost predicate StatesAgree(o: WriteOptions, out: Outcome) {
    var state := out.result.state;
    && (out.status == Ok <==> state == SuccessVerified || state == SuccessUnverified)
    && (state == SuccessVerified <==> out.status == Ok && o.verifyMode != VerifyNone)
    && (state == FailedBeforeWrite ==> out.result.bytesWritten == 0)
    && (state == FailedPartialMedia ==> 0 < out.result.bytesWritten && !out.trace.Flushed())
    && (state == VerificationFailed ==> o.verifyMode != VerifyNone)
    && (state == VerificationFailed || out.status == Ok ==>
          out.trace.Flushed() && out.result.bytesWritten == out.result.sourceSize)
    && state != PlanBreachPartialMedia
  }

  /** The medium holds the completed chunks as streamed, and nothing outside the source extent changed. */
  ghost predicate MediumAgrees(env: Environment, out: Outcome) {
    var bytes, written := out.snapshot.bytes, out.result.bytesWritten;
    match out.trace.job
    case None => bytes == out.trace.base && written == 0
    case Some(job) =>
      && job.Valid() && job.size == out.result.sourceSize
      && ChangedOnlyIn(out.trace.base, bytes, 0, job.Extent())
      && written <= |bytes| && written <= |out.trace.streamed|
      && bytes[..written] == out.trace.streamed[..written]
      && (out.result.state == FailedBeforeWrite ==>
            bytes == Overlay(out.trace.base, 0, Residue(env, job, out.trace.start)))
  }

  /** The medium after a completed loop: the streamed bytes, a device's last sector padded, over the old medium. */
  function WholeImage(base: seq<Byte>, job: Job, streamed: seq<Byte>): seq<Byte>
    requires job.Valid()
  {
    Overlay(base, 0, streamed + Zeros(Max(0, job.Extent() - job.size)))
  }

  /**
   What a passed sampling that began at `tick` compared: for the size the reopened source had, every
   planned pair of blocks as it was read, first and last block included; and nothing if it was empty.
   */
  ghost predicate Sampled(env: Environment, bytes: seq<Byte>, tick: nat, digest: Digest, samples: U32, verified: nat) {
    && env.openSource(tick).Success?
    && var size := env.openSource(tick).value;
       var plan := SamplePlan(size, digest, samples);
       && verified == plan.Total() && (verified == 0 <==> size == 0)
       && (size > 0 ==> PairsAgree(env, bytes, plan, tick + 4, 0))
  }

  /** A success is about bytes that all have the digest of the planning pass. */
  ghost predicate ContentAgrees(env: Environment, o: WriteOptions, out: Outcome) {
    out.status == Ok ==>
      && out.trace.job.Some? && out.trace.job.value.Valid()
      && |out.trace.streamed| == out.result.sourceSize
      && Matches(out.trace.streamed, out.result.sourceSha256)
      && out.snapshot.bytes == WholeImage(out.trace.base, out.trace.job.value, out.trace.streamed)
      && (o.verifyMode == VerifyFull ==>
            && out.trace.readback.Some? && Matches(out.trace.readback.value, out.result.sourceSha256)
            && out.result.bytesVerified == |out.trace.readback.value|
            && out.result.targetSha256 == out.result.sourceSha256)
      && (o.verifyMode == VerifySample ==>
            && out.trace.reopened.Some?
            && Sampled(env, out.snapshot.bytes, out.trace.reopened.value.clock, out.result.sourceSha256, o.sampleCount,
                       out.result.bytesVerified))
      && (o.verifyMode != VerifyNone ==> out.result.mismatches == 0)
  }

  /** The bytes that passed, and their count, are those of the loop from where it started. */
  ghost predicate LoopRan(env: Environment, written: nat, retries: nat, t: Trace) {
    t.job.Some? ==>
      && t.job.value.Valid()
      && var last := Loop(env, t.job.value, LoopState(t.start, 0, [], 0)).1;
         t.streamed == last.streamed && written == last.offset && retries == last.retries
  }

  /** The reopened image and medium pass the verification that was asked for. */
  predicate VerifiesAs(env: Environment, o: WriteOptions, out: Outcome)
    requires Defaulted(o)
  {
    o.verifyMode == VerifyNone
    || (out.trace.reopened.Some?
        && VerifyImage(env, out.trace.reopened.value, o, out.result.sourceSha256).status == Ok)
  }

  /** A flush that was asked for happened, after the loop began and before anything was reopened. */
  ghost predicate FlushHappened(env: Environment, t: Trace) {
    t.flush.Some? ==>
      exists tick: nat :: t.start.clock <= tick && env.flush(tick) == t.flush.value
                          && (t.reopened.Some? ==> tick < t.reopened.value.clock)
  }

  /** How a run ends whose loop completed: by the digest of what was streamed, the flush and the verification. */
  ghost predicate EndingsAgree(env: Environment, o: WriteOptions, out: Outcome) {
    && (out.trace.job.Some? && out.result.bytesWritten < out.result.sourceSize ==>
          out.trace.job.value.Valid()
          && out.status == Loop(env, out.trace.job.value, LoopState(out.trace.start, 0, [], 0)).0)
    && (out.trace.job.Some? && out.result.bytesWritten == out.result.sourceSize ==>
      && Defaulted(o)
      && (out.trace.flush.Some? <==> Matches(out.trace.streamed, out.result.sourceSha256))
      && (out.trace.flush.None? ==> out.status == IdentityChanged) && FlushHappened(env, out.trace)
      && (out.trace.flush.Some? && !out.trace.Flushed() ==> out.trace.flush == Some(out.status))
      && (out.trace.Flushed() && o.verifyMode != VerifyNone ==>
            && out.trace.reopened.Some? && out.trace.reopened.value.bytes == out.snapshot.bytes
            && var v := VerifyImage(env, out.trace.reopened.value, o, out.result.sourceSha256);
               && out.trace.readback == v.readback && out.result.bytesVerified == v.verified
               && out.result.mismatches == v.mismatches && out.result.targetSha256 == v.digest
               && (out.status != Ok ==> out.status == v.status))
      && (out.result.state == FailedPartialMedia <==> !out.trace.Flushed())
      && (out.result.state == VerificationFailed <==> out.trace.Flushed() && !VerifiesAs(env, o, out))
      && (out.status == Ok <==> out.trace.Flushed() && VerifiesAs(env, o, out)))
  }

  /** Reports are orderly, and the last phase is reported exactly by successful runs. */
  ghost predicate ReportsAgree(out: Outcome) {
    Orderly(out.snapshot.events) && (out.status == Ok <==> EndsIn(out.snapshot.events, Complete))
  }

  ghost predicate Right(env: Environment, o: WriteOptions, out: Outcome) {
    && StatesAgree(o, out) && MediumAgrees(env, out) && ContentAgrees(env, o, out) && ReportsAgree(out)
    && EndingsAgree(env, o, out) && LoopRan(env, out.result.bytesWritten, out.result.writeRetries, out.trace)
  }

  /** Later phases do not rewrite what earlier ones found. */
  predicate KeepsTrace(t: Trace, out: Outcome) {
    && out.trace.live == t.live
    && (t.job.Some? ==> out.trace.job == t.job && out.trace.base == t.base && out.trace.start == t.start)
  }

  /** Hashing a region reports its phase and touches nothing. */
  lemma HashReports(env: Environment, side: Side, phase: Phase, s: Snapshot, length: nat, block: U64)
    requires 0 < block && Orderly(s.events)
    requires s.events != [] ==> PhaseIndex(s.events[|s.events| - 1].phase) < PhaseIndex(phase)
    ensures var (r, last) := HashRegion(env, side, phase, s, length, block);
            && last.bytes == s.bytes && last.mutations == s.mutations && last.clock >= s.clock
            && (r.Success? ==> |r.value| == length && EndsWith(last.events, phase, length, length))
            && (last.events == s.events || EndsIn(last.events, phase))
            && (r.Failure? ==> r.error != Ok)
  {
    hide ReadRegion, Orderly, RoundUp;
    if RoundUp(block, SOURCE_ALIGNMENT) != 0 && env.memory(s.clock) {
      var start := Reported(Ticked(s), phase, 0, length);
      Append(s.events, Event(phase, 0, length));
      RegionFrame(env, side, phase, start, length, block, 0, []);
      RegionReports(env, side, phase, start, length, block, 0, []);
    }
  }

  lemma FullCheckIsSound(env: Environment, s: Snapshot, size: nat, block: U64, known: Digest)
    requires 0 < block && EndsWith(s.events, Flush, 1, 1)
    ensures var v := FullCheck(env, s, size, block, known);
            && v.snapshot.bytes == s.bytes && v.snapshot.mutations == s.mutations
            && (v.snapshot.events == s.events || EndsIn(v.snapshot.events, Verify))
            && (v.status == Ok ==> v.mismatches == 0 && v.readback.Some?)
            && (v.status == Ok ==> Matches(v.readback.value, known) && v.digest == known)
            && (v.status == Ok ==> v.verified == |v.readback.value|)
  {
    hide HashRegion, Sha256, Orderly;
    HashReports(env, TargetSide, Verify, s, size, block);
    match HashRegion(env, TargetSide, Verify, s, size, block).0
    case Failure(e) => assert e != Ok;
    case Success(bytes) => assert FullCheck(env, s, size, block, known).readback == Some(bytes);
  }

  /** Verification touches nothing, and in full mode accepts only bytes with the known digest. */
  lemma VerificationIsSound(env: Environment, s: Snapshot, o: WriteOptions, known: Digest)
    requires Defaulted(o) && EndsWith(s.events, Flush, 1, 1)
    ensures var v := VerifyImage(env, s, o, known);
            && v.snapshot.bytes == s.bytes && v.snapshot.mutations == s.mutations
            && (v.snapshot.events == s.events || EndsIn(v.snapshot.events, Verify))
            && (v.status == Ok ==> v.mismatches == 0)
            && (v.status == Ok && o.verifyMode == VerifyFull ==>
                  v.readback.Some? && Matches(v.readback.value, known) && v.digest == known
                  && v.verified == |v.readback.value|)
            && (v.status == Ok && o.verifyMode == VerifySample ==>
                  Sampled(env, s.bytes, s.clock, known, o.sampleCount, v.verified))
  {
    hide FullCheck, Matches, Orderly, SampleFiles, PairsAgree, Seed;
    var s2 := Ticked(Ticked(s));
    if env.openSource(s.clock).Success? && env.openReadback(s.clock + 1).Success? {
      var size := env.openSource(s.clock).value;
      FullCheckIsSound(env, s2, size, o.bufferSize, known);
      SamplingReports(env, s2, size, known, o.sampleCount);
      SampleFilesDecide(env, s2, size, known, o.sampleCount);
    }
  }

  lemma SamplingReports(env: Environment, s: Snapshot, size: nat, digest: Digest, samples: U32)
    requires EndsWith(s.events, Flush, 1, 1)
    ensures var (r, last) := SampleFiles(env, s, size, digest, samples);
            && last.bytes == s.bytes && last.mutations == s.mutations
            && (last.events == s.events || EndsIn(last.events, Verify))
            && (r.status == Ok ==> r.mismatches == 0)
  {
    hide SampleFrom, Seed, Orderly;
    var plan := SamplePlan(size, digest, samples);
    Append(s.events, Event(Verify, 0, 0));
    Append(s.events, Event(Verify, 0, plan.Total()));
    SampleReports(env, Reported(Ticked(Ticked(s)), Verify, 0, plan.Total()), plan, 0, 0);
  }

  /** A finished loop's medium and counters, as the later phases find them. */
  ghost predicate Loaded(bytes: seq<Byte>, r: WriteResult, t: Trace) {
    && t.job.Some? && t.job.value.Valid() && t.job.value.size == r.sourceSize == r.bytesWritten == |t.streamed|
    && Matches(t.streamed, r.sourceSha256) && bytes == WholeImage(t.base, t.job.value, t.streamed)
    && r.state == FailedPartialMedia
  }

  lemma LoadedMedium(bytes: seq<Byte>, r: WriteResult, t: Trace)
    requires Loaded(bytes, r, t)
    ensures ChangedOnlyIn(t.base, bytes, 0, t.job.value.Extent()) && |t.streamed| <= |bytes|
    ensures bytes[..|t.streamed|] == t.streamed
  {
    hide Overlay, Matches, ChangedOnlyIn, RoundUp;
    var job := t.job.value;
    ExtentCovers(job);
    OverlayFrame(t.base, t.streamed + Zeros(Max(0, job.Extent() - job.size)), job.Extent(), |t.streamed|);
  }

  lemma VerifyingIsRight(env: Environment, s: Snapshot, o: WriteOptions, r: WriteResult, t: Trace)
    requires Defaulted(o) && Loaded(s.bytes, r, t) && LoopRan(env, r.bytesWritten, r.writeRetries, t) && t.Flushed()
    requires FlushHappened(env, t.(reopened := Some(s))) && t.reopened.None? && EndsWith(s.events, Flush, 1, 1)
    ensures Right(env, o, Verifying(env, s, o, r, t)) && KeepsTrace(t, Verifying(env, s, o, r, t))
  {
    hide VerifyImage, Overlay, Matches, ChangedOnlyIn, Orderly, Sampled, Loop;
    LoadedMedium(s.bytes, r, t);
    assert t.streamed[..|t.streamed|] == t.streamed;
    Append(s.events, Event(Complete, 1, 1));
    if o.verifyMode != VerifyNone {
      VerificationIsSound(env, s, o, r.sourceSha256);
      var v := VerifyImage(env, s, o, r.sourceSha256);
      Append(v.snapshot.events, Event(Complete, 1, 1));
    }
  }

  lemma FlushingIsRight(env: Environment, s: Snapshot, o: WriteOptions, r: WriteResult, t: Trace)
    requires Defaulted(o) && Loaded(s.bytes, r, t) && LoopRan(env, r.bytesWritten, r.writeRetries, t) && t.flush.None?
    requires t.reopened.None? && t.start.clock <= s.clock && EndsWith(s.events, Flush, 0, 1)
    ensures Right(env, o, Flushing(env, s, o, r, t)) && KeepsTrace(t, Flushing(env, s, o, r, t))
  {
    hide Verifying, Overlay, Matches, ChangedOnlyIn, Orderly, Loop;
    LoadedMedium(s.bytes, r, t);
    assert t.streamed[..|t.streamed|] == t.streamed;
    if env.flush(s.clock) == Ok {
      Append(s.events, Event(Flush, 1, 1));
      VerifyingIsRight(env, Reported(Ticked(s), Flush, 1, 1), o, r, t.(flush := Some(Ok)));
    }
  }

  /** The counters and the trace when the loop stops. */
  function AfterLoop(r: WriteResult, last: LoopState): WriteResult {
    r.(bytesWritten := last.offset, writeRetries := last.retries,
       state := if last.offset > 0 then FailedPartialMedia else FailedBeforeWrite)
  }

  /** The loop, as the phases behind it need it. */
  lemma LoopOutcome(env: Environment, s: Snapshot, r: WriteResult, t: Trace, job: Job)
    requires job.Valid() && t.job == Some(job) && s.bytes == t.base
    requires r.sourceSize == job.size && EndsWith(s.events, Write, 0, job.size)
    ensures var (status, last) := Loop(env, job, LoopState(s, 0, [], 0));
            && EndsIn(last.snapshot.events, Write)
            && (status == Ok && Matches(last.streamed, r.sourceSha256) ==>
                  Loaded(last.snapshot.bytes, AfterLoop(r, last), t.(streamed := last.streamed)))
            && ChangedOnlyIn(t.base, last.snapshot.bytes, 0, job.Extent())
            && last.offset <= |last.snapshot.bytes| && last.offset <= |last.streamed|
            && last.snapshot.bytes[..last.offset] == last.streamed[..last.offset]
            && (last.offset == 0 ==> last.snapshot.bytes == Overlay(t.base, 0, Residue(env, job, s)))
            && (status != Ok ==> last.offset < job.size) && (status == Ok ==> last.offset == job.size)
            && s.clock <= last.snapshot.clock
  {
    hide Matches, ChangedOnlyIn, Orderly, Loop, Overlay, Residue;
    if Loop(env, job, LoopState(s, 0, [], 0)).1.offset == 0 {
      FirstChunkResidue(env, job, s);
    }
    var st := LoopState(s, 0, [], 0);
    EmptyOverlay(t.base);
    LoopIsCorrect(env, job, t.base, st);
    LoopReports(env, job, st);
    LoopTakesTime(env, job, st);
    var (status, last) := Loop(env, job, st);
    if status == Ok {
      ExtentCovers(job);
      OverlayFrame(t.base, last.streamed + Zeros(Max(0, job.Extent() - job.size)), job.Extent(), last.offset);
      assert last.streamed[..last.offset] == last.streamed;
    }
  }

  lemma WritingIsRight(env: Environment, s: Snapshot, o: WriteOptions, r: WriteResult, t: Trace, job: Job)
    requires Defaulted(o) && job.Valid() && t.job == Some(job) && t.start == s && s.bytes == t.base && t.flush.None?
    requires t.reopened.None? && r.sourceSize == job.size && EndsWith(s.events, Write, 0, job.size)
    ensures Right(env, o, Writing(env, s, o, r, t, job)) && KeepsTrace(t, Writing(env, s, o, r, t, job))
  {
    hide Flushing, Matches, ChangedOnlyIn, Orderly, Loop, Loaded, WholeImage, Overlay, Residue;
    LoopOutcome(env, s, r, t, job);
    var (status, last) := Loop(env, job, LoopState(s, 0, [], 0));
    if status == Ok && Matches(last.streamed, r.sourceSha256) {
      Append(last.snapshot.events, Event(Flush, 0, 1));
      FlushingIsRight(env, Reported(last.snapshot, Flush, 0, 1), o, AfterLoop(r, last), t.(streamed := last.streamed));
    }
  }

  lemma EmptyOverlay(base: seq<Byte>)
    ensures base == Overlay(base, 0, [] + [])
  {
  }

  /** Before the loop: nothing written yet, and the reports end before the write phase. */
  ghost predicate BeforeLoop(s: Snapshot, r: WriteResult, t: Trace) {
    && s.bytes == t.base && t.job.None? && t.flush.None? && t.reopened.None?
    && r == NO_RESULT.(sourceSize := r.sourceSize, sourceSha256 := r.sourceSha256)
    && Orderly(s.events) && s.events != [] && PhaseIndex(s.events[|s.events| - 1].phase) <= 1
  }

  lemma BufferingIsRight(env: Environment, s: Snapshot, o: WriteOptions, r: WriteResult, t: Trace, file: OpenFile)
    requires Defaulted(o) && 0 < r.sourceSize < 0x8000_0000_0000_0000 && 0 < file.alignment && BeforeLoop(s, r, t)
    ensures Right(env, o, Buffering(env, s, o, r, t, file))
    ensures Buffering(env, s, o, r, t, file).trace.live == t.live
    ensures Buffering(env, s, o, r, t, file).trace.base == t.base
    ensures var out := Buffering(env, s, o, r, t, file);
            out.trace.job.Some? ==> out.trace.job == JobFor(o, r.sourceSize, file)
  {
    hide Writing, RoundUp, Orderly;
    if JobFor(o, r.sourceSize, file).Some? && env.memory(s.clock) {
      var job := JobFor(o, r.sourceSize, file).value;
      Append(s.events, Event(Write, 0, r.sourceSize));
      var start := Reported(Ticked(s), Write, 0, r.sourceSize);
      WritingIsRight(env, start, o, r, t.(job := Some(job), start := start), job);
    }
  }

  /** The medium the loop starts from: the old one, or a regular file made the source's size. */
  predicate BaseIs(o: WriteOptions, size: nat, file: OpenFile, before: seq<Byte>, base: seq<Byte>) {
    base == before || (Resizes(o, size, file) && base == Resized(before, size))
  }

  /** The medium the loop starts from: a longer file that is not to be truncated keeps its length. */
  function LoopBase(o: WriteOptions, size: nat, target: TargetInfo, before: seq<Byte>): seq<Byte> {
    if Resizes(o, size, Opened(target)) then Resized(before, size) else before
  }

  lemma ResizingIsRight(env: Environment, s: Snapshot, o: WriteOptions, r: WriteResult, t: Trace, file: OpenFile)
    requires Defaulted(o) && 0 < r.sourceSize < 0x8000_0000_0000_0000 && 0 < file.alignment && BeforeLoop(s, r, t)
    ensures Right(env, o, Resizing(env, s, o, r, t, file))
    ensures Resizing(env, s, o, r, t, file).trace.live == t.live
    ensures BaseIs(o, r.sourceSize, file, s.bytes, Resizing(env, s, o, r, t, file).trace.base)
    ensures var out := Resizing(env, s, o, r, t, file);
            out.trace.job.Some? ==>
              out.trace.base == if Resizes(o, r.sourceSize, file) then Resized(s.bytes, r.sourceSize) else s.bytes
    ensures var out := Resizing(env, s, o, r, t, file);
            out.trace.job.Some? ==> out.trace.job == JobFor(o, r.sourceSize, file)
  {
    hide Buffering, Resized, Orderly;
    if !Resizes(o, r.sourceSize, file) {
      BufferingIsRight(env, s, o, r, t, file);
    } else if env.resize(s.clock) == Ok {
      var resized := Resized(s.bytes, r.sourceSize);
      BufferingIsRight(env, Ticked(s).(mutations := s.mutations + 1, bytes := resized), o, r, t.(base := resized), file);
    }
  }

  /** The loop runs with the parameters that the options and the opened target give. */
  ghost predicate RunsJob(o: WriteOptions, before: seq<Byte>, out: Outcome) {
    && out.trace.live.Some? && 0 < Opened(out.trace.live.value).alignment
    && 0 < out.result.sourceSize < 0x8000_0000_0000_0000
    && out.trace.job == JobFor(o, out.result.sourceSize, Opened(out.trace.live.value))
    && out.trace.base == LoopBase(o, out.result.sourceSize, out.trace.live.value, before)
  }

  /** A run touches the medium only through an open that the gate let through for the live target. */
  ghost predicate Gated(o: WriteOptions, planned: TargetInfo, s: Snapshot, out: Outcome) {
    out.snapshot.mutations != s.mutations || out.snapshot.bytes != s.bytes || out.trace.job.Some? ==>
      && out.trace.live.Some? && Authorized(out.trace.live.value, o) && Token(out.trace.live.value) == Token(planned)
      && BaseIs(o, out.result.sourceSize, Opened(out.trace.live.value), s.bytes, out.trace.base)
      && (out.trace.job.Some? ==> RunsJob(o, s.bytes, out))
  }

  lemma OpeningIsRight(env: Environment, s: Snapshot, o: WriteOptions, r: WriteResult, t: Trace, planned: TargetInfo)
    requires Defaulted(o) && 0 < r.sourceSize < 0x8000_0000_0000_0000 && BeforeLoop(s, r, t) && t.live.None?
    ensures Right(env, o, Opening(env, s, o, r, t, planned)) && Gated(o, planned, s, Opening(env, s, o, r, t, planned))
  {
    hide Resizing, Token, Orderly, Resized, Authorized, OpenDecision;
    var opening := OpenResult(env, s.clock, Token(planned), o);
    if opening.Success? {
      var live := env.inspect(s.clock).value;
      DecisionMeansAuthorized(live, Token(planned), o);
      var next := s.(clock := s.clock + OpenTicks(env, s.clock, Token(planned), o));
      ResizingIsRight(env, next, o, r, t.(live := Live(env, s.clock)), opening.value);
      SizeIsKept(env, next, o, r, t.(live := Live(env, s.clock)), opening.value);
    } else {
      assert opening.error != Ok;
    }
  }

  lemma SizeIsKept(env: Environment, s: Snapshot, o: WriteOptions, r: WriteResult, t: Trace, file: OpenFile)
    requires Defaulted(o) && 0 < r.sourceSize < 0x8000_0000_0000_0000 && 0 < file.alignment
    ensures Resizing(env, s, o, r, t, file).result.sourceSize == r.sourceSize
  {
    hide VerifyImage, Loop, RoundUp, Matches;
  }

  lemma HashingIsRight(env: Environment, s: Snapshot, o: WriteOptions, r: WriteResult, t: Trace, planned: TargetInfo)
    requires Defaulted(o) && 0 < r.sourceSize < 0x8000_0000_0000_0000 && t.live.None?
    requires BeforeLoop(s, r, t) && EndsWith(s.events, Prepare, 1, 1)
    ensures Right(env, o, Hashing(env, s, o, r, t, planned)) && Gated(o, planned, s, Hashing(env, s, o, r, t, planned))
  {
    hide Opening, HashRegion, Orderly, Authorized, Token, BaseIs, Sha256;
    HashReports(env, SourceSide, HashSource, s, r.sourceSize, o.bufferSize);
    var (data, next) := HashRegion(env, SourceSide, HashSource, s, r.sourceSize, o.bufferSize);
    if data.Success? {
      OpeningIsRight(env, next, o, r.(sourceSha256 := DigestOf(data.value)), t, planned);
    }
  }

  /** A run that ends before the loop, in error. */
  lemma EarlyEndIsRight(env: Environment, s: Snapshot, o: WriteOptions, r: WriteResult, t: Trace, status: ErrorStatus)
    requires BeforeLoop(s, r, t)
    ensures Right(env, o, Outcome(status, r, s, t))
  {
    hide Orderly;
  }

  lemma InspectingIsRight(env: Environment, s: Snapshot, o: WriteOptions, r: WriteResult, t: Trace)
    requires Defaulted(o) && 0 < r.sourceSize < 0x8000_0000_0000_0000 && t.live.None?
    requires BeforeLoop(s, r, t) && EndsWith(s.events, Prepare, 0, 1)
    ensures var out := Inspecting(env, s, o, r, t);
            && Right(env, o, out)
            && (env.inspect(s.clock).Failure? ==>
                  out.status != Ok && out.snapshot.mutations == s.mutations && out.snapshot.bytes == s.bytes)
            && (env.inspect(s.clock).Success? ==> Gated(o, env.inspect(s.clock).value, s, out))
  {
    hide Hashing, Orderly, Authorized, Token, BaseIs, RoundUp, Right;
    if env.inspect(s.clock).Success? {
      Append(s.events, Event(Prepare, 1, 1));
      HashingIsRight(env, Reported(Ticked(s), Prepare, 1, 1), o, r, t, env.inspect(s.clock).value);
    }
    EarlyEndIsRight(env, Ticked(s), o, r, t, SourceTooLarge);
    if env.inspect(s.clock).Failure? {
      EarlyEndIsRight(env, Ticked(s), o, r, t, env.inspect(s.clock).error);
    }
  }

  /**
   Every run of the image writer: its final state, its status, the medium, the digests and the
   reports agree, and the medium is touched only behind a gate that saw the live target.
   */
  lemma RunIsRight(env: Environment, s: Snapshot, options: WriteOptions)
    ensures var o, out := Defaults(options), RunWrite(env, s, options);
            && Right(env, o, out)
            && (env.inspect(s.clock + 1).Failure? ==>
                  out.status != Ok && out.snapshot.mutations == s.mutations && out.snapshot.bytes == s.bytes)
            && (env.inspect(s.clock + 1).Success? ==> Gated(o, env.inspect(s.clock + 1).value, s, out))
  {
    hide Inspecting, Orderly, Authorized, Token, BaseIs, RoundUp, Right;
    NoReports();
    Append([], Event(Prepare, 0, 1));
    var s1 := Reported(s.(events := []), Prepare, 0, 1);
    var source := env.openSource(s.clock);
    var t := Trace(None, s.bytes, s, None, [], None, None, None);
    if source.Success? && source.value != 0 {
      InspectingIsRight(env, Ticked(s1), Defaults(options), NO_RESULT.(sourceSize := source.value), t);
    } else {
      EarlyEndIsRight(env, Ticked(s1), Defaults(options), NO_RESULT, t, if source.Failure? then source.error else TooSmall);
    }
  }

  lemma NoReports()
    ensures Orderly([])
  {
  }
}
