/** Without faults the writer succeeds, in every verification mode, and the target holds the source. */
module Completeness {
  import opened Bytes
  import opened Arithmetic
  import opened Status
  import opened Fips180
  import opened Device
  import opened Io
  import opened Targets
  import opened WriteLoop
  import opened WriteTheorems
  import opened Readback
  import opened ReadbackTheorems
  import opened Pipeline
  import opened PipelineTheorems

  /** Nothing fails, the source is `content` at every tick, and the medium reads back as written. */
  ghost predicate Calm(env: Environment, content: seq<Byte>) {
    forall t: nat ::
      && env.openSource(t).Success? && env.openSource(t).value == |content| && env.source(t) == content
      && env.openReadback(t).Success? && (env.openReadback(t).value == 0 || env.openReadback(t).value >= |content|)
      && (forall bytes :: env.readback(t, bytes) == bytes)
      && env.openTarget(t) == Ok && env.resize(t) == Ok && env.flush(t) == Ok && env.memory(t)
      && env.transfer(t).Moved? && env.transfer(t).limit >= U64_MAX
  }

  lemma NextMultiple(d: nat, p: nat, r: nat, q: nat)
    requires 0 < r < d && d * p + r <= d * q
    ensures d * p + d <= d * q
  {
    Monotone(d, q, p);
    Monotone(d, p + 1, q);
  }

  /** A multiple not below a value is not below its rounding. */
  lemma RoundUpIsLeast(value: U64, alignment: U64, multiple: U64)
    requires alignment > 0 && multiple % alignment == 0 && value <= multiple
    ensures RoundUp(value, alignment) <= multiple
    ensures value > 0 ==> RoundUp(value, alignment) != 0
  {
    var q, p, r := multiple / alignment, value / alignment, value % alignment;
    assert multiple == alignment * q && value == alignment * p + r;
    assert r == 0 ==> RoundUp(value, alignment) == value;
    if r != 0 {
      NextMultiple(alignment, p, r, q);
      assert value + alignment - r <= multiple;
    }
  }

  /** A calm loop has room for every chunk: a device's buffer is whole sectors and its medium is long enough. */
  ghost predicate Roomy(job: Job, st: LoopState) {
    && job.Valid()
    && (job.device ==> job.bufferSize % job.alignment == 0 && job.Extent() <= |st.snapshot.bytes|)
  }

  lemma ChunkFits(job: Job, offset: nat)
    requires job.Valid() && offset < job.size && (job.device ==> job.bufferSize % job.alignment == 0)
    ensures WriteLength(job, Min(job.size - offset, job.bufferSize)).Some?
  {
    if job.device {
      RoundUpIsLeast(Min(job.size - offset, job.bufferSize), job.alignment, job.bufferSize);
    }
  }

  lemma FirstAttemptSucceeds(env: Environment, job: Job, data: seq<Byte>, offset: nat, s: Snapshot)
    requires 0 < job.retries && env.transfer(s.clock).Moved? && env.transfer(s.clock).limit >= |data|
    requires job.device ==> offset + |data| <= |s.bytes|
    ensures Attempts(env, job, data, offset, job.retries, s).0
  {
  }

  /** The first attempt at every chunk goes through. */
  lemma CalmStepSucceeds(env: Environment, job: Job, base: seq<Byte>, st: LoopState, content: seq<Byte>)
    requires Calm(env, content) && job.size <= |content| && st.offset < job.size
    requires Invariant(job, base, st) && Roomy(job, st)
    ensures Step(env, job, st).0 == Ok
  {
    hide Attempts, Overlay, RoundUp, WriteLength, Padding;
    var s, wanted := st.snapshot, Min(job.size - st.offset, job.bufferSize);
    assert env.transfer(s.clock).Moved? && env.transfer(s.clock + 1).Moved?;
    ChunkFits(job, st.offset);
    ChunkEnds(job, st.offset, wanted);
    ExtentBound(job);
    var padded := Window(content, st.offset, wanted) + Zeros(Max(0, WriteLength(job, wanted).value - wanted));
    FirstAttemptSucceeds(env, job, padded, st.offset, s.(clock := s.clock + 1));
  }

  lemma CalmStep(env: Environment, job: Job, base: seq<Byte>, st: LoopState, content: seq<Byte>)
    requires Calm(env, content) && job.size <= |content| && st.offset < job.size
    requires Invariant(job, base, st) && Roomy(job, st)
    ensures Step(env, job, st).0 == Ok
    ensures Roomy(job, Step(env, job, st).1)
  {
    hide Attempts, Overlay, RoundUp, WriteLength, MostAccepted, Step;
    CalmStepSucceeds(env, job, base, st, content);
    var chunk := StepShape(env, job, st);
    AttemptsEffect(env, job, chunk.padded, st.offset, job.retries, chunk.start);
    OverlayGrows(st.snapshot.bytes, st.offset, chunk.padded);
  }

  lemma ExtentBound(job: Job)
    requires job.Valid()
    ensures job.Extent() <= U64_MAX
  {
    RoundUpFits(job.size, job.alignment);
  }

  lemma OverlayGrows(base: seq<Byte>, offset: nat, data: seq<Byte>)
    ensures |base| <= |Overlay(base, offset, data)|
  {
  }

  /** A calm loop completes. */
  lemma {:induction false} CalmLoop(env: Environment, job: Job, base: seq<Byte>, st: LoopState, content: seq<Byte>)
    requires Calm(env, content) && job.size <= |content| && Invariant(job, base, st) && Roomy(job, st)
    ensures Loop(env, job, st).0 == Ok
    decreases job.size - st.offset
  {
    hide Step, Calm, Overlay;
    if st.offset < job.size {
      CalmStep(env, job, base, st, content);
      StepKeepsInvariant(env, job, base, st);
      StepAdvances(env, job, st);
      CalmLoop(env, job, base, Step(env, job, st).1, content);
    }
  }

  /** A calm region read completes. */
  lemma {:induction false} CalmRegion(env: Environment, side: Side, phase: Phase, s: Snapshot, length: nat, block: nat,
                                      offset: nat, read: seq<Byte>, content: seq<Byte>)
    requires Calm(env, content) && offset <= length <= U64_MAX && 0 < block
    requires length <= if side.SourceSide? then |content| else |s.bytes|
    ensures ReadRegion(env, side, phase, s, length, block, offset, read).0.Success?
    decreases length - offset
  {
    hide Calm;
    if offset < length {
      var wanted := Min(length - offset, block);
      CalmRead(env, side, s, wanted, offset, content);
      var data := SideRead(env, side, s, wanted, offset).value;
      CalmRegion(env, side, phase, Reported(Ticked(s), phase, offset + wanted, length), length, block,
                 offset + wanted, read + data, content);
    }
  }

  lemma CalmRead(env: Environment, side: Side, s: Snapshot, wanted: nat, offset: nat, content: seq<Byte>)
    requires Calm(env, content) && wanted <= U64_MAX
    requires offset + wanted <= if side.SourceSide? then |content| else |s.bytes|
    ensures var r := SideRead(env, side, s, wanted, offset);
            r.Success? && |r.value| == wanted
  {
  }

  lemma CalmShows(env: Environment, content: seq<Byte>, bytes: seq<Byte>)
    requires Calm(env, content)
    ensures Shows(env, SourceSide, bytes, content) && Shows(env, TargetSide, bytes, bytes) && Generous(env)
  {
  }

  /** A calm hash reads exactly the bytes that are there. */
  lemma CalmHash(env: Environment, side: Side, phase: Phase, s: Snapshot, length: nat, block: U64, content: seq<Byte>)
    requires Calm(env, content) && length <= U64_MAX && 0 < block <= U64_MAX / 2
    requires length <= if side.SourceSide? then |content| else |s.bytes|
    ensures var (r, last) := HashRegion(env, side, phase, s, length, block);
            && r == Success((if side.SourceSide? then content else s.bytes)[..length])
            && last.bytes == s.bytes
  {
    hide ReadRegion, Shows, RoundUp;
    var shown := if side.SourceSide? then content else s.bytes;
    var start := Reported(Ticked(s), phase, 0, length);
    RoundUpMeaning(block, SOURCE_ALIGNMENT);
    CalmShows(env, content, start.bytes);
    CalmRegion(env, side, phase, start, length, block, 0, [], content);
    assert shown[..0] == [];
    RegionIsPrefix(env, side, phase, start, length, block, 0, shown);
    RegionFrame(env, side, phase, start, length, block, 0, []);
    assert env.memory(s.clock);
  }

  /** A calm sampling over equal prefixes passes. */
  lemma CalmSampling(env: Environment, s: Snapshot, size: nat, digest: Digest, samples: U32, content: seq<Byte>)
    requires Calm(env, content) && 0 < size == |content| <= |s.bytes| && s.bytes[..size] == content
    ensures SampleFiles(env, s, size, digest, samples).0.status == Ok
  {
    hide SampleFrom, Shows, Seed, SampleOffset;
    var plan := SamplePlan(size, digest, samples);
    var start := Reported(Ticked(Ticked(s)), Verify, 0, plan.Total());
    CalmShows(env, content, start.bytes);
    assert env.memory(s.clock) && env.memory(s.clock + 1);
    forall j | 0 <= j < plan.iterations
      ensures SampleAgrees(plan, content, s.bytes, j)
    {
      SamplesLieInSource(size, digest, samples, j);
      assert content[..size] == content;
      WindowsAgree(content, s.bytes, size, plan.Offset(j), plan.block);
    }
    SamplingDecides(env, start, plan, content, s.bytes);
  }

  lemma CalmVerification(env: Environment, s: Snapshot, o: WriteOptions, known: Digest, content: seq<Byte>)
    requires Calm(env, content) && Defaulted(o) && o.bufferSize <= U64_MAX / 2 && Matches(content, known)
    requires 0 < |content| <= U64_MAX && |content| <= |s.bytes| && s.bytes[..|content|] == content
    ensures VerifyImage(env, s, o, known).status == Ok
  {
    hide HashRegion, SampleFiles, Matches;
    var s2 := Ticked(Ticked(s));
    assert env.openSource(s.clock).Success? && env.openReadback(s.clock + 1).Success?;
    CalmHash(env, TargetSide, Verify, s2, |content|, o.bufferSize, content);
    CalmSampling(env, s2, |content|, known, o.sampleCount, content);
  }

  /** The target every inspection shows, with room for the source and an alignment the buffer can be made to fit. */
  ghost predicate Accepts(env: Environment, target: TargetInfo, o: WriteOptions, bytes: seq<Byte>, size: FileSize) {
    var file := Opened(target);
    && (forall t: nat :: env.inspect(t) == Success(target))
    && Authorized(target, o) && !ExceedsTarget(size, target)
    && (4096 % file.alignment == 0 || 4096 <= file.alignment)
    && (file.device ==> RoundUp(size, file.alignment) <= |bytes|)
  }

  lemma BufferIsAligned(bufferSize: U64, alignment: U32)
    requires 0 < bufferSize <= U64_MAX / 2 && 0 < alignment && (4096 % alignment == 0 || 4096 <= alignment)
    ensures var buffer := RoundUp(bufferSize, Max(alignment, MIN_BUFFER_ALIGNMENT));
            buffer != 0 && buffer % alignment == 0
  {
    var unit := Max(alignment, MIN_BUFFER_ALIGNMENT);
    RoundUpMeaning(bufferSize, unit);
    var buffer := RoundUp(bufferSize, unit);
    if alignment < 4096 {
      var q, p := buffer / 4096, 4096 / alignment;
      assert buffer == 4096 * q && 4096 == alignment * p;
      assert buffer == alignment * (p * q) by {
        Regroup(alignment, p, q);
      }
      Remainder(alignment, p * q, 0);
    }
  }

  lemma Regroup(a: nat, b: nat, c: nat)
    ensures (a * b) * c == a * (b * c)
  {
  }

  lemma CalmTail(env: Environment, s: Snapshot, o: WriteOptions, r: WriteResult, t: Trace, content: seq<Byte>)
    requires Calm(env, content) && Defaulted(o) && o.bufferSize <= U64_MAX / 2 && Matches(content, r.sourceSha256)
    requires 0 < |content| <= U64_MAX && |content| <= |s.bytes| && s.bytes[..|content|] == content
    ensures Flushing(env, s, o, r, t).status == Ok
  {
    hide VerifyImage, Matches;
    assert env.flush(s.clock) == Ok;
    CalmVerification(env, Reported(Ticked(s), Flush, 1, 1), o, r.sourceSha256, content);
  }

  lemma CalmWriting(env: Environment, s: Snapshot, o: WriteOptions, r: WriteResult, t: Trace, job: Job,
                    content: seq<Byte>)
    requires Calm(env, content) && Defaulted(o) && o.bufferSize <= U64_MAX / 2
    requires job.Valid() && job.size == |content| && Roomy(job, LoopState(s, 0, [], 0))
    requires Matches(content, r.sourceSha256)
    ensures Writing(env, s, o, r, t, job).status == Ok
    ensures Writing(env, s, o, r, t, job).trace.streamed == content
  {
    hide Loop, Flushing, Matches, Overlay;
    var st := LoopState(s, 0, [], 0);
    EmptyOverlay(s.bytes);
    CalmLoop(env, job, s.bytes, st, content);
    LoopIsCorrect(env, job, s.bytes, st);
    assert content[..0] == [] && content[..|content|] == content;
    StableSourceIsStreamed(env, job, st, content);
    var last := Loop(env, job, st).1;
    ExtentCovers(job);
    OverlayFrame(s.bytes, content + Zeros(Max(0, job.Extent() - job.size)), job.Extent(), job.size);
    var written := AfterLoop(r, last);
    CalmTail(env, Reported(last.snapshot, Flush, 0, 1), o, written, t.(streamed := last.streamed), content);
    FlushKeepsStream(env, Reported(last.snapshot, Flush, 0, 1), o, written, t.(streamed := last.streamed));
  }

  lemma FlushKeepsStream(env: Environment, s: Snapshot, o: WriteOptions, r: WriteResult, t: Trace)
    requires Defaulted(o)
    ensures Flushing(env, s, o, r, t).trace.streamed == t.streamed
  {
    hide VerifyImage;
  }

  lemma CalmBuffering(env: Environment, s: Snapshot, o: WriteOptions, r: WriteResult, t: Trace, file: OpenFile,
                      content: seq<Byte>)
    requires Calm(env, content) && Defaulted(o) && o.bufferSize <= U64_MAX / 2
    requires 0 < r.sourceSize == |content| < 0x8000_0000_0000_0000 && Matches(content, r.sourceSha256)
    requires 0 < file.alignment && (4096 % file.alignment == 0 || 4096 <= file.alignment)
    requires file.device ==> RoundUp(r.sourceSize, file.alignment) <= |s.bytes|
    ensures Buffering(env, s, o, r, t, file).status == Ok && Buffering(env, s, o, r, t, file).trace.streamed == content
  {
    hide Writing, RoundUp, Matches;
    assert env.memory(s.clock);
    BufferIsAligned(o.bufferSize, file.alignment);
    var bufferSize := RoundUp(o.bufferSize, Max(file.alignment, MIN_BUFFER_ALIGNMENT));
    var job := Job(r.sourceSize, bufferSize, file.device, file.alignment, o.writeRetries);
    var start := Reported(Ticked(s), Write, 0, r.sourceSize);
    CalmWriting(env, start, o, r, t.(job := Some(job), start := start), job, content);
  }

  lemma CalmResizing(env: Environment, s: Snapshot, o: WriteOptions, r: WriteResult, t: Trace, file: OpenFile,
                     content: seq<Byte>)
    requires Calm(env, content) && Defaulted(o) && o.bufferSize <= U64_MAX / 2
    requires 0 < r.sourceSize == |content| < 0x8000_0000_0000_0000 && Matches(content, r.sourceSha256)
    requires 0 < file.alignment && (4096 % file.alignment == 0 || 4096 <= file.alignment)
    requires file.device ==> RoundUp(r.sourceSize, file.alignment) <= |s.bytes|
    ensures Resizing(env, s, o, r, t, file).status == Ok && Resizing(env, s, o, r, t, file).trace.streamed == content
  {
    hide Buffering, RoundUp, Matches, Resized;
    assert env.resize(s.clock) == Ok;
    var resized := Resized(s.bytes, r.sourceSize);
    if Resizes(o, r.sourceSize, file) {
      CalmBuffering(env, Ticked(s).(mutations := s.mutations + 1, bytes := resized), o, r, t.(base := resized), file,
                    content);
    } else {
      CalmBuffering(env, s, o, r, t, file, content);
    }
  }

  lemma CalmOpening(env: Environment, s: Snapshot, o: WriteOptions, r: WriteResult, t: Trace, target: TargetInfo,
                    content: seq<Byte>)
    requires Calm(env, content) && Defaulted(o) && o.bufferSize <= U64_MAX / 2
    requires 0 < r.sourceSize == |content| < 0x8000_0000_0000_0000 && Matches(content, r.sourceSha256)
    requires Accepts(env, target, o, s.bytes, r.sourceSize)
    ensures Opening(env, s, o, r, t, target).status == Ok && Opening(env, s, o, r, t, target).trace.streamed == content
  {
    hide Resizing, RoundUp, Matches, Token, Authorized;
    assert env.openTarget(s.clock + 1) == Ok && env.inspect(s.clock) == Success(target);
    DecisionMeansAuthorized(target, Token(target), o);
    var next := s.(clock := s.clock + OpenTicks(env, s.clock, Token(target), o));
    CalmResizing(env, next, o, r, t.(live := Live(env, s.clock)), Opened(target), content);
  }

  lemma CalmHashing(env: Environment, s: Snapshot, o: WriteOptions, r: WriteResult, t: Trace, target: TargetInfo,
                    content: seq<Byte>)
    requires Calm(env, content) && Defaulted(o) && o.bufferSize <= U64_MAX / 2
    requires 0 < r.sourceSize == |content| < 0x8000_0000_0000_0000
    requires Accepts(env, target, o, s.bytes, r.sourceSize)
    ensures Hashing(env, s, o, r, t, target).status == Ok && Hashing(env, s, o, r, t, target).trace.streamed == content
  {
    hide Opening, HashRegion, Sha256, Accepts;
    CalmHash(env, SourceSide, HashSource, s, |content|, o.bufferSize, content);
    assert content[..|content|] == content;
    var next := HashRegion(env, SourceSide, HashSource, s, r.sourceSize, o.bufferSize).1;
    CalmOpening(env, next, o, r.(sourceSha256 := DigestOf(content)), t, target, content);
  }

  /**
   Completeness: over a calm environment and an authorized target with room, every run succeeds in
   whatever verification mode was asked for, and the target then starts with the source.
   */
  lemma CalmRunSucceeds(env: Environment, s: Snapshot, options: WriteOptions, target: TargetInfo, content: seq<Byte>)
    requires Calm(env, content) && 0 < |content| < 0x8000_0000_0000_0000
    requires Defaults(options).bufferSize <= U64_MAX / 2
    requires Accepts(env, target, Defaults(options), s.bytes, |content|)
    ensures var out := RunWrite(env, s, options);
            && out.status == Ok && out.trace.streamed == content
            && |content| <= |out.snapshot.bytes| && out.snapshot.bytes[..|content|] == content
            && out.result.state == if options.verifyMode == VerifyNone then SuccessUnverified else SuccessVerified
  {
    hide Hashing, Authorized, Token, BaseIs, RoundUp, Matches, ChangedOnlyIn, WholeImage, ReportsAgree;
    assert env.openSource(s.clock).Success? && env.inspect(s.clock + 1) == Success(target);
    var s1 := Reported(s.(events := []), Prepare, 0, 1);
    var t := Trace(None, s.bytes, s, None, [], None, None, None);
    CalmHashing(env, Reported(Ticked(Ticked(s1)), Prepare, 1, 1), Defaults(options),
                NO_RESULT.(sourceSize := |content|), t, target, content);
    RunIsRight(env, s, options);
    assert content[..|content|] == content;
  }
}
