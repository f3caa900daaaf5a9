/** Every report of a successful run, in order: one after each block that was hashed, written or verified. */
module SuccessReports {
  import opened Bytes
  import opened Arithmetic
  import opened Status
  import opened Fips180
  import opened Device
  import opened Io
  import opened Targets
  import opened WriteLoop
  import opened WriteTheorems
  import opened Readback
  import opened ReadbackTheorems
  import opened Pipeline

  /** One report for each block behind `from`, the last one of the whole length. */
  function Later(phase: Phase, length: nat, block: nat, from: nat): seq<Event>
    requires from <= length && 0 < block
    decreases length - from
  {
    if from == length then []
    else
      var next := from + Min(length - from, block);
      [Event(phase, next, length)] + Later(phase, length, block, next)
  }

  /** A first report of nothing, then the blocks. */
  function Blocks(phase: Phase, length: nat, block: nat): seq<Event>
    requires 0 < block
  {
    [Event(phase, 0, length)] + Later(phase, length, block, 0)
  }

  /** One report for each pair of sampled blocks behind the i-th. */
  function LaterPairs(plan: Plan, i: nat): seq<Event>
    requires i <= plan.iterations
    decreases plan.iterations - i
  {
    if i == plan.iterations then []
    else [Event(Verify, (i + 1) * plan.block, plan.iterations * plan.block)] + LaterPairs(plan, i + 1)
  }

  function VerifyReports(env: Environment, tick: nat, o: WriteOptions, known: Digest): seq<Event>
    requires Defaulted(o)
  {
    var size := if env.openSource(tick).Success? then env.openSource(tick).value else 0;
    var plan := SamplePlan(size, known, o.sampleCount);
    match o.verifyMode
    case VerifyNone => []
    case VerifySample => if size == 0 then [Event(Verify, 0, 0)] else [Event(Verify, 0, plan.Total())] + LaterPairs(plan, 0)
    case VerifyFull => Blocks(Verify, size, o.bufferSize)
  }

  /** What is reported behind the loop's first report. */
  function LoopAndAfter(env: Environment, o: WriteOptions, out: Outcome): seq<Event>
    requires Defaulted(o)
  {
    var buffer := if out.trace.job.Some? && 0 < out.trace.job.value.bufferSize then out.trace.job.value.bufferSize else 1;
    var tick := if out.trace.reopened.Some? then out.trace.reopened.value.clock else 0;
    Later(Write, out.result.sourceSize, buffer, 0) + AfterLoop(env, tick, o, out.result.sourceSha256)
  }

  function AfterLoop(env: Environment, tick: nat, o: WriteOptions, known: Digest): seq<Event>
    requires Defaulted(o)
  {
    [Event(Flush, 0, 1)] + AfterFlush(env, tick, o, known)
  }

  function AfterFlush(env: Environment, tick: nat, o: WriteOptions, known: Digest): seq<Event>
    requires Defaulted(o)
  {
    [Event(Flush, 1, 1)] + VerifyReports(env, tick, o, known) + [Event(Complete, 1, 1)]
  }

  lemma {:induction false} RegionReportsBlocks(env: Environment, side: Side, phase: Phase, s: Snapshot, length: nat,
                                               block: nat, offset: nat, read: seq<Byte>)
    requires offset <= length && 0 < block
    ensures var (r, last) := ReadRegion(env, side, phase, s, length, block, offset, read);
            r.Success? ==> last.events == s.events + Later(phase, length, block, offset)
    decreases length - offset
  {
    hide SideRead;
    if offset < length {
      var wanted := Min(length - offset, block);
      var data := SideRead(env, side, s, wanted, offset);
      if data.Success? && |data.value| >= wanted {
        RegionReportsBlocks(env, side, phase, Reported(Ticked(s), phase, offset + wanted, length), length, block,
                            offset + wanted, read + data.value);
      }
    }
  }

  lemma HashReportsBlocks(env: Environment, side: Side, phase: Phase, s: Snapshot, length: nat, block: U64)
    requires 0 < block
    ensures var (r, last) := HashRegion(env, side, phase, s, length, block);
            && (r.Success? ==> last.events == s.events + Blocks(phase, length, block))
            && (r.Failure? ==> r.error != Ok)
  {
    hide ReadRegion, Later;
    RegionFrame(env, side, phase, Reported(Ticked(s), phase, 0, length), length, block, 0, []);
    RegionReportsBlocks(env, side, phase, Reported(Ticked(s), phase, 0, length), length, block, 0, []);
  }

  lemma {:induction false} LoopReportsBlocks(env: Environment, job: Job, st: LoopState)
    requires job.Valid() && st.offset <= job.size
    ensures var (status, last) := Loop(env, job, st);
            status == Ok ==> last.snapshot.events == st.snapshot.events + Later(Write, job.size, job.bufferSize, st.offset)
    decreases job.size - st.offset
  {
    hide Step, Attempts, MostAccepted, Overlay;
    if st.offset < job.size {
      var chunk := StepShape(env, job, st);
      AttemptsEffect(env, job, chunk.padded, st.offset, job.retries, chunk.start);
      var (status, next) := Step(env, job, st);
      if status == Ok {
        StepAdvances(env, job, st);
        LoopReportsBlocks(env, job, next);
      }
    }
  }

  lemma {:induction false} SamplingReportsPairs(env: Environment, s: Snapshot, plan: Plan, i: nat, verified: nat)
    requires i <= plan.iterations && verified == i * plan.block
    ensures var (r, last) := SampleFrom(env, s, plan, i, verified);
            r.status == Ok ==> last.events == s.events + LaterPairs(plan, i)
    decreases plan.iterations - i
  {
    hide SideRead, SampleOffset, SameBlock;
    if i < plan.iterations {
      assert (i + 1) * plan.block == i * plan.block + plan.block;
      SamplingReportsPairs(env, Reported(Ticked(Ticked(s)), Verify, verified + plan.block, plan.Total()), plan, i + 1,
                           verified + plan.block);
    }
  }

  lemma SampleFilesReports(env: Environment, s: Snapshot, size: nat, known: Digest, samples: U32)
    ensures var (r, last) := SampleFiles(env, s, size, known, samples);
            var plan := SamplePlan(size, known, samples);
            r.status == Ok ==>
              last.events == s.events + if size == 0 then [Event(Verify, 0, 0)]
                                        else [Event(Verify, 0, plan.Total())] + LaterPairs(plan, 0)
  {
    hide SampleFrom, Seed, LaterPairs;
    var plan := SamplePlan(size, known, samples);
    var start := Reported(Ticked(Ticked(s)), Verify, 0, plan.Total());
    SamplingReportsPairs(env, start, plan, 0, 0);
    assert start.events + LaterPairs(plan, 0) == s.events + ([Event(Verify, 0, plan.Total())] + LaterPairs(plan, 0));
  }

  lemma VerificationReports(env: Environment, s: Snapshot, o: WriteOptions, known: Digest)
    requires Defaulted(o)
    ensures var v := VerifyImage(env, s, o, known);
            v.status == Ok ==> v.snapshot.events == s.events + VerifyReports(env, s.clock, o, known)
  {
    hide HashRegion, SampleFiles, Matches, Seed, LaterPairs, Blocks;
    if env.openSource(s.clock).Success? {
      var s2, size := Ticked(Ticked(s)), env.openSource(s.clock).value;
      match o.verifyMode
      case VerifyNone => assert s.events + [] == s.events;
      case VerifySample => SampleFilesReports(env, s2, size, known, o.sampleCount);
      case VerifyFull =>
        HashReportsBlocks(env, TargetSide, Verify, s2, size, o.bufferSize);
        assert VerifyImage(env, s, o, known).status == Ok ==>
            HashRegion(env, TargetSide, Verify, s2, size, o.bufferSize).0.Success?;
    }
  }

  lemma FlushingReports(env: Environment, s: Snapshot, o: WriteOptions, r: WriteResult, t: Trace)
    requires Defaulted(o) && t.reopened.None?
    ensures var out := Flushing(env, s, o, r, t);
            && out.trace.job == t.job && out.result.sourceSize == r.sourceSize && out.result.sourceSha256 == r.sourceSha256
            && (out.status == Ok ==>
                  var tick := if out.trace.reopened.Some? then out.trace.reopened.value.clock else 0;
                  out.snapshot.events == s.events + AfterFlush(env, tick, o, r.sourceSha256))
  {
    hide VerifyImage, VerifyReports;
    var s1 := Reported(Ticked(s), Flush, 1, 1);
    VerificationReports(env, s1, o, r.sourceSha256);
    NoVerifyReports(env, o, r.sourceSha256);
  }

  lemma NoVerifyReports(env: Environment, o: WriteOptions, known: Digest)
    requires Defaulted(o)
    ensures o.verifyMode == VerifyNone ==> VerifyReports(env, 0, o, known) == []
  {
  }

  lemma WritingReports(env: Environment, s: Snapshot, o: WriteOptions, r: WriteResult, t: Trace, job: Job)
    requires Defaulted(o) && job.Valid() && t.job == Some(job) && t.reopened.None? && r.sourceSize == job.size
    ensures var out := Writing(env, s, o, r, t, job);
            && out.trace.job == Some(job) && out.result.sourceSize == r.sourceSize
            && out.result.sourceSha256 == r.sourceSha256
            && (out.status == Ok ==> out.snapshot.events == s.events + LoopAndAfter(env, o, out))
  {
    hide Loop, Flushing, Matches, Later, AfterFlush;
    var (status, last) := Loop(env, job, LoopState(s, 0, [], 0));
    LoopReportsBlocks(env, job, LoopState(s, 0, [], 0));
    var written := r.(bytesWritten := last.offset, writeRetries := last.retries,
                      state := if last.offset > 0 then FailedPartialMedia else FailedBeforeWrite);
    FlushingReports(env, Reported(last.snapshot, Flush, 0, 1), o, written, t.(streamed := last.streamed));
  }

  lemma BufferingReports(env: Environment, s: Snapshot, o: WriteOptions, r: WriteResult, t: Trace, file: OpenFile)
    requires Defaulted(o) && 0 < r.sourceSize < 0x8000_0000_0000_0000 && 0 < file.alignment && t.reopened.None?
    ensures var out := Buffering(env, s, o, r, t, file);
            && out.result.sourceSize == r.sourceSize
            && (out.status == Ok ==>
                  out.snapshot.events == s.events + [Event(Write, 0, r.sourceSize)] + LoopAndAfter(env, o, out))
  {
    hide Writing, LoopAndAfter, RoundUp;
    if JobFor(o, r.sourceSize, file).Some? {
      var job := JobFor(o, r.sourceSize, file).value;
      var start := Reported(Ticked(s), Write, 0, r.sourceSize);
      WritingReports(env, start, o, r, t.(job := Some(job), start := start), job);
    }
  }

  lemma OpeningReports(env: Environment, s: Snapshot, o: WriteOptions, r: WriteResult, t: Trace, planned: TargetInfo)
    requires Defaulted(o) && 0 < r.sourceSize < 0x8000_0000_0000_0000 && t.reopened.None?
    ensures var out := Opening(env, s, o, r, t, planned);
            && out.result.sourceSize == r.sourceSize
            && (out.status == Ok ==>
                  out.snapshot.events == s.events + [Event(Write, 0, r.sourceSize)] + LoopAndAfter(env, o, out))
  {
    hide Buffering, LoopAndAfter, Token, OpenDecision, Resized;
    var opening := OpenResult(env, s.clock, Token(planned), o);
    if opening.Success? {
      var file := opening.value;
      var next := s.(clock := s.clock + OpenTicks(env, s.clock, Token(planned), o));
      var live := t.(live := Live(env, s.clock));
      if Resizes(o, r.sourceSize, file) {
        var resized := Resized(s.bytes, r.sourceSize);
        BufferingReports(env, Ticked(next).(mutations := next.mutations + 1, bytes := resized), o, r,
                         live.(base := resized), file);
      } else {
        BufferingReports(env, next, o, r, live, file);
      }
    }
  }

  /** All reports of a successful run. */
  function AllReports(env: Environment, o: WriteOptions, out: Outcome): seq<Event>
    requires Defaulted(o)
  {
    [Event(Prepare, 0, 1), Event(Prepare, 1, 1)] + Blocks(HashSource, out.result.sourceSize, o.bufferSize)
    + [Event(Write, 0, out.result.sourceSize)] + LoopAndAfter(env, o, out)
  }

  /**
   Over every run that succeeds, the reports are exactly these: planning, one report for each hashed
   block, one for each written chunk, the flush, one for each verified block or pair, and completion.
   */
  lemma SuccessReportsExactly(env: Environment, s: Snapshot, options: WriteOptions)
    ensures var out := RunWrite(env, s, options);
            out.status == Ok ==> out.snapshot.events == AllReports(env, Defaults(options), out)
  {
    hide Opening, HashRegion, Sha256, LoopAndAfter, Blocks, ExceedsTarget;
    var o := Defaults(options);
    var s2 := Reported(Ticked(Ticked(Reported(s.(events := []), Prepare, 0, 1))), Prepare, 1, 1);
    if env.openSource(s.clock).Success? && 0 < env.openSource(s.clock).value && env.inspect(s.clock + 1).Success? {
      var size := env.openSource(s.clock).value;
      HashReportsBlocks(env, SourceSide, HashSource, s2, size, o.bufferSize);
      var (data, next) := HashRegion(env, SourceSide, HashSource, s2, size, o.bufferSize);
      assert s2.events == [Event(Prepare, 0, 1), Event(Prepare, 1, 1)];
      if data.Success? {
        var r := NO_RESULT.(sourceSize := size, sourceSha256 := DigestOf(data.value));
        OpeningReports(env, next, o, r, Trace(None, s.bytes, s, None, [], None, None, None), env.inspect(s.clock + 1).value);
      }
    }
  }
}
