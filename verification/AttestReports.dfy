/** The progress an attested run reports: planning's reports, then the writer's. */
module AttestReports {
  import opened Bytes
  import opened Arithmetic
  import opened Status
  import opened Fips180
  import opened Device
  import opened Io
  import opened Targets
  import opened WriteLoop
  import opened WriteTheorems
  import opened Readback
  import opened Pipeline
  import opened PipelineTheorems
  import opened Progress
  import opened Attest
  import opened AttestTheorems

  /** Everything one callback is told. */
  function Stream(out: Attested): seq<Event> {
    out.planReports + if out.write.Some? then out.write.value.snapshot.events else []
  }

  lemma {:induction false} RegionExtends(env: Environment, side: Side, phase: Phase, s: Snapshot, length: nat, block: nat,
                                         offset: nat, read: seq<Byte>)
    requires offset <= length && 0 < block
    ensures s.events <= ReadRegion(env, side, phase, s, length, block, offset, read).1.events
    decreases length - offset
  {
    hide SideRead;
    if offset < length {
      var wanted := Min(length - offset, block);
      var data := SideRead(env, side, s, wanted, offset);
      if data.Success? && |data.value| >= wanted {
        RegionExtends(env, side, phase, Reported(Ticked(s), phase, offset + wanted, length), length, block,
                      offset + wanted, read + data.value);
      }
    }
  }

  lemma HashExtends(env: Environment, side: Side, phase: Phase, s: Snapshot, length: nat, block: U64)
    requires 0 < block
    ensures s.events <= HashRegion(env, side, phase, s, length, block).1.events
  {
    hide ReadRegion;
    RegionExtends(env, side, phase, Reported(Ticked(s), phase, 0, length), length, block, 0, []);
  }

  lemma {:induction false} SampleExtends(env: Environment, s: Snapshot, plan: Plan, i: nat, verified: nat)
    requires i <= plan.iterations
    ensures s.events <= SampleFrom(env, s, plan, i, verified).1.events
    decreases plan.iterations - i
  {
    hide SideRead, SampleOffset, SameBlock;
    if i < plan.iterations {
      SampleExtends(env, Reported(Ticked(Ticked(s)), Verify, verified + plan.block, plan.Total()), plan, i + 1,
                    verified + plan.block);
    }
  }

  lemma VerifyExtends(env: Environment, s: Snapshot, o: WriteOptions, known: Digest)
    requires Defaulted(o)
    ensures s.events <= VerifyImage(env, s, o, known).snapshot.events
  {
    hide HashRegion, SampleFrom, Matches, Seed;
    var s2 := Ticked(Ticked(s));
    if env.openSource(s.clock).Success? {
      var size := env.openSource(s.clock).value;
      var plan := SamplePlan(size, known, o.sampleCount);
      HashExtends(env, TargetSide, Verify, s2, size, o.bufferSize);
      SampleExtends(env, Reported(Ticked(Ticked(s2)), Verify, 0, plan.Total()), plan, 0, 0);
    }
  }

  lemma FlushingExtends(env: Environment, s: Snapshot, o: WriteOptions, r: WriteResult, t: Trace)
    requires Defaulted(o)
    ensures s.events <= Flushing(env, s, o, r, t).snapshot.events
  {
    hide VerifyImage;
    VerifyExtends(env, Reported(Ticked(s), Flush, 1, 1), o, r.sourceSha256);
  }

  lemma WritingExtends(env: Environment, s: Snapshot, o: WriteOptions, r: WriteResult, t: Trace, job: Job)
    requires Defaulted(o) && job.Valid()
    ensures s.events <= Writing(env, s, o, r, t, job).snapshot.events
  {
    hide Loop, Flushing, Matches;
    AttemptsAreCounted(env, job, LoopState(s, 0, [], 0));
    var last := Loop(env, job, LoopState(s, 0, [], 0)).1;
    FlushingExtends(env, Reported(last.snapshot, Flush, 0, 1), o, AfterLoop(r, last), t.(streamed := last.streamed));
  }

  lemma ResizingExtends(env: Environment, s: Snapshot, o: WriteOptions, r: WriteResult, t: Trace, file: OpenFile)
    requires Defaulted(o) && 0 < r.sourceSize < 0x8000_0000_0000_0000 && 0 < file.alignment
    ensures s.events <= Resizing(env, s, o, r, t, file).snapshot.events
  {
    hide Buffering, Resized;
    BufferingExtends(env, s, o, r, t, file);
    var resized := Resized(s.bytes, r.sourceSize);
    BufferingExtends(env, Ticked(s).(mutations := s.mutations + 1, bytes := resized), o, r, t.(base := resized), file);
  }

  lemma BufferingExtends(env: Environment, s: Snapshot, o: WriteOptions, r: WriteResult, t: Trace, file: OpenFile)
    requires Defaulted(o) && 0 < r.sourceSize < 0x8000_0000_0000_0000 && 0 < file.alignment
    ensures s.events <= Buffering(env, s, o, r, t, file).snapshot.events
  {
    hide Writing, RoundUp;
    if JobFor(o, r.sourceSize, file).Some? {
      var job := JobFor(o, r.sourceSize, file).value;
      var start := Reported(Ticked(s), Write, 0, r.sourceSize);
      WritingExtends(env, start, o, r, t.(job := Some(job), start := start), job);
    }
  }

  lemma OpeningExtends(env: Environment, s: Snapshot, o: WriteOptions, r: WriteResult, t: Trace, planned: TargetInfo)
    requires Defaulted(o) && 0 < r.sourceSize < 0x8000_0000_0000_0000
    ensures s.events <= Opening(env, s, o, r, t, planned).snapshot.events
  {
    hide Resizing, Token, OpenDecision;
    var opening := OpenResult(env, s.clock, Token(planned), o);
    if opening.Success? {
      var next := s.(clock := s.clock + OpenTicks(env, s.clock, Token(planned), o));
      ResizingExtends(env, next, o, r, t.(live := Live(env, s.clock)), opening.value);
    }
  }

  lemma HashingExtends(env: Environment, s: Snapshot, o: WriteOptions, r: WriteResult, t: Trace, planned: TargetInfo)
    requires Defaulted(o) && 0 < r.sourceSize < 0x8000_0000_0000_0000
    ensures s.events <= Hashing(env, s, o, r, t, planned).snapshot.events
  {
    hide Opening, HashRegion, Sha256;
    HashExtends(env, SourceSide, HashSource, s, r.sourceSize, o.bufferSize);
    var (data, next) := HashRegion(env, SourceSide, HashSource, s, r.sourceSize, o.bufferSize);
    if data.Success? {
      OpeningExtends(env, next, o, r.(sourceSha256 := DigestOf(data.value)), t, planned);
    }
  }

  /** The writer's first report is of its first phase, whatever the run comes to. */
  lemma FirstReport(env: Environment, s: Snapshot, options: WriteOptions)
    ensures [Event(Prepare, 0, 1)] <= RunWrite(env, s, options).snapshot.events
  {
    hide Hashing, RoundUp;
    var o := Defaults(options);
    var s1 := Ticked(Reported(s.(events := []), Prepare, 0, 1));
    if env.openSource(s.clock).Success? && 0 < env.openSource(s.clock).value && env.inspect(s.clock + 1).Success? {
      var r := NO_RESULT.(sourceSize := env.openSource(s.clock).value);
      HashingExtends(env, Reported(Ticked(s1), Prepare, 1, 1), o, r,
                     Trace(None, s.bytes, s, None, [], None, None, None), env.inspect(s.clock + 1).value);
    }
  }

  /** Reports that end in a later phase than others begin with are not orderly together. */
  lemma NotOrderlyTogether(a: seq<Event>, b: seq<Event>)
    requires EndsIn(a, HashSource) && [Event(Prepare, 0, 1)] <= b
    ensures !Orderly(a + b)
  {
    var all := a + b;
    assert all[|a| - 1].phase == HashSource && all[|a|].phase == Prepare;
    assert !NotBefore(all[|a| - 1], all[|a|]);
  }

  /**
   Over every attested run: both parts report orderly, but the callback as a whole is told phases in order
   exactly when the writer is never called, because the writer starts over at its first phase.
   */
  lemma OrderlyExactly(env: Environment, s: Snapshot, options: WriteOptions, seal: seq<Byte>)
    ensures var out := RunAttested(env, s, options, seal);
            && Orderly(out.planReports) && (out.write.Some? ==> Orderly(out.write.value.snapshot.events))
            && (Orderly(Stream(out)) <==> out.write.None?)
  {
    hide AttestPlan, RunWrite, SealedUnder, StatesAgree, MediumAgrees, ContentAgrees, EndingsAgree, Gated, Orderly;
    NoReports();
    PlanningIsSound(env, s, options);
    var (plan, s1) := AttestPlan(env, s, options);
    RunIsRight(env, s1, options);
    FirstReport(env, s1, options);
    var out := RunAttested(env, s, options, seal);
    if out.write.Some? {
      NotOrderlyTogether(out.planReports, out.write.value.snapshot.events);
    } else {
      assert Stream(out) == out.planReports;
    }
  }
}
