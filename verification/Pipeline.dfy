/**
 The image writer as a chain of phases: open and inspect, hash the source, open the target, resize,
 allocate, write, compare digests, flush, verify. Every phase may end the run.
 */
module Pipeline {
  import opened Bytes
  import opened Arithmetic
  import opened Status
  import opened Fips180
  import opened Device
  import opened Io
  import opened Targets
  import opened WriteLoop
  import opened Readback

  const DEFAULT_BUFFER := 32 * 1024 * 1024
  const DEFAULT_RETRIES := 4
  const MIN_BUFFER_ALIGNMENT := 4096

  datatype FinalState =
    | FailedBeforeWrite
    | FailedPartialMedia
    | VerificationFailed
    | SuccessVerified
    | SuccessUnverified
    | PlanBreachPartialMedia

  datatype WriteResult = WriteResult(
    sourceSize: nat,
    bytesWritten: nat,
    bytesVerified: nat,
    writeRetries: nat,
    mismatches: nat,
    sourceSha256: Digest,
    targetSha256: Digest,
    state: FinalState)

  const NO_RESULT := WriteResult(0, 0, 0, 0, 0, Zeros(32), Zeros(32), FailedBeforeWrite)

  /**
   What a run met on its way: the live target, the medium and the moment the loop started from, the
   bytes that passed, how the flush ended, where verification began, and what full verification read.
   */
  datatype Trace = Trace(
    live: Option<TargetInfo>,
    base: seq<Byte>,
    start: Snapshot,
    job: Option<Job>,
    streamed: seq<Byte>,
    flush: Option<Status>,
    reopened: Option<Snapshot>,
    readback: Option<seq<Byte>>)
  {
    predicate Flushed() {
      flush == Some(Ok)
    }
  }

  datatype Outcome = Outcome(status: Status, result: WriteResult, snapshot: Snapshot, trace: Trace)

  /** Zero means the default. */
  function Defaults(o: WriteOptions): WriteOptions {
    o.(bufferSize := if o.bufferSize == 0 then DEFAULT_BUFFER else o.bufferSize,
       writeRetries := if o.writeRetries == 0 then DEFAULT_RETRIES else o.writeRetries,
       sampleCount := if o.sampleCount == 0 then DEFAULT_SAMPLES else o.sampleCount)
  }

  predicate Defaulted(o: WriteOptions) {
    0 < o.bufferSize && 0 < o.writeRetries && 0 < o.sampleCount
  }

  /** The capacity gate for devices. */
  predicate ExceedsTarget(size: FileSize, planned: TargetInfo) {
    planned.kind != RegularFile && RoundUp(size, planned.logicalSector) > planned.sizeBytes
  }

  function RunWrite(env: Environment, s: Snapshot, options: WriteOptions): Outcome {
    var o := Defaults(options);
    var s1 := Reported(s.(events := []), Prepare, 0, 1);
    var t := Trace(None, s.bytes, s, None, [], None, None, None);
    match env.openSource(s1.clock)
    case Failure(e) => Outcome(e, NO_RESULT, Ticked(s1), t)
    case Success(size) =>
      if size == 0 then Outcome(TooSmall, NO_RESULT, Ticked(s1), t)
      else Inspecting(env, Ticked(s1), o, NO_RESULT.(sourceSize := size), t)
  }

  function Inspecting(env: Environment, s: Snapshot, o: WriteOptions, r: WriteResult, t: Trace): Outcome
    requires Defaulted(o) && 0 < r.sourceSize < 0x8000_0000_0000_0000
  {
    match env.inspect(s.clock)
    case Failure(e) => Outcome(e, r, Ticked(s), t)
    case Success(planned) =>
      if ExceedsTarget(r.sourceSize, planned) then Outcome(SourceTooLarge, r, Ticked(s), t)
      else Hashing(env, Reported(Ticked(s), Prepare, 1, 1), o, r, t, planned)
  }

  function Hashing(env: Environment, s: Snapshot, o: WriteOptions, r: WriteResult, t: Trace, planned: TargetInfo)
    : Outcome
    requires Defaulted(o) && 0 < r.sourceSize < 0x8000_0000_0000_0000
  {
    var (data, next) := HashRegion(env, SourceSide, HashSource, s, r.sourceSize, o.bufferSize);
    match data
    case Failure(e) => Outcome(e, r, next, t)
    case Success(bytes) => Opening(env, next, o, r.(sourceSha256 := DigestOf(bytes)), t, planned)
  }

  function Opening(env: Environment, s: Snapshot, o: WriteOptions, r: WriteResult, t: Trace, planned: TargetInfo)
    : Outcome
    requires Defaulted(o) && 0 < r.sourceSize < 0x8000_0000_0000_0000
  {
    var next := s.(clock := s.clock + OpenTicks(env, s.clock, Token(planned), o));
    match OpenResult(env, s.clock, Token(planned), o)
    case Failure(e) => Outcome(e, r, next, t)
    case Success(file) => Resizing(env, next, o, r, t.(live := Live(env, s.clock)), file)
  }

  /** A regular file is made the source's size when asked to, or when it is shorter. */
  predicate Resizes(o: WriteOptions, size: nat, file: OpenFile) {
    !file.device && (o.truncateRegularFile || file.sizeBytes < size)
  }

  function Resizing(env: Environment, s: Snapshot, o: WriteOptions, r: WriteResult, t: Trace, file: OpenFile): Outcome
    requires Defaulted(o) && 0 < r.sourceSize < 0x8000_0000_0000_0000 && 0 < file.alignment
  {
    if !Resizes(o, r.sourceSize, file) then Buffering(env, s, o, r, t, file)
    else
      var next := Ticked(s).(mutations := s.mutations + 1);
      var status := env.resize(s.clock);
      if status != Ok then Outcome(status, r, next, t)
      else
        var resized := Resized(s.bytes, r.sourceSize);
        Buffering(env, next.(bytes := resized), o, r, t.(base := resized), file)
  }

  /** The write loop's parameters, unless the buffer size overflows. */
  function JobFor(o: WriteOptions, size: FileSize, file: OpenFile): Option<Job>
    requires 0 < file.alignment
  {
    var bufferSize := RoundUp(o.bufferSize, Max(file.alignment, MIN_BUFFER_ALIGNMENT));
    if bufferSize == 0 then None else Some(Job(size, bufferSize, file.device, file.alignment, o.writeRetries))
  }

  function Buffering(env: Environment, s: Snapshot, o: WriteOptions, r: WriteResult, t: Trace, file: OpenFile): Outcome
    requires Defaulted(o) && 0 < r.sourceSize < 0x8000_0000_0000_0000 && 0 < file.alignment
  {
    match JobFor(o, r.sourceSize, file)
    case None => Outcome(TooLarge, r, s, t)
    case Some(job) =>
      if !env.memory(s.clock) then Outcome(NoMemory, r, Ticked(s), t)
      else
        var start := Reported(Ticked(s), Write, 0, r.sourceSize);
        Writing(env, start, o, r, t.(job := Some(job), start := start), job)
  }

  function Writing(env: Environment, s: Snapshot, o: WriteOptions, r: WriteResult, t: Trace, job: Job): Outcome
    requires Defaulted(o) && job.Valid()
  {
    var (status, last) := Loop(env, job, LoopState(s, 0, [], 0));
    var written := r.(bytesWritten := last.offset, writeRetries := last.retries,
                      state := if last.offset > 0 then FailedPartialMedia else FailedBeforeWrite);
    var trace := t.(streamed := last.streamed);
    if status != Ok then Outcome(status, written, last.snapshot, trace)
    else if !Matches(last.streamed, r.sourceSha256) then Outcome(IdentityChanged, written, last.snapshot, trace)
    else Flushing(env, Reported(last.snapshot, Flush, 0, 1), o, written, trace)
  }

  function Flushing(env: Environment, s: Snapshot, o: WriteOptions, r: WriteResult, t: Trace): Outcome
    requires Defaulted(o)
  {
    if env.flush(s.clock) != Ok then Outcome(env.flush(s.clock), r, Ticked(s), t.(flush := Some(env.flush(s.clock))))
    else Verifying(env, Reported(Ticked(s), Flush, 1, 1), o, r, t.(flush := Some(Ok)))
  }

  function Finished(s: Snapshot, r: WriteResult, state: FinalState, t: Trace): Outcome {
    Outcome(Ok, r.(state := state), Reported(s, Complete, 1, 1), t)
  }

  function Verifying(env: Environment, s: Snapshot, o: WriteOptions, r: WriteResult, t: Trace): Outcome
    requires Defaulted(o)
  {
    if o.verifyMode == VerifyNone then Finished(s, r, SuccessUnverified, t)
    else
      var v := VerifyImage(env, s, o, r.sourceSha256);
      var verified := r.(bytesVerified := v.verified, mismatches := v.mismatches, targetSha256 := v.digest);
      var trace := t.(reopened := Some(s), readback := v.readback);
      if v.status != Ok then Outcome(v.status, verified.(state := VerificationFailed), v.snapshot, trace)
      else Finished(v.snapshot, verified, SuccessVerified, trace)
  }

  datatype Verification = Verification(
    status: Status,
    verified: nat,
    mismatches: nat,
    digest: Digest,
    readback: Option<seq<Byte>>,
    snapshot: Snapshot)

  function Unverified(status: Status, s: Snapshot): Verification {
    Verification(status, 0, 0, Zeros(32), None, s)
  }

  /** Verification with the source digest already known; both files are opened anew. */
  function VerifyImage(env: Environment, s: Snapshot, o: WriteOptions, known: Digest): Verification
    requires Defaulted(o)
  {
    match env.openSource(s.clock)
    case Failure(e) => Unverified(e, Ticked(s))
    case Success(size) =>
      match env.openReadback(s.clock + 1)
      case Failure(e) => Unverified(e, Ticked(Ticked(s)))
      case Success(target) =>
        if target != 0 && target < size then Unverified(TooSmall, Ticked(Ticked(s)))
        else if o.verifyMode == VerifyNone then Unverified(Ok, Ticked(Ticked(s)))
        else if o.verifyMode == VerifySample then SampleCheck(env, Ticked(Ticked(s)), size, o.sampleCount, known)
        else FullCheck(env, Ticked(Ticked(s)), size, o.bufferSize, known)
  }

  function SampleCheck(env: Environment, s: Snapshot, size: nat, samples: U32, known: Digest): Verification {
    var (sampled, next) := SampleFiles(env, s, size, known, samples);
    Verification(sampled.status, sampled.verified, sampled.mismatches, Zeros(32), None, next)
  }

  /** Reads back as many bytes as the reopened source has and compares digests. */
  function FullCheck(env: Environment, s: Snapshot, size: nat, block: U64, known: Digest): Verification
    requires 0 < block
  {
    var (data, next) := HashRegion(env, TargetSide, Verify, s, size, block);
    match data
    case Failure(e) => Unverified(e, next)
    case Success(bytes) =>
      var equal := Matches(bytes, known);
      Verification(if equal then Ok else VerifyMismatch, size, if equal then 0 else 1, DigestOf(bytes), Some(bytes), next)
  }
}
