/**
 "Failed before write" over the inputs of a call: for which options, image, target and medium can a run
 end in that state with the medium changed, and for which with a byte accepted, whatever the system does.
 */
module BeforeWriteInputs {
  import opened Bytes
  import opened Arithmetic
  import opened Status
  import opened Fips180
  import opened Device
  import opened Io
  import opened Targets
  import opened WriteLoop
  import opened WriteTheorems
  import opened Readback
  import opened ReadbackTheorems
  import opened Pipeline
  import opened PipelineTheorems
  import opened BeforeWrite
  import opened Progress

  /** Image and target are these at every tick; transfers, memory, resize, open and flush are free. */
  ghost predicate Follows(env: Environment, content: seq<Byte>, target: TargetInfo) {
    forall t: nat ::
      && env.openSource(t).Success? && env.openSource(t).value == |content| && env.source(t) == content
      && env.inspect(t) == Success(target)
  }

  /** The guards a run passes before it may touch the target. */
  predicate Admitted(o: WriteOptions, size: FileSize, target: TargetInfo) {
    && 0 < size && !ExceedsTarget(size, target)
    && RoundUp(o.bufferSize, SOURCE_ALIGNMENT) != 0 && Authorized(target, o)
  }

  /** The resize changes what the file held. */
  predicate ResizeShows(o: WriteOptions, size: nat, target: TargetInfo, before: seq<Byte>) {
    Resizes(o, size, Opened(target)) && |before| != size
  }

  /** The first chunk as it is written. */
  function FirstChunk(job: Job, content: seq<Byte>): Option<seq<Byte>>
    requires job.Valid() && job.size == |content|
  {
    var wanted := Min(job.size, job.bufferSize);
    match WriteLength(job, wanted)
    case None => None
    case Some(length) => Some(content[..wanted] + Zeros(Max(0, length - wanted)))
  }

  /** As much of it as there is room for: a device cannot grow. */
  function Movable(job: Job, chunk: seq<Byte>, before: seq<Byte>): seq<Byte> {
    chunk[..if job.device then Min(|chunk|, |before|) else |chunk|]
  }

  /** What attempts at the first chunk can move at most; None if there are no attempts. */
  function FirstWrite(o: WriteOptions, content: seq<Byte>, target: TargetInfo, before: seq<Byte>): Option<seq<Byte>>
    requires Defaulted(o) && 0 < |content| < 0x8000_0000_0000_0000
  {
    match JobFor(o, |content|, Opened(target))
    case None => None
    case Some(job) =>
      match FirstChunk(job, content)
      case None => None
      case Some(chunk) => Some(Movable(job, chunk, before))
  }

  /** The exact condition, from the inputs alone. */
  predicate MayLeaveMark(o: WriteOptions, content: seq<Byte>, target: TargetInfo, before: seq<Byte>)
    requires Defaulted(o) && |content| < 0x8000_0000_0000_0000
  {
    && Admitted(o, |content|, target)
    && (ResizeShows(o, |content|, target, before)
        || (FirstWrite(o, content, target, before).Some? && !(FirstWrite(o, content, target, before).value <= before)))
  }

  // From a run to its inputs.

  /** What a run's trace owes to its inputs. */
  ghost predicate Known(o: WriteOptions, content: seq<Byte>, target: TargetInfo, before: seq<Byte>, out: Outcome) {
    && |content| < 0x8000_0000_0000_0000
    && (out.trace.base != before || out.trace.job.Some? ==> Admitted(o, |content|, target))
    && BaseIs(o, |content|, Opened(target), before, out.trace.base)
    && (out.trace.job.Some? ==>
          && 0 < Opened(target).alignment && out.trace.job == JobFor(o, |content|, Opened(target))
          && out.trace.start.bytes == out.trace.base)
  }

  lemma WritingKeeps(env: Environment, s: Snapshot, o: WriteOptions, r: WriteResult, t: Trace, job: Job)
    requires Defaulted(o) && job.Valid()
    ensures var trace := Writing(env, s, o, r, t, job).trace;
            trace.base == t.base && trace.start == t.start && trace.job == t.job
  {
    hide VerifyImage, Loop, Matches;
  }

  lemma BufferingKnown(env: Environment, s: Snapshot, o: WriteOptions, r: WriteResult, t: Trace, target: TargetInfo,
                       content: seq<Byte>, before: seq<Byte>)
    requires Defaulted(o) && 0 < r.sourceSize == |content| < 0x8000_0000_0000_0000 && Admitted(o, |content|, target)
    requires t.base == s.bytes && t.job.None? && BaseIs(o, |content|, Opened(target), before, s.bytes)
    ensures Known(o, content, target, before, Buffering(env, s, o, r, t, Opened(target)))
  {
    hide Writing, RoundUp, Authorized, ExceedsTarget, BaseIs;
    var file := Opened(target);
    if JobFor(o, r.sourceSize, file).Some? && env.memory(s.clock) {
      var job := JobFor(o, r.sourceSize, file).value;
      var start := Reported(Ticked(s), Write, 0, r.sourceSize);
      WritingKeeps(env, start, o, r, t.(job := Some(job), start := start), job);
    }
  }

  lemma OpeningKnown(env: Environment, s: Snapshot, o: WriteOptions, r: WriteResult, t: Trace, target: TargetInfo,
                     content: seq<Byte>)
    requires Defaulted(o) && 0 < r.sourceSize == |content| < 0x8000_0000_0000_0000 && Follows(env, content, target)
    requires !ExceedsTarget(|content|, target) && RoundUp(o.bufferSize, SOURCE_ALIGNMENT) != 0
    requires t.base == s.bytes && t.job.None?
    ensures Known(o, content, target, s.bytes, Opening(env, s, o, r, t, target))
  {
    hide Buffering, Token, Resized, Authorized, OpenDecision, RoundUp, ExceedsTarget;
    assert env.inspect(s.clock) == Success(target);
    var file := Opened(target);
    DecisionMeansAuthorized(target, Token(target), o);
    if OpenResult(env, s.clock, Token(target), o).Success? {
      var next := s.(clock := s.clock + OpenTicks(env, s.clock, Token(target), o));
      var live := t.(live := Live(env, s.clock));
      BufferingKnown(env, next, o, r, live, target, content, s.bytes);
      if Resizes(o, r.sourceSize, file) {
        var resized := Resized(s.bytes, r.sourceSize);
        BufferingKnown(env, Ticked(next).(mutations := next.mutations + 1, bytes := resized), o, r,
                       live.(base := resized), target, content, s.bytes);
      }
    }
  }

  lemma RunKnown(env: Environment, s: Snapshot, options: WriteOptions, content: seq<Byte>, target: TargetInfo)
    requires Follows(env, content, target)
    ensures Known(Defaults(options), content, target, s.bytes, RunWrite(env, s, options))
  {
    hide Opening, HashRegion, Sha256, Orderly, Authorized, ExceedsTarget, RoundUp;
    var o := Defaults(options);
    var s1 := Reported(s.(events := []), Prepare, 0, 1);
    var t := Trace(None, s.bytes, s, None, [], None, None, None);
    assert env.openSource(s.clock) == Success(|content|) && env.inspect(s.clock + 1) == Success(target);
    if content != [] && !ExceedsTarget(|content|, target) {
      var s2 := Reported(Ticked(Ticked(s1)), Prepare, 1, 1);
      var (data, next) := HashRegion(env, SourceSide, HashSource, s2, |content|, o.bufferSize);
      HashNeedsBuffer(env, s2, |content|, o.bufferSize);
      if data.Success? {
        var r := NO_RESULT.(sourceSize := |content|, sourceSha256 := DigestOf(data.value));
        OpeningKnown(env, next, o, r, t, target, content);
      }
    }
  }

  lemma HashNeedsBuffer(env: Environment, s: Snapshot, length: nat, block: U64)
    requires 0 < block
    ensures var (r, last) := HashRegion(env, SourceSide, HashSource, s, length, block);
            && last.bytes == s.bytes && last.mutations == s.mutations
            && (r.Success? ==> RoundUp(block, SOURCE_ALIGNMENT) != 0)
  {
    hide ReadRegion, RoundUp;
    RegionFrame(env, SourceSide, HashSource, Reported(Ticked(s), HashSource, 0, length), length, block, 0, []);
  }

  /** Attempts never move more than there is room for. */
  lemma {:induction false} MostAcceptedInRoom(env: Environment, job: Job, data: seq<Byte>, left: nat, s: Snapshot)
    ensures job.device ==> MostAccepted(env, job, data, 0, left, s) <= |s.bytes|
    decreases left
  {
    if left > 0 {
      MostAcceptedInRoom(env, job, data, left - 1, AttemptOnce(env, job, data, 0, s));
    }
  }

  /** What the first chunk's attempts leave is a part of what they could move. */
  lemma ResidueIsMovable(env: Environment, job: Job, s: Snapshot, content: seq<Byte>)
    requires job.Valid() && job.size == |content| && env.source(s.clock) == content
    ensures var residue := Residue(env, job, s);
            residue == [] || (FirstChunk(job, content).Some?
                              && residue <= Movable(job, FirstChunk(job, content).value, s.bytes))
  {
    hide MostAccepted, WriteLength;
    var wanted := Min(job.size, job.bufferSize);
    var read := ReadResult(env.source(s.clock), env.transfer(s.clock), wanted, 0);
    if read.Success? && |read.value| == wanted && WriteLength(job, wanted).Some? {
      assert read.value == content[..wanted];
      var chunk := FirstChunk(job, content).value;
      MostAcceptedInRoom(env, job, chunk, job.retries, s.(clock := s.clock + 1));
    }
  }

  lemma ResizedSame(before: seq<Byte>)
    ensures Resized(before, |before|) == before
  {
  }

  /** A run that did leave a mark meets the condition. */
  lemma MarkNeedsInputs(env: Environment, s: Snapshot, options: WriteOptions, content: seq<Byte>, target: TargetInfo)
    requires Follows(env, content, target) && |content| < 0x8000_0000_0000_0000
    requires Marks(env, s, options)
    ensures MayLeaveMark(Defaults(options), content, target, s.bytes)
  {
    hide RunWrite, Residue, Authorized, RoundUp, Resized, ExceedsTarget, Movable, FirstChunk;
    var o, out := Defaults(options), RunWrite(env, s, options);
    RunKnown(env, s, options, content, target);
    UntouchedExactly(env, s, options);
    ResizedSame(s.bytes);
    if out.trace.base == s.bytes {
      ResidueNeedsInputs(env, s, options, content, target);
      var residue := Residue(env, out.trace.job.value, out.trace.start);
      assert residue != [] && !(residue <= s.bytes);
    }
  }

  /** A byte was accepted by an attempt at the first chunk. */
  ghost predicate AcceptsSome(env: Environment, out: Outcome) {
    out.trace.job.Some? && out.trace.job.value.Valid() && Residue(env, out.trace.job.value, out.trace.start) != []
  }

  /** What a run in this state leaves behind is a part of what its inputs let it move. */
  lemma ResidueNeedsInputs(env: Environment, s: Snapshot, options: WriteOptions, content: seq<Byte>, target: TargetInfo)
    requires Follows(env, content, target) && |content| < 0x8000_0000_0000_0000
    ensures var o, out := Defaults(options), RunWrite(env, s, options);
            AcceptsSome(env, out) ==>
              && Admitted(o, |content|, target) && FirstWrite(o, content, target, s.bytes).Some?
              && Residue(env, out.trace.job.value, out.trace.start) <= FirstWrite(o, content, target, s.bytes).value
  {
    hide RunWrite, Residue, Authorized, RoundUp, Resized, ExceedsTarget, FirstChunk;
    var o, out := Defaults(options), RunWrite(env, s, options);
    RunKnown(env, s, options, content, target);
    if AcceptsSome(env, out) {
      assert env.source(out.trace.start.clock) == content;
      ResidueIsMovable(env, out.trace.job.value, out.trace.start, content);
    }
  }

  /** A run ends in this state with the medium changed. */
  ghost predicate Marks(env: Environment, s: Snapshot, options: WriteOptions) {
    var out := RunWrite(env, s, options);
    out.result.state == FailedBeforeWrite && out.snapshot.bytes != s.bytes
  }

  // From the inputs to a run.

  /** The system behaves until the given ticks; then transfers fail after any number of bytes, and memory is out. */
  function Failing(content: seq<Byte>, target: TargetInfo, transfers: nat, memory: nat): Environment
    requires |content| < 0x8000_0000_0000_0000
  {
    Environment(
      openSource := t => Success(|content|),
      source := t => content,
      inspect := t => Success(target),
      openTarget := t => Ok,
      resize := t => Ok,
      flush := t => Ok,
      transfer := t => if t < transfers then Moved(U64_MAX) else Fault(U64_MAX),
      openReadback := t => Success(|content|),
      readback := (t, bytes) => bytes,
      memory := t => t < memory)
  }

  /** How many blocks a region is read in. */
  function Blocks(length: nat, block: nat, offset: nat): nat
    requires offset <= length && 0 < block
    decreases length - offset
  {
    if offset == length then 0 else 1 + Blocks(length, block, offset + Min(length - offset, block))
  }

  /** While transfers are complete, a region takes one tick a block. */
  lemma {:induction false} RegionTicks(env: Environment, s: Snapshot, length: nat, block: nat, offset: nat,
                                       content: seq<Byte>)
    requires offset <= length == |content| <= U64_MAX && 0 < block && forall t: nat :: env.source(t) == content
    requires forall t: nat :: t < s.clock + Blocks(length, block, offset) ==> env.transfer(t) == Moved(U64_MAX)
    ensures var (r, last) := ReadRegion(env, SourceSide, HashSource, s, length, block, offset, content[..offset]);
            && r == Success(content) && last.clock == s.clock + Blocks(length, block, offset)
            && last.bytes == s.bytes && last.mutations == s.mutations
    decreases length - offset
  {
    if offset < length {
      var wanted := Min(length - offset, block);
      assert env.transfer(s.clock) == Moved(U64_MAX);
      assert content[..offset] + Window(content, offset, wanted) == content[..offset + wanted];
      RegionTicks(env, Reported(Ticked(s), HashSource, offset + wanted, length), length, block, offset + wanted, content);
    } else {
      assert content[..offset] == content;
    }
  }

  lemma HashTicks(env: Environment, s: Snapshot, block: U64, content: seq<Byte>)
    requires 0 < block && RoundUp(block, SOURCE_ALIGNMENT) != 0 && |content| <= U64_MAX
    requires env.memory(s.clock) && forall t: nat :: env.source(t) == content
    requires forall t: nat :: t < s.clock + 1 + Blocks(|content|, block, 0) ==> env.transfer(t) == Moved(U64_MAX)
    ensures var (r, last) := HashRegion(env, SourceSide, HashSource, s, |content|, block);
            && r == Success(content) && last.clock == s.clock + 1 + Blocks(|content|, block, 0)
            && last.bytes == s.bytes && last.mutations == s.mutations
  {
    hide ReadRegion, RoundUp;
    assert content[..0] == [];
    RegionTicks(env, Reported(Ticked(s), HashSource, 0, |content|), |content|, block, 0, content);
  }

  /** When every attempt fails after whatever there is room for, the loop stops with just that on the medium. */
  lemma LoopFails(env: Environment, job: Job, s: Snapshot, content: seq<Byte>)
    requires job.Valid() && job.size == |content| && env.source(s.clock) == content && FirstChunk(job, content).Some?
    requires env.transfer(s.clock) == Moved(U64_MAX)
    requires forall t: nat :: t > s.clock ==> env.transfer(t) == Fault(U64_MAX)
    ensures var (status, last) := Loop(env, job, LoopState(s, 0, [], 0));
            && status == IoFailed && last.offset == 0
            && Residue(env, job, s) == Movable(job, FirstChunk(job, content).value, s.bytes)
  {
    hide Attempts, MostAccepted, WriteLength, RoundUp;
    var wanted := Min(job.size, job.bufferSize);
    var start := s.(clock := s.clock + 1);
    var chunk := FirstChunk(job, content).value;
    assert Window(content, 0, wanted) == content[..wanted];
    AttemptsFail(env, job, chunk, job.retries, start);
    ChunkLength(job, content);
    FirstAttemptMoves(env, job, chunk, job.retries, start);
  }

  /** A loop that gets as far as the first chunk attempts to write it. */
  lemma ChunkIsAttempted(env: Environment, job: Job, s: Snapshot, content: seq<Byte>)
    requires job.Valid() && job.size == |content| && env.source(s.clock) == content && FirstChunk(job, content).Some?
    requires env.transfer(s.clock) == Moved(U64_MAX) && Loop(env, job, LoopState(s, 0, [], 0)).1.offset == 0
    ensures Loop(env, job, LoopState(s, 0, [], 0)).1.snapshot.mutations > s.mutations
  {
    hide Attempts, MostAccepted, WriteLength, RoundUp, Step, Overlay;
    var st := LoopState(s, 0, [], 0);
    var (status, next) := Step(env, job, st);
    FirstStepAttempts(env, job, s, content);
    if status == Ok {
      StepAdvances(env, job, st);
      OffsetsGrow(env, job, next);
    }
  }

  /** The first iteration is not stopped before its attempts. */
  lemma FirstStepAttempts(env: Environment, job: Job, s: Snapshot, content: seq<Byte>)
    requires job.Valid() && job.size == |content| && env.source(s.clock) == content && FirstChunk(job, content).Some?
    requires env.transfer(s.clock) == Moved(U64_MAX)
    ensures Step(env, job, LoopState(s, 0, [], 0)).1.snapshot.mutations > s.mutations
  {
    hide Attempts, MostAccepted, WriteLength, RoundUp, Overlay;
    var wanted := Min(job.size, job.bufferSize);
    assert Window(content, 0, wanted) == content[..wanted];
    AttemptsEffect(env, job, FirstChunk(job, content).value, 0, job.retries, s.(clock := s.clock + 1));
  }

  lemma ChunkLength(job: Job, content: seq<Byte>)
    requires job.Valid() && job.size == |content| && FirstChunk(job, content).Some?
    ensures 0 < |FirstChunk(job, content).value| <= U64_MAX
  {
    hide RoundUp;
  }

  lemma {:induction false} AttemptsFail(env: Environment, job: Job, data: seq<Byte>, left: nat, s: Snapshot)
    requires forall t: nat :: t >= s.clock ==> env.transfer(t) == Fault(U64_MAX)
    ensures !Attempts(env, job, data, 0, left, s).0
    decreases left
  {
    if left > 0 {
      AttemptsFail(env, job, data, left - 1, AttemptOnce(env, job, data, 0, s));
    }
  }

  lemma FirstAttemptMoves(env: Environment, job: Job, data: seq<Byte>, left: nat, s: Snapshot)
    requires 0 < left && |data| <= U64_MAX && env.transfer(s.clock) == Fault(U64_MAX)
    ensures MostAccepted(env, job, data, 0, left, s) == if job.device then Min(|data|, |s.bytes|) else |data|
  {
    MostAcceptedInRoom(env, job, data, left, s);
  }

  /** The run stops in this state, after an attempt, with `moved` over the start of `base`. */
  ghost predicate StopsWith(env: Environment, s: Snapshot, out: Outcome, base: seq<Byte>, moved: seq<Byte>) {
    && out.snapshot.mutations > s.mutations
    && out.result.state == FailedBeforeWrite && out.trace.job.Some? && out.trace.job.value.Valid()
    && Residue(env, out.trace.job.value, out.trace.start) == moved
    && out.snapshot.bytes == Overlay(base, 0, moved)
  }

  /** Memory and one read succeed from tick `tick` on, then every transfer fails. */
  ghost predicate FailsAfterRead(env: Environment, tick: nat) {
    && env.memory(tick) && env.transfer(tick + 1) == Moved(U64_MAX)
    && forall t: nat :: t > tick + 1 ==> env.transfer(t) == Fault(U64_MAX)
  }

  lemma BufferingStops(env: Environment, s: Snapshot, o: WriteOptions, r: WriteResult, t: Trace, target: TargetInfo,
                       content: seq<Byte>)
    requires Defaulted(o) && 0 < r.sourceSize == |content| < 0x8000_0000_0000_0000 && env.source(s.clock + 1) == content
    requires FailsAfterRead(env, s.clock) && FirstWrite(o, content, target, s.bytes).Some?
    ensures StopsWith(env, s, Buffering(env, s, o, r, t, Opened(target)), s.bytes,
                      FirstWrite(o, content, target, s.bytes).value)
  {
    hide Loop, RoundUp, Flushing, Matches, Residue, Overlay, FirstChunk, Movable;
    var job := JobFor(o, |content|, Opened(target)).value;
    var start := Reported(Ticked(s), Write, 0, r.sourceSize);
    LoopFails(env, job, start, content);
    ChunkIsAttempted(env, job, start, content);
    FirstChunkResidue(env, job, start);
  }

  lemma OpeningStops(env: Environment, s: Snapshot, o: WriteOptions, r: WriteResult, t: Trace, planned: TargetInfo,
                     target: TargetInfo, content: seq<Byte>)
    requires Defaulted(o) && 0 < r.sourceSize == |content| < 0x8000_0000_0000_0000
    requires env.inspect(s.clock) == Success(target) && Token(target) == Token(planned) && Authorized(target, o)
    requires FirstWrite(o, content, target, s.bytes).Some? && forall t: nat :: env.source(t) == content
    requires env.openTarget(s.clock + 1) == Ok && env.resize(s.clock + 2) == Ok
    requires FailsAfterRead(env, s.clock + 2 + if Resizes(o, |content|, Opened(target)) then 1 else 0)
    ensures StopsWith(env, s, Opening(env, s, o, r, t, planned), LoopBase(o, |content|, target, s.bytes),
                      FirstWrite(o, content, target, s.bytes).value)
    ensures Opening(env, s, o, r, t, planned).trace.live == Some(target)
  {
    hide Buffering, Token, Resized, Authorized, OpenDecision, RoundUp, FailsAfterRead, FirstChunk, JobFor, Residue, Overlay;
    DecisionMeansAuthorized(target, Token(planned), o);
    var next := s.(clock := s.clock + 2);
    var live := t.(live := Live(env, s.clock));
    if Resizes(o, |content|, Opened(target)) {
      var resized := Resized(s.bytes, |content|);
      var after := Ticked(next).(mutations := next.mutations + 1, bytes := resized);
      FileWrite(o, content, target, s.bytes, resized);
      BufferingStops(env, after, o, r, live.(base := resized), target, content);
      BufferingKeepsLive(env, after, o, r, live.(base := resized), Opened(target));
    } else {
      BufferingStops(env, next, o, r, live, target, content);
      BufferingKeepsLive(env, next, o, r, live, Opened(target));
    }
  }

  lemma BufferingKeepsLive(env: Environment, s: Snapshot, o: WriteOptions, r: WriteResult, t: Trace, file: OpenFile)
    requires Defaulted(o) && 0 < r.sourceSize < 0x8000_0000_0000_0000 && 0 < file.alignment
    ensures Buffering(env, s, o, r, t, file).trace.live == t.live
  {
    hide VerifyImage, Loop, Matches, RoundUp;
  }

  /** What can be moved to a file does not depend on what it holds. */
  lemma FileWrite(o: WriteOptions, content: seq<Byte>, target: TargetInfo, before: seq<Byte>, base: seq<Byte>)
    requires Defaulted(o) && 0 < |content| < 0x8000_0000_0000_0000 && !Opened(target).device
    ensures FirstWrite(o, content, target, before) == FirstWrite(o, content, target, base)
  {
    hide RoundUp, FirstChunk;
  }

  /** The tick at which the write buffer is allocated, if the system behaved until then. */
  function BufferTick(s: Snapshot, o: WriteOptions, content: seq<Byte>, target: TargetInfo): nat
    requires Defaulted(o)
  {
    OpenTick(s, o, content) + 2 + if Resizes(o, |content|, Opened(target)) then 1 else 0
  }

  /** The image at every tick; opens and resizes succeed, memory and transfers do until the given ticks. */
  ghost predicate Behaves(env: Environment, content: seq<Byte>, transfers: nat, memory: nat) {
    forall t: nat ::
      && env.openSource(t).Success? && env.openSource(t).value == |content| && env.source(t) == content
      && env.openTarget(t) == Ok && env.resize(t) == Ok && (env.memory(t) <==> t < memory)
      && env.transfer(t) == if t < transfers then Moved(U64_MAX) else Fault(U64_MAX)
  }

  /** The tick at which the target is inspected for the open, if the system behaved until then. */
  function OpenTick(s: Snapshot, o: WriteOptions, content: seq<Byte>): nat
    requires Defaulted(o)
  {
    s.clock + 3 + Blocks(|content|, o.bufferSize, 0)
  }

  /** What the writer inspects: the planned target first, another one of the same token at the open. */
  ghost predicate Presents(env: Environment, s: Snapshot, o: WriteOptions, content: seq<Byte>, planned: TargetInfo,
                           target: TargetInfo)
    requires Defaulted(o)
  {
    && |content| < 0x8000_0000_0000_0000
    && 0 < |content| && !ExceedsTarget(|content|, planned) && RoundUp(o.bufferSize, SOURCE_ALIGNMENT) != 0
    && env.inspect(s.clock + 1) == Success(planned) && env.inspect(OpenTick(s, o, content)) == Success(target)
    && Token(target) == Token(planned) && Authorized(target, o)
  }

  /** A run that is let through and whose transfers fail once the first chunk is read. */
  lemma WriterStops(env: Environment, s: Snapshot, options: WriteOptions, content: seq<Byte>, planned: TargetInfo,
                    target: TargetInfo)
    requires var o := Defaults(options); Presents(env, s, o, content, planned, target)
    requires var o := Defaults(options);
             var tick := BufferTick(s, o, content, target);
             FirstWrite(o, content, target, s.bytes).Some? && Behaves(env, content, tick + 2, tick + 2)
    ensures var o, out := Defaults(options), RunWrite(env, s, options);
            && StopsWith(env, s, out, LoopBase(o, |content|, target, s.bytes), FirstWrite(o, content, target, s.bytes).value)
            && out.trace.live == Some(target)
  {
    hide Opening, HashRegion, Sha256, Authorized, ExceedsTarget, RoundUp, StopsWith, FirstWrite, LoopBase, Token;
    var o := Defaults(options);
    var s2 := Reported(Ticked(Ticked(Reported(s.(events := []), Prepare, 0, 1))), Prepare, 1, 1);
    assert env.openSource(s.clock) == Success(|content|);
    HashTicks(env, s2, o.bufferSize, content);
    var next := HashRegion(env, SourceSide, HashSource, s2, |content|, o.bufferSize).1;
    var r := NO_RESULT.(sourceSize := |content|, sourceSha256 := DigestOf(content));
    OpeningStops(env, next, o, r, Trace(None, s.bytes, s, None, [], None, None, None), planned, target, content);
    StopsKept(env, s, next, RunWrite(env, s, options), LoopBase(o, |content|, target, s.bytes),
              FirstWrite(o, content, target, s.bytes).value);
  }

  lemma StopsKept(env: Environment, s: Snapshot, next: Snapshot, out: Outcome, base: seq<Byte>, moved: seq<Byte>)
    requires StopsWith(env, next, out, base, moved) && next.mutations == s.mutations
    ensures StopsWith(env, s, out, base, moved)
  {
  }

  /** A run of admitted inputs whose transfers fail once the first chunk is read. */
  lemma RunStops(s: Snapshot, options: WriteOptions, content: seq<Byte>, target: TargetInfo)
    requires |content| < 0x8000_0000_0000_0000 && Admitted(Defaults(options), |content|, target)
    requires FirstWrite(Defaults(options), content, target, s.bytes).Some?
    ensures var o, tick := Defaults(options), BufferTick(s, Defaults(options), content, target);
            var env := Failing(content, target, tick + 2, tick + 2);
            && Follows(env, content, target)
            && StopsWith(env, s, RunWrite(env, s, options), LoopBase(o, |content|, target, s.bytes),
                         FirstWrite(o, content, target, s.bytes).value)
  {
    hide RunWrite, Authorized, ExceedsTarget, RoundUp, StopsWith, FirstWrite, LoopBase, Token;
    var tick := BufferTick(s, Defaults(options), content, target);
    WriterStops(Failing(content, target, tick + 2, tick + 2), s, options, content, target, target);
  }

  lemma OpeningResizesOnly(env: Environment, s: Snapshot, o: WriteOptions, r: WriteResult, t: Trace, planned: TargetInfo,
                           target: TargetInfo)
    requires Defaulted(o) && 0 < r.sourceSize < 0x8000_0000_0000_0000 && r.state == FailedBeforeWrite
    requires env.inspect(s.clock) == Success(target) && Token(target) == Token(planned) && Authorized(target, o)
    requires Resizes(o, r.sourceSize, Opened(target))
    requires env.openTarget(s.clock + 1) == Ok && env.resize(s.clock + 2) == Ok && !env.memory(s.clock + 3)
    ensures var out := Opening(env, s, o, r, t, planned);
            && out.result.state == FailedBeforeWrite && out.snapshot.bytes == Resized(s.bytes, r.sourceSize)
            && out.snapshot.mutations == s.mutations + 1 && out.trace.live == Some(target)
  {
    hide Token, Resized, Authorized, OpenDecision, RoundUp, Writing;
    DecisionMeansAuthorized(target, Token(planned), o);
  }

  /** A run that is let through and is out of memory after the resize. */
  lemma WriterResizesOnly(env: Environment, s: Snapshot, options: WriteOptions, content: seq<Byte>, planned: TargetInfo,
                          target: TargetInfo)
    requires var o := Defaults(options); Presents(env, s, o, content, planned, target)
    requires var o := Defaults(options);
             Resizes(o, |content|, Opened(target)) && Behaves(env, content, OpenTick(s, o, content), s.clock + 3)
    ensures var out := RunWrite(env, s, options);
            && out.result.state == FailedBeforeWrite && out.snapshot.bytes == Resized(s.bytes, |content|)
            && out.snapshot.mutations == s.mutations + 1 && out.trace.live == Some(target)
  {
    hide Opening, HashRegion, Sha256, Authorized, ExceedsTarget, RoundUp, Token;
    var o := Defaults(options);
    var s2 := Reported(Ticked(Ticked(Reported(s.(events := []), Prepare, 0, 1))), Prepare, 1, 1);
    assert env.openSource(s.clock) == Success(|content|);
    HashTicks(env, s2, o.bufferSize, content);
    var next := HashRegion(env, SourceSide, HashSource, s2, |content|, o.bufferSize).1;
    var r := NO_RESULT.(sourceSize := |content|, sourceSha256 := DigestOf(content));
    OpeningResizesOnly(env, next, o, r, Trace(None, s.bytes, s, None, [], None, None, None), planned, target);
  }

  /** A run of admitted inputs that is out of memory after the resize. */
  lemma RunResizesOnly(s: Snapshot, options: WriteOptions, content: seq<Byte>, target: TargetInfo)
    requires |content| < 0x8000_0000_0000_0000 && Admitted(Defaults(options), |content|, target)
    requires ResizeShows(Defaults(options), |content|, target, s.bytes)
    ensures var env := Failing(content, target, OpenTick(s, Defaults(options), content), s.clock + 3);
            Follows(env, content, target) && Marks(env, s, options)
  {
    hide RunWrite, Authorized, ExceedsTarget, RoundUp, Token;
    WriterResizesOnly(Failing(content, target, OpenTick(s, Defaults(options), content), s.clock + 3), s, options, content,
                      target, target);
  }

  lemma InputsLeaveMark(s: Snapshot, options: WriteOptions, content: seq<Byte>, target: TargetInfo)
    requires |content| < 0x8000_0000_0000_0000 && MayLeaveMark(Defaults(options), content, target, s.bytes)
    ensures exists env :: Follows(env, content, target) && Marks(env, s, options)
  {
    hide RunWrite, FirstWrite, Overlay, Residue, RoundUp, Authorized, ExceedsTarget;
    var o := Defaults(options);
    if ResizeShows(o, |content|, target, s.bytes) {
      RunResizesOnly(s, options, content, target);
    } else {
      RunStops(s, options, content, target);
      ResizedSame(s.bytes);
      ResidueIsVisible(s.bytes, FirstWrite(o, content, target, s.bytes).value);
    }
  }

  /**
   Some run with this image, target and medium ends in "failed before write" with the medium changed
   exactly when the guards let it through and either the resize changes the file's size or the first
   chunk, as far as there is room for it, is not already there.
   */
  lemma MarkedExactly(s: Snapshot, options: WriteOptions, content: seq<Byte>, target: TargetInfo)
    requires |content| < 0x8000_0000_0000_0000
    ensures (exists env :: Follows(env, content, target) && Marks(env, s, options)) <==>
            MayLeaveMark(Defaults(options), content, target, s.bytes)
  {
    hide Marks, Follows, MayLeaveMark;
    if MayLeaveMark(Defaults(options), content, target, s.bytes) {
      InputsLeaveMark(s, options, content, target);
    }
    forall env | Follows(env, content, target) && Marks(env, s, options)
      ensures MayLeaveMark(Defaults(options), content, target, s.bytes)
    {
      MarkNeedsInputs(env, s, options, content, target);
    }
  }

  // The documented wording: no byte was accepted.

  /** A run ends in this state although an attempt had bytes accepted. */
  ghost predicate AcceptsBytes(env: Environment, s: Snapshot, options: WriteOptions) {
    RunWrite(env, s, options).result.state == FailedBeforeWrite && AcceptsSome(env, RunWrite(env, s, options))
  }

  /**
   Some run ends in "failed before write" after a byte was accepted exactly when the guards let it
   through, the first chunk can be written at all, and a device has room for a byte: the documented
   wording holds for no inputs that reach the write loop.
   */
  lemma AcceptedExactly(s: Snapshot, options: WriteOptions, content: seq<Byte>, target: TargetInfo)
    requires |content| < 0x8000_0000_0000_0000
    ensures (exists env :: Follows(env, content, target) && AcceptsBytes(env, s, options)) <==>
            && Admitted(Defaults(options), |content|, target)
            && FirstWrite(Defaults(options), content, target, s.bytes).Some?
            && (Opened(target).device ==> s.bytes != [])
  {
    hide RunWrite, Residue, Follows, Failing, LoopBase, RoundUp, Authorized, ExceedsTarget;
    var o := Defaults(options);
    forall env | Follows(env, content, target) && AcceptsBytes(env, s, options)
      ensures Admitted(o, |content|, target) && FirstWrite(o, content, target, s.bytes).Some?
              && FirstWrite(o, content, target, s.bytes).value != []
    {
      ResidueNeedsInputs(env, s, options, content, target);
    }
    if 0 < |content| && FirstWrite(o, content, target, s.bytes).Some? {
      FirstWriteLength(o, content, target, s.bytes);
    }
    if Admitted(o, |content|, target) && FirstWrite(o, content, target, s.bytes).Some? {
      RunStops(s, options, content, target);
      var tick := BufferTick(s, o, content, target);
      assert (Opened(target).device ==> s.bytes != []) ==>
               AcceptsBytes(Failing(content, target, tick + 2, tick + 2), s, options);
    }
  }

  lemma FirstWriteLength(o: WriteOptions, content: seq<Byte>, target: TargetInfo, before: seq<Byte>)
    requires Defaulted(o) && 0 < |content| < 0x8000_0000_0000_0000 && FirstWrite(o, content, target, before).Some?
    ensures FirstWrite(o, content, target, before).value == [] <==> Opened(target).device && before == []
  {
    hide RoundUp, FirstChunk;
    ChunkLength(JobFor(o, |content|, Opened(target)).value, content);
  }

  /** The residue is empty exactly when the first chunk was not ready to be written or no attempt had a byte accepted. */
  lemma NoByteAccepted(env: Environment, job: Job, s: Snapshot)
    requires job.Valid()
    ensures Residue(env, job, s) == [] <==>
            forall chunk :: Reads(env, job, LoopState(s, 0, [], 0), chunk) ==>
              forall t: nat :: s.clock < t <= s.clock + job.retries ==>
                                 Accepted(s.bytes, job.device, |chunk.padded|, 0, env.transfer(t)) == 0
  {
    hide MostAccepted, WriteLength, Accepted;
    var wanted := Min(job.size, job.bufferSize);
    var read := ReadResult(env.source(s.clock), env.transfer(s.clock), wanted, 0);
    var length := WriteLength(job, wanted);
    if read.Success? && |read.value| == wanted && length.Some? {
      var chunk := Chunk(read.value, read.value + Zeros(Max(0, length.value - wanted)), s.(clock := s.clock + 1));
      assert Reads(env, job, LoopState(s, 0, [], 0), chunk);
      NothingAccepted(env, job, chunk.padded, job.retries, chunk.start);
    }
  }

  lemma {:induction false} NothingAccepted(env: Environment, job: Job, data: seq<Byte>, left: nat, s: Snapshot)
    requires data != []
    ensures MostAccepted(env, job, data, 0, left, s) == 0 <==>
            forall t: nat :: s.clock <= t < s.clock + left ==>
                               Accepted(s.bytes, job.device, |data|, 0, env.transfer(t)) == 0
    decreases left
  {
    hide WriteEffect;
    if left > 0 {
      var next := AttemptOnce(env, job, data, 0, s);
      if Accepted(s.bytes, job.device, |data|, 0, env.transfer(s.clock)) == 0 {
        NothingWritten(s.bytes, 0, data);
        NothingMoved(s.bytes, job.device, data, env.transfer(s.clock));
        NothingAccepted(env, job, data, left - 1, next);
      }
    }
  }

  lemma NothingMoved(bytes: seq<Byte>, device: bool, data: seq<Byte>, transfer: Transfer)
    requires Accepted(bytes, device, |data|, 0, transfer) == 0
    ensures WriteEffect(bytes, device, data, 0, transfer) == bytes
  {
  }
}
