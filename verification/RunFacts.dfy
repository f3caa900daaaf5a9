/**
 What runs of the image writer do, said without the names the model gives to its decisions: the capacity
 gate as a multiple of the sector size, refusals and their statuses, defaults, the loop's parameters, the
 length of the file that is left, and what the flush and the readback depend on.
 */
module RunFacts {
  import opened Bytes
  import opened Arithmetic
  import opened Status
  import opened Fips180
  import opened Device
  import opened Io
  import opened Targets
  import opened WriteLoop
  import opened WriteTheorems
  import opened Readback
  import opened ReadbackTheorems
  import opened Pipeline
  import opened PipelineTheorems
  import opened Completeness
  import opened AttestReports

  // Capacity.

  /** Whole sectors that hold the image, and that the target has; without a sector size, the image itself. */
  ghost predicate Fits(size: nat, target: TargetInfo) {
    if target.logicalSector == 0 then size <= target.sizeBytes
    else exists k: nat :: size <= k * target.logicalSector <= target.sizeBytes
  }

  lemma CapacityMeans(size: FileSize, target: TargetInfo)
    requires 0 < size
    ensures ExceedsTarget(size, target) <==> target.kind != RegularFile && !Fits(size, target)
  {
    if target.logicalSector != 0 {
      var sector := target.logicalSector;
      var up := RoundUp(size, sector);
      RoundUpFits(size, sector);
      assert up == (up / sector) * sector;
      if up <= target.sizeBytes {
        assert size <= (up / sector) * sector <= target.sizeBytes;
      }
      forall k: nat | size <= k * sector <= target.sizeBytes
        ensures up <= target.sizeBytes
      {
        Remainder(sector, k, 0);
        RoundUpIsLeast(size, sector, k * sector);
      }
    }
  }

  /** What the run has done when it is refused at the capacity gate: nothing but the first report. */
  ghost predicate RefusedForSize(s: Snapshot, out: Outcome) {
    && out.status == SourceTooLarge && out.snapshot == Snapshot(s.clock + 2, s.bytes, s.mutations, [Event(Prepare, 0, 1)])
    && out.trace.job.None? && out.trace.live.None? && out.result.state == FailedBeforeWrite
  }

  /**
   The capacity gate over every run: a device on which no whole number of sectors holds the image is
   refused before anything is hashed, opened or touched; any other target is hashed for.
   */
  lemma CapacityDecides(env: Environment, s: Snapshot, options: WriteOptions, target: TargetInfo)
    requires env.openSource(s.clock).Success? && env.openSource(s.clock).value > 0
    requires env.inspect(s.clock + 1) == Success(target)
    ensures var size, out := env.openSource(s.clock).value, RunWrite(env, s, options);
            if target.kind != RegularFile && !Fits(size, target) then RefusedForSize(s, out)
            else [Event(Prepare, 0, 1), Event(Prepare, 1, 1)] <= out.snapshot.events
  {
    hide Hashing, Fits, RoundUp;
    var size, o := env.openSource(s.clock).value, Defaults(options);
    CapacityMeans(size, target);
    var s1 := Reported(s.(events := []), Prepare, 0, 1);
    var s2 := Reported(Ticked(Ticked(s1)), Prepare, 1, 1);
    var t := Trace(None, s.bytes, s, None, [], None, None, None);
    HashingExtends(env, s2, o, NO_RESULT.(sourceSize := size), t, target);
    assert s2.events == [Event(Prepare, 0, 1), Event(Prepare, 1, 1)];
  }

  /** A device whose medium was touched, or whose loop was started, had room for the image in whole sectors. */
  lemma TouchedDevicesHaveRoom(env: Environment, s: Snapshot, options: WriteOptions, target: TargetInfo)
    requires env.inspect(s.clock + 1) == Success(target) && target.kind != RegularFile
    ensures var out := RunWrite(env, s, options);
            out.snapshot.bytes != s.bytes || out.snapshot.mutations != s.mutations || out.trace.job.Some? ==>
              env.openSource(s.clock).Success? && 0 < env.openSource(s.clock).value
              && Fits(env.openSource(s.clock).value, target)
  {
    hide Hashing, Fits, ExceedsTarget;
    if env.openSource(s.clock).Success? && env.openSource(s.clock).value > 0 {
      CapacityDecides(env, s, options, target);
    }
  }

  // Refusals before the gate.

  /** A refusal that left everything as it was. */
  ghost predicate RefusedWith(s: Snapshot, out: Outcome, status: Status) {
    && out.status == status && out.snapshot.bytes == s.bytes && out.snapshot.mutations == s.mutations
    && out.result.state == FailedBeforeWrite && out.result.bytesWritten == 0 && out.trace.job.None?
  }

  lemma EarlyRefusals(env: Environment, s: Snapshot, options: WriteOptions)
    ensures var source, inspected, out := env.openSource(s.clock), env.inspect(s.clock + 1), RunWrite(env, s, options);
            && (source.Failure? ==> RefusedWith(s, out, source.error))
            && (source.Success? && source.value == 0 ==> RefusedWith(s, out, TooSmall))
            && (source.Success? && source.value > 0 && inspected.Failure? ==> RefusedWith(s, out, inspected.error))
  {
    hide Hashing;
  }

  /** The destructive gate's statuses: the first guard that a device fails names the refusal; a file is never refused. */
  lemma GateStatuses(info: TargetInfo, o: WriteOptions)
    ensures var status, device := ValidateDestructive(info, o), info.kind != RegularFile;
            var blocked := info.systemDisk && !o.forceSystemDisk;
            var busy := info.mounted && !o.forceMounted;
            && (status == DeviceForbidden <==> device && !o.allowDevice)
            && (status == PermissionDenied <==> device && o.allowDevice && info.readOnly)
            && (status == SystemDisk <==> device && o.allowDevice && !info.readOnly && blocked)
            && (status == Mounted <==> device && o.allowDevice && !info.readOnly && !blocked && busy)
            && (status == Confirmation <==> device && o.allowDevice && !info.readOnly && !blocked && !busy
                                            && o.confirmationToken != Some(Token(info)))
            && (status == Ok <==> device ==> o.allowDevice && !info.readOnly && !blocked && !busy
                                             && o.confirmationToken == Some(Token(info)))
  {
    hide Token;
  }

  /** The open's statuses: inspection, another token, the gate, the system's open, in this order. */
  lemma OpenStatuses(env: Environment, clock: nat, planned: seq<Byte>, o: WriteOptions)
    ensures var r, inspected := OpenResult(env, clock, planned, o), env.inspect(clock);
            && (inspected.Failure? ==> r == Failure(inspected.error))
            && (inspected.Success? && Token(inspected.value) != planned ==> r == Failure(IdentityChanged))
            && (inspected.Success? && Token(inspected.value) == planned && ValidateDestructive(inspected.value, o) != Ok ==>
                  r == Failure(ValidateDestructive(inspected.value, o)))
            && (inspected.Success? && Token(inspected.value) == planned && ValidateDestructive(inspected.value, o) == Ok ==>
                  (env.openTarget(clock + 1) == Ok <==> r.Success?)
                  && (r.Failure? ==> r.error == env.openTarget(clock + 1)))
            && (r.Success? ==>
                  && r.value.sizeBytes == inspected.value.sizeBytes
                  && (r.value.device <==> inspected.value.kind != RegularFile)
                  && r.value.alignment == (if inspected.value.logicalSector == 0 then 512 else inspected.value.logicalSector))
  {
    hide Token, ValidateDestructive;
  }

  /** Hashing a region: no buffer for an overflowing size, none without memory, and any other failure is a read. */
  lemma HashStatuses(env: Environment, side: Side, phase: Phase, s: Snapshot, length: nat, block: U64)
    requires 0 < block
    ensures var r := HashRegion(env, side, phase, s, length, block).0;
            var overflows := block % 512 != 0 && block + 512 - block % 512 > U64_MAX;
            && (r == Failure(TooLarge) <==> overflows)
            && (r == Failure(NoMemory) <==> !overflows && !env.memory(s.clock))
            && (r.Failure? && !overflows && env.memory(s.clock) ==> r == Failure(IoFailed))
            && (r.Success? ==> |r.value| == length)
  {
    hide ReadRegion, RoundUp;
    RoundUpMeaning(block, 512);
    var start := Reported(Ticked(s), phase, 0, length);
    RegionFailsWithIo(env, side, phase, start, length, block, 0, []);
    RegionFrame(env, side, phase, start, length, block, 0, []);
  }

  lemma {:induction false} RegionFailsWithIo(env: Environment, side: Side, phase: Phase, s: Snapshot, length: nat,
                                             block: nat, offset: nat, read: seq<Byte>)
    requires offset <= length && 0 < block
    ensures var r := ReadRegion(env, side, phase, s, length, block, offset, read).0;
            r.Failure? ==> r.error == IoFailed
    decreases length - offset
  {
    hide Window;
    if offset < length {
      var wanted := Min(length - offset, block);
      var data := SideRead(env, side, s, wanted, offset);
      if data.Success? && |data.value| >= wanted {
        RegionFailsWithIo(env, side, phase, Reported(Ticked(s), phase, offset + wanted, length), length, block,
                          offset + wanted, read + data.value);
      }
    }
  }

  /** An iteration's statuses: incomplete reads and exhausted attempts are I/O, an unalignable chunk is internal. */
  lemma StepStatuses(env: Environment, job: Job, st: LoopState)
    requires job.Valid() && st.offset < job.size
    ensures var status, s := Step(env, job, st).0, st.snapshot;
            var wanted := Min(job.size - st.offset, job.bufferSize);
            var read := ReadResult(env.source(s.clock), env.transfer(s.clock), wanted, st.offset);
            var complete := read.Success? && |read.value| == wanted;
            var fits := !job.device || wanted % job.alignment == 0
                        || wanted + job.alignment - wanted % job.alignment <= Min(U64_MAX, job.bufferSize);
            && (!complete ==> status == IoFailed) && (status == Internal <==> complete && !fits)
            && (status == Ok || status == IoFailed || status == Internal)
  {
    hide Attempts, WriteLength, RoundUp, Window;
    PaddedFits(job, Min(job.size - st.offset, job.bufferSize));
  }

  lemma PaddedFits(job: Job, wanted: U64)
    requires job.Valid()
    ensures var padded := wanted + job.alignment - wanted % job.alignment;
            WriteLength(job, wanted).Some?
            <==> !job.device || wanted % job.alignment == 0 || padded <= Min(U64_MAX, job.bufferSize)
  {
    hide RoundUp;
    RoundUpMeaning(wanted, job.alignment);
    if wanted % job.alignment != 0 {
      RoundUpValue(wanted, job.alignment);
    }
  }

  lemma RoundUpValue(value: U64, alignment: U64)
    requires alignment > 0 && value % alignment != 0
    ensures value + alignment - value % alignment <= U64_MAX ==>
              RoundUp(value, alignment) == value + alignment - value % alignment
  {
  }

  /** The write buffer: too large if its rounding overflows, and allocated before anything is written. */
  lemma BufferStatuses(env: Environment, s: Snapshot, o: WriteOptions, r: WriteResult, t: Trace, file: OpenFile)
    requires Defaulted(o) && 0 < r.sourceSize < 0x8000_0000_0000_0000 && 0 < file.alignment
    ensures var unit, out := Max(file.alignment, 4096), Buffering(env, s, o, r, t, file);
            var overflows := o.bufferSize % unit != 0 && o.bufferSize + unit - o.bufferSize % unit > U64_MAX;
            && (overflows ==> out.status == TooLarge && out.snapshot == s)
            && (!overflows && !env.memory(s.clock) ==> out.status == NoMemory && out.snapshot.bytes == s.bytes)
  {
    hide Writing, RoundUp;
    RoundUpMeaning(o.bufferSize, Max(file.alignment, 4096));
  }

  /** Zero asks for 32 MiB, four attempts and 64 samples; anything else is taken as it is. */
  lemma DefaultsAre(o: WriteOptions)
    ensures var d := Defaults(o);
            && d.bufferSize == (if o.bufferSize == 0 then 33554432 else o.bufferSize)
            && d.writeRetries == (if o.writeRetries == 0 then 4 else o.writeRetries)
            && d.sampleCount == (if o.sampleCount == 0 then 64 else o.sampleCount)
            && d.(bufferSize := 0, writeRetries := 0, sampleCount := 0)
               == o.(bufferSize := 0, writeRetries := 0, sampleCount := 0)
  {
  }

  // The loop.

  /** The loop's parameters and medium, from the target found at the open and the options. */
  ghost predicate LoopFollows(o: WriteOptions, before: seq<Byte>, out: Outcome) {
    && out.trace.live.Some? && out.trace.job.Some?
    && var live, job := out.trace.live.value, out.trace.job.value;
       var unit := Max(4096, if live.logicalSector == 0 then 512 else live.logicalSector);
       && job.size == out.result.sourceSize && job.retries == o.writeRetries
       && (job.device <==> live.kind == BlockDevice || live.kind == CharDevice)
       && job.alignment == (if live.logicalSector == 0 then 512 else live.logicalSector)
       && job.bufferSize % unit == 0 && o.bufferSize <= job.bufferSize < o.bufferSize + unit
       && (live.kind != RegularFile || (!o.truncateRegularFile && live.sizeBytes >= job.size) ==> out.trace.base == before)
       && (live.kind == RegularFile && (o.truncateRegularFile || live.sizeBytes < job.size) ==>
             |out.trace.base| == job.size
             && forall i :: 0 <= i < job.size ==> out.trace.base[i] == if i < |before| then before[i] else 0)
  }

  lemma LoopsFollow(env: Environment, s: Snapshot, options: WriteOptions)
    ensures var out := RunWrite(env, s, options);
            out.trace.job.Some? ==> LoopFollows(Defaults(options), s.bytes, out)
  {
    hide RunWrite, Right, Authorized, Token, BaseIs, RoundUp;
    RunIsRight(env, s, options);
    var o, out := Defaults(options), RunWrite(env, s, options);
    if out.trace.job.Some? {
      JobNeedsInspection(env, s, options);
      var unit := Max(Opened(out.trace.live.value).alignment, MIN_BUFFER_ALIGNMENT);
      RoundUpMeaning(o.bufferSize, unit);
    }
  }

  lemma JobNeedsInspection(env: Environment, s: Snapshot, options: WriteOptions)
    ensures RunWrite(env, s, options).trace.job.Some? ==> env.inspect(s.clock + 1).Success?
  {
    hide Hashing;
  }

  /** A longer file that is not to be truncated keeps its length, and its bytes behind the image, over every run. */
  lemma LongerFilesKeepTheirLength(env: Environment, s: Snapshot, options: WriteOptions)
    ensures var out := RunWrite(env, s, options);
            out.trace.live.Some? && out.trace.live.value.kind == RegularFile && !options.truncateRegularFile
            && out.trace.job.Some? && out.trace.job.value.size <= out.trace.live.value.sizeBytes == |s.bytes| ==>
              && |out.snapshot.bytes| == |s.bytes|
              && forall i :: out.result.sourceSize <= i < |s.bytes| ==> out.snapshot.bytes[i] == s.bytes[i]
  {
    hide RunWrite, StatesAgree, ContentAgrees, ReportsAgree, EndingsAgree, LoopRan, Authorized, Token, RoundUp, Residue,
         Gated, Overlay;
    RunIsRight(env, s, options);
    LoopsFollow(env, s, options);
  }

  // Flush and readback.

  /** If no flush succeeds, no run does. */
  lemma NoFlushNoSuccess(env: Environment, s: Snapshot, options: WriteOptions)
    requires forall t: nat :: env.flush(t) != Ok
    ensures RunWrite(env, s, options).status != Ok
  {
    hide RunWrite, MediumAgrees, Sampled, WholeImage, ReportsAgree, LoopRan, Gated, VerifiesAs, Matches, VerifyImage;
    RunIsRight(env, s, options);
  }

  /** A verification that passed found the reopened medium long enough, or of unknown length. */
  lemma VerificationOpens(env: Environment, s: Snapshot, o: WriteOptions, known: Digest)
    requires Defaulted(o)
    ensures var source, target, v := env.openSource(s.clock), env.openReadback(s.clock + 1), VerifyImage(env, s, o, known);
            && (source.Failure? ==> v.status == source.error && v.verified == 0)
            && (source.Success? && target.Failure? ==> v.status == target.error && v.verified == 0)
            && (source.Success? && target.Success? && target.value != 0 && target.value < source.value ==>
                  v.status == TooSmall && v.verified == 0)
            && (v.status == Ok ==> source.Success? && target.Success? && (target.value == 0 || source.value <= target.value))
  {
    hide SampleCheck, FullCheck;
  }

  /**
   Where a sampling stops, in every environment: at the first pair that does not agree, having counted the
   blocks before it; two blocks that were read but do not agree are one mismatch, anything else is I/O.
   */
  lemma {:induction false} SamplingStops(env: Environment, s: Snapshot, plan: Plan, from: nat, i: nat, verified: nat)
    returns (j: nat)
    requires i <= plan.iterations && verified == Counted(plan, i) && s.clock == from + 2 * i
    ensures i <= j <= plan.iterations && forall k :: i <= k < j ==> PairAgrees(env, s.bytes, plan, from, k)
    ensures var r, agreed := SampleFrom(env, s, plan, i, verified).0, j == plan.iterations;
            && r.verified == Counted(plan, j) && (r.status == Ok <==> agreed)
            && (!agreed ==> !PairAgrees(env, s.bytes, plan, from, j))
            && (r.status == VerifyMismatch <==> !agreed && BothRead(env, s.bytes, plan, from, j))
            && (r.status == IoFailed <==> !agreed && !BothRead(env, s.bytes, plan, from, j))
            && r.mismatches == (if r.status == VerifyMismatch then 1 else 0)
    decreases plan.iterations - i
  {
    hide SampleOffset, ReadResult, SameBlock, Window, Counted;
    ReadsFailOnlyOnFaults(env, s, plan, i);
    if i == plan.iterations || !PairAgrees(env, s.bytes, plan, from, i) {
      j := i;
    } else {
      var next := Reported(Ticked(Ticked(s)), Verify, verified + plan.block, plan.Total());
      CountsUp(plan, i);
      j := SamplingStops(env, next, plan, from, i + 1, verified + plan.block);
    }
  }

  /** The bytes of the first j pairs' blocks. */
  function Counted(plan: Plan, j: nat): nat {
    j * plan.block
  }

  lemma CountsUp(plan: Plan, j: nat)
    ensures Counted(plan, j + 1) == Counted(plan, j) + plan.block
  {
    assert (j + 1) * plan.block == j * plan.block + plan.block;
  }

  lemma ReadsFailOnlyOnFaults(env: Environment, s: Snapshot, plan: Plan, i: nat)
    ensures var left := SideRead(env, SourceSide, s, plan.block, plan.Offset(i));
            var right := SideRead(env, TargetSide, Ticked(s), plan.block, plan.Offset(i));
            && (left.Success? <==> env.transfer(s.clock).Moved?) && (left.Failure? ==> left.error == IoFailed)
            && (right.Success? <==> env.transfer(s.clock + 1).Moved?) && (right.Failure? ==> right.error == IoFailed)
  {
    hide SampleOffset, Window;
  }

  ghost predicate BothRead(env: Environment, bytes: seq<Byte>, plan: Plan, from: nat, j: nat) {
    env.transfer(from + 2 * j).Moved? && env.transfer(from + 2 * j + 1).Moved?
  }

  /** Behind the opens and their size check, a mismatch is counted exactly when it is the status. */
  lemma MismatchesAreCounted(env: Environment, s: Snapshot, o: WriteOptions, known: Digest)
    requires Defaulted(o) && env.openSource(s.clock).Success? && env.openReadback(s.clock + 1).Success?
    ensures var v := VerifyImage(env, s, o, known);
            v.mismatches == (if v.status == VerifyMismatch then 1 else 0)
  {
    hide SampleFrom, HashRegion, Seed, DigestOf;
    var size, s2 := env.openSource(s.clock).value, Ticked(Ticked(s));
    HashStatuses(env, TargetSide, Verify, s2, size, o.bufferSize);
    if size > 0 {
      var plan := SamplePlan(size, known, o.sampleCount);
      var j := SamplingStops(env, Reported(Ticked(Ticked(s2)), Verify, 0, plan.Total()), plan, s2.clock + 2, 0, 0);
    }
  }

  /** Over every run that got as far as verifying: a mismatch is counted exactly when it is the status. */
  lemma MismatchesOfRuns(env: Environment, s: Snapshot, options: WriteOptions)
    ensures var out := RunWrite(env, s, options);
            out.trace.job.Some? && (out.result.state == VerificationFailed || out.result.state == SuccessVerified) ==>
              && out.trace.reopened.Some?
              && var tick := out.trace.reopened.value.clock;
                 env.openSource(tick).Success? && env.openReadback(tick + 1).Success? ==>
                   out.result.mismatches == (if out.status == VerifyMismatch then 1 else 0)
  {
    hide RunWrite, MediumAgrees, ReportsAgree, LoopRan, Gated, Matches, VerifyImage, FlushHappened, WholeImage;
    RunIsRight(env, s, options);
    var o, out := Defaults(options), RunWrite(env, s, options);
    if out.trace.job.Some? && (out.result.state == VerificationFailed || out.result.state == SuccessVerified) {
      var tick := out.trace.reopened.value.clock;
      if env.openSource(tick).Success? && env.openReadback(tick + 1).Success? {
        MismatchesAreCounted(env, out.trace.reopened.value, o, out.result.sourceSha256);
      }
    }
  }

  /**
   Full verification reads the medium: over an unchanging readback, what it read is the readback's first
   bytes, as many as the reopened source has, and it passes only if they have the digest of the source.
   */
  lemma FullReadbackIsTheMediums(env: Environment, s: Snapshot, o: WriteOptions, known: Digest, medium: seq<Byte>)
    requires Defaulted(o) && o.verifyMode == VerifyFull && Shows(env, TargetSide, s.bytes, medium)
    ensures var v := VerifyImage(env, s, o, known);
            && (v.readback.Some? ==>
                  && env.openSource(s.clock).Success? && env.openSource(s.clock).value <= |medium|
                  && v.readback.value == medium[..env.openSource(s.clock).value]
                  && v.digest == DigestOf(v.readback.value) && v.verified == |v.readback.value|
                  && (v.status == Ok <==> Matches(v.readback.value, known))
                  && (v.status != Ok ==> v.status == VerifyMismatch && v.mismatches == 1))
            && (v.status == Ok ==> v.readback.Some? && v.mismatches == 0)
  {
    hide HashRegion, SampleCheck, DigestOf, Shows;
    if env.openSource(s.clock).Success? {
      RegionIsTheMediums(env, Ticked(Ticked(s)), env.openSource(s.clock).value, o.bufferSize, medium);
    }
  }

  lemma RegionIsTheMediums(env: Environment, s: Snapshot, size: nat, block: U64, medium: seq<Byte>)
    requires 0 < block && Shows(env, TargetSide, s.bytes, medium)
    ensures var r := HashRegion(env, TargetSide, Verify, s, size, block).0;
            && (r.Success? ==> size <= |medium| && r.value == medium[..size])
            && (r.Failure? ==> r.error != Ok)
  {
    hide ReadRegion, Shows, RoundUp;
    var start := Reported(Ticked(s), Verify, 0, size);
    assert medium[..0] == [];
    RegionIsPrefix(env, TargetSide, Verify, start, size, block, 0, medium);
    RegionFrame(env, TargetSide, Verify, start, size, block, 0, []);
  }

  /** Over every successful run in full mode: the medium's first bytes have the digest of the planning pass. */
  lemma FullSuccessIsOnTheMedium(env: Environment, s: Snapshot, options: WriteOptions, medium: seq<Byte>)
    requires Shows(env, TargetSide, RunWrite(env, s, options).snapshot.bytes, medium)
    ensures var out := RunWrite(env, s, options);
            out.status == Ok && options.verifyMode == VerifyFull ==>
              && out.trace.reopened.Some? && env.openSource(out.trace.reopened.value.clock).Success?
              && var n := env.openSource(out.trace.reopened.value.clock).value;
                 n <= |medium| && out.result.bytesVerified == n && Matches(medium[..n], out.result.sourceSha256)
  {
    hide RunWrite, MediumAgrees, ReportsAgree, LoopRan, Gated, Matches, VerifyImage, FlushHappened, WholeImage;
    RunIsRight(env, s, options);
    var o, out := Defaults(options), RunWrite(env, s, options);
    if out.status == Ok && options.verifyMode == VerifyFull {
      FullReadbackIsTheMediums(env, out.trace.reopened.value, o, out.result.sourceSha256, medium);
    }
  }
}
