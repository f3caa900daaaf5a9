/** The image writer as the source runs it, phase by phase. */
module Imaging {
  import opened Bytes
  import opened Arithmetic
  import opened Status
  import opened Text
  import opened Fips180
  import opened Device
  import opened Io
  import opened Targets
  import opened WriteLoop
  import opened Writer
  import opened Readback
  import opened Verifier
  import opened Pipeline

  method VerifyWritten(w: World, o: WriteOptions, known: Digest)
    returns (status: Status, verified: nat, mismatches: nat, digest: Digest)
    requires Defaulted(o)
    modifies w
    ensures var v := VerifyImage(w.env, old(w.View()), o, known);
            (status, verified, mismatches, digest, w.View()) == (v.status, v.verified, v.mismatches, v.digest, v.snapshot)
  {
    hide SampleFiles, HashRegion, Sha256;
    verified, mismatches, digest := 0, 0, Zeros(32);
    var now := w.Tick();
    var source := w.env.openSource(now);
    if source.Failure? {
      return source.error, 0, 0, digest;
    }
    now := w.Tick();
    var target := w.env.openReadback(now);
    if target.Failure? {
      return target.error, 0, 0, digest;
    }
    var size := source.value;
    if target.value != 0 && target.value < size {
      return TooSmall, 0, 0, digest;
    }
    if o.verifyMode == VerifyNone {
      return Ok, 0, 0, digest;
    }
    if o.verifyMode == VerifySample {
      var sampled := VerifySamples(w, size, known, o.sampleCount);
      return sampled.status, sampled.verified, sampled.mismatches, digest;
    }
    var hashed, data := HashFileRegion(w, TargetSide, Verify, size, o.bufferSize);
    if hashed.Failure? {
      return hashed.error, 0, 0, digest;
    }
    digest, verified := hashed.value, size;
    var equal := ConstantTimeEqual(known, digest, 32);
    assert known[..32] == known && digest[..32] == digest;
    if equal {
      status := Ok;
    } else {
      status, mismatches := VerifyMismatch, 1;
    }
  }

  method VerifyPhase(w: World, o: WriteOptions, r: WriteResult, ghost t: Trace)
    returns (status: Status, result: WriteResult)
    requires Defaulted(o)
    modifies w
    ensures var out := Verifying(w.env, old(w.View()), o, r, t);
            (status, result, w.View()) == (out.status, out.result, out.snapshot)
  {
    hide VerifyImage;
    if o.verifyMode != VerifyNone {
      var verified, mismatches, digest;
      status, verified, mismatches, digest := VerifyWritten(w, o, r.sourceSha256);
      result := r.(bytesVerified := verified, mismatches := mismatches, targetSha256 := digest);
      if status != Ok {
        result := result.(state := VerificationFailed);
        return;
      }
      result := result.(state := SuccessVerified);
    } else {
      result := r.(state := SuccessUnverified);
    }
    status := Ok;
    w.Notify(Complete, 1, 1);
  }

  method FlushPhase(w: World, o: WriteOptions, r: WriteResult, ghost t: Trace)
    returns (status: Status, result: WriteResult)
    requires Defaulted(o)
    modifies w
    ensures var out := Flushing(w.env, old(w.View()), o, r, t);
            (status, result, w.View()) == (out.status, out.result, out.snapshot)
  {
    hide Verifying;
    result := r;
    status := w.FlushTarget();
    if status != Ok {
      return;
    }
    w.Notify(Flush, 1, 1);
    status, result := VerifyPhase(w, o, r, t.(flush := Some(Ok)));
  }

  method WritePhase(w: World, o: WriteOptions, r: WriteResult, ghost t: Trace, job: Job)
    returns (status: Status, result: WriteResult)
    requires Defaulted(o) && job.Valid()
    modifies w
    ensures var out := Writing(w.env, old(w.View()), o, r, t, job);
            (status, result, w.View()) == (out.status, out.result, out.snapshot)
  {
    hide Flushing, Loop, Sha256;
    var written, failures, digest;
    ghost var last;
    status, written, failures, digest, last := WriteAll(w, job);
    result := r.(bytesWritten := written, writeRetries := failures,
                 state := if written > 0 then FailedPartialMedia else FailedBeforeWrite);
    if status != Ok {
      return;
    }
    var equal := ConstantTimeEqual(r.sourceSha256, digest, 32);
    assert r.sourceSha256[..32] == r.sourceSha256 && digest[..32] == digest;
    if !equal {
      status := IdentityChanged;
      return;
    }
    w.Notify(Flush, 0, 1);
    status, result := FlushPhase(w, o, result, t.(streamed := last.streamed));
  }

  method BufferPhase(w: World, o: WriteOptions, r: WriteResult, ghost t: Trace, file: OpenFile)
    returns (status: Status, result: WriteResult)
    requires Defaulted(o) && 0 < r.sourceSize < 0x8000_0000_0000_0000 && 0 < file.alignment
    modifies w
    ensures var out := Buffering(w.env, old(w.View()), o, r, t, file);
            (status, result, w.View()) == (out.status, out.result, out.snapshot)
  {
    hide Writing, RoundUp;
    var alignment := if file.alignment > MIN_BUFFER_ALIGNMENT then file.alignment else MIN_BUFFER_ALIGNMENT;
    var bufferSize := RoundUp(o.bufferSize, alignment);
    if bufferSize == 0 {
      return TooLarge, r;
    }
    var memory := w.Allocate();
    if !memory {
      return NoMemory, r;
    }
    w.Notify(Write, 0, r.sourceSize);
    var job := Job(r.sourceSize, bufferSize, file.device, file.alignment, o.writeRetries);
    status, result := WritePhase(w, o, r, t.(job := Some(job), start := w.View()), job);
  }

  method ResizePhase(w: World, o: WriteOptions, r: WriteResult, ghost t: Trace, file: OpenFile)
    returns (status: Status, result: WriteResult)
    requires Defaulted(o) && 0 < r.sourceSize < 0x8000_0000_0000_0000 && 0 < file.alignment
    modifies w
    ensures var out := Resizing(w.env, old(w.View()), o, r, t, file);
            (status, result, w.View()) == (out.status, out.result, out.snapshot)
  {
    hide Buffering;
    var size := file.sizeBytes;
    ghost var trace := t;
    if !file.device && o.truncateRegularFile {
      status := w.Resize(r.sourceSize);
      if status != Ok {
        return status, r;
      }
      size := r.sourceSize;
      trace := t.(base := w.bytes);
    }
    if !file.device && size < r.sourceSize {
      status := w.Resize(r.sourceSize);
      if status != Ok {
        return status, r;
      }
      trace := t.(base := w.bytes);
    }
    status, result := BufferPhase(w, o, r, trace, file);
  }

  method OpenPhase(w: World, o: WriteOptions, r: WriteResult, ghost t: Trace, planned: TargetInfo)
    returns (status: Status, result: WriteResult)
    requires Defaulted(o) && 0 < r.sourceSize < 0x8000_0000_0000_0000
    modifies w
    ensures var out := Opening(w.env, old(w.View()), o, r, t, planned);
            (status, result, w.View()) == (out.status, out.result, out.snapshot)
  {
    hide Resizing, OpenResult, OpenTicks, Token;
    var token := ComputeTargetToken(planned);
    ghost var live := Live(w.env, w.clock);
    var opening := OpenTarget(w, token, o);
    if opening.Failure? {
      return opening.error, r;
    }
    status, result := ResizePhase(w, o, r, t.(live := live), opening.value);
  }

  method HashPhase(w: World, o: WriteOptions, r: WriteResult, ghost t: Trace, planned: TargetInfo)
    returns (status: Status, result: WriteResult)
    requires Defaulted(o) && 0 < r.sourceSize < 0x8000_0000_0000_0000
    modifies w
    ensures var out := Hashing(w.env, old(w.View()), o, r, t, planned);
            (status, result, w.View()) == (out.status, out.result, out.snapshot)
  {
    hide Opening, HashRegion, Sha256;
    var digest, data := HashFileRegion(w, SourceSide, HashSource, r.sourceSize, o.bufferSize);
    if digest.Failure? {
      return digest.error, r;
    }
    status, result := OpenPhase(w, o, r.(sourceSha256 := digest.value), t, planned);
  }

  /** Writes an image. */
  method WriteImage(w: World, options: WriteOptions) returns (status: Status, result: WriteResult)
    modifies w
    ensures var out := RunWrite(w.env, old(w.View()), options);
            (status, result, w.View()) == (out.status, out.result, out.snapshot)
  {
    hide Hashing;
    var o := Defaults(options);
    result := NO_RESULT;
    ghost var t := Trace(None, w.bytes, w.View(), None, [], None, None, None);
    w.ClearReports();
    w.Notify(Prepare, 0, 1);
    var now := w.Tick();
    var source := w.env.openSource(now);
    if source.Failure? {
      return source.error, result;
    }
    if source.value == 0 {
      return TooSmall, result;
    }
    result := result.(sourceSize := source.value);
    now := w.Tick();
    var inspected := w.env.inspect(now);
    if inspected.Failure? {
      return inspected.error, result;
    }
    var planned := inspected.value;
    if planned.kind != RegularFile && RoundUp(source.value, planned.logicalSector) > planned.sizeBytes {
      return SourceTooLarge, result;
    }
    w.Notify(Prepare, 1, 1);
    status, result := HashPhase(w, o, result, t, planned);
  }
}
