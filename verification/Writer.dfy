/** The write loop as the source runs it. */
module Writer {
  import opened Bytes
  import opened Arithmetic
  import opened Status
  import opened Fips180
  import opened Io
  import opened WriteLoop
  import Streaming

  /** The retry loop over one padded chunk. */
  method WriteWithRetries(w: World, job: Job, data: seq<Byte>, offset: nat) returns (ok: bool, failures: nat)
    requires 0 < job.retries
    modifies w
    ensures (ok, w.View(), failures) == Attempts(w.env, job, data, offset, job.retries, old(w.View()))
  {
    hide WriteEffect, Overlay, Accepted;
    failures := 0;
    ok := false;
    var attempt := 0;
    while attempt < job.retries
      invariant 0 <= attempt <= job.retries && failures == attempt
      invariant var (done, last, more) := Attempts(w.env, job, data, offset, job.retries - attempt, w.View());
                (done, last, failures + more) == Attempts(w.env, job, data, offset, job.retries, old(w.View()))
    {
      var status, written := w.WriteAt(job.device, data, offset);
      if status == Ok && written == |data| {
        return true, failures;
      }
      failures := failures + 1;
      attempt := attempt + 1;
    }
  }

  /** One iteration; the stream hash takes the chunk before it is written. */
  method WriteChunk(w: World, job: Job, offset: nat, ctx: Streaming.Context, ghost st: LoopState)
    returns (status: Status, written: nat, failures: nat, ghost next: LoopState)
    requires job.Valid() && st.offset == offset < job.size && st.snapshot == w.View()
    requires ctx.Valid() && ctx.message == st.streamed
    modifies w, ctx, ctx.state, ctx.buffer
    ensures (status, next) == Step(w.env, job, st)
    ensures ctx.Valid() && ctx.message == next.streamed
    ensures next == LoopState(w.View(), offset + written, next.streamed, st.retries + failures)
  {
    hide Streaming.Context.Valid, Attempts, RoundUp, Window;
    written, failures := 0, 0;
    next := Step(w.env, job, st).1;
    var wanted := Min(job.size - offset, job.bufferSize);
    var data := w.ReadSource(wanted, offset);
    if data.Failure? {
      return data.error, 0, 0, next;
    }
    if |data.value| != wanted {
      return IoFailed, 0, 0, next;
    }
    ctx.Update(data.value);
    var length := wanted;
    if job.device && wanted % job.alignment != 0 {
      length := RoundUp(wanted, job.alignment);
      if length == 0 || length > job.bufferSize {
        return Internal, 0, 0, next;
      }
    }
    var ok;
    ok, failures := WriteWithRetries(w, job, data.value + Zeros(Max(0, length - wanted)), offset);
    if !ok {
      return IoFailed, 0, failures, next;
    }
    written := wanted;
    w.Notify(Write, offset + wanted, job.size);
    status := Ok;
  }

  /** The whole loop, with the digest of what was streamed if it completes. */
  method WriteAll(w: World, job: Job)
    returns (status: Status, bytesWritten: nat, failures: nat, digest: Digest, ghost last: LoopState)
    requires job.Valid()
    modifies w
    ensures (status, last) == Loop(w.env, job, LoopState(old(w.View()), 0, [], 0))
    ensures last == LoopState(w.View(), bytesWritten, last.streamed, failures)
    ensures status == Ok ==> digest == Sha256(last.streamed)
  {
    hide Sha256, Step, Streaming.Context.Valid;
    var ctx := new Streaming.Context();
    digest := Zeros(32);
    bytesWritten, failures := 0, 0;
    ghost var st := LoopState(w.View(), 0, [], 0);
    while bytesWritten < job.size
      invariant 0 <= bytesWritten <= job.size
      invariant st == LoopState(w.View(), bytesWritten, st.streamed, failures)
      invariant ctx.Valid() && fresh(ctx) && fresh(ctx.state) && fresh(ctx.buffer) && ctx.message == st.streamed
      invariant Loop(w.env, job, st) == Loop(w.env, job, LoopState(old(w.View()), 0, [], 0))
      decreases job.size - bytesWritten
    {
      var written, failed;
      ghost var before := st;
      status, written, failed, st := WriteChunk(w, job, bytesWritten, ctx, st);
      failures := failures + failed;
      bytesWritten := bytesWritten + written;
      if status != Ok {
        return status, bytesWritten, failures, digest, st;
      }
      StepAdvances(w.env, job, before);
    }
    status := Ok;
    digest := ctx.Final();
    last := st;
  }
}
