/**
 What the final state "failed before write" does and does not promise. The evidence documentation
 reads it as "no target write was accepted". The code sets it until the first chunk is complete, so
 a regular file may already have been resized, and failed attempts at the first chunk may have left
 a prefix of it behind.
 */
module BeforeWrite {
  import opened Bytes
  import opened Arithmetic
  import opened Status
  import opened Fips180
  import opened Device
  import opened Io
  import opened Targets
  import opened WriteLoop
  import opened WriteTheorems
  import opened Readback
  import opened Pipeline
  import opened PipelineTheorems
  import opened Progress

  /** Nothing was resized into something else, and the attempts at the first chunk left only what was there. */
  ghost predicate LeavesNoMark(env: Environment, out: Outcome, before: seq<Byte>) {
    && out.trace.base == before
    && (out.trace.job.Some? ==>
          out.trace.job.value.Valid() && Residue(env, out.trace.job.value, out.trace.start) <= before)
  }

  /** Over every run: exactly when the state leaves the medium as it was found. */
  lemma UntouchedExactly(env: Environment, s: Snapshot, options: WriteOptions)
    requires RunWrite(env, s, options).result.state == FailedBeforeWrite
    ensures RunWrite(env, s, options).snapshot.bytes == s.bytes <==>
            LeavesNoMark(env, RunWrite(env, s, options), s.bytes)
  {
    hide RunWrite, Residue, Authorized, Token, Orderly, RoundUp, Resized;
    RunIsRight(env, s, options);
    UninspectedHasNoJob(env, s, options);
    var out := RunWrite(env, s, options);
    if out.trace.job.Some? {
      var job, residue := out.trace.job.value, Residue(env, out.trace.job.value, out.trace.start);
      ResidueIsVisible(s.bytes, residue);
      if |residue| <= job.size {
        ResizedDiffers(s.bytes, job.size, residue);
      }
    }
  }

  /** A file that the resize changed cannot be what it was, whatever the attempts left. */
  lemma ResizedDiffers(before: seq<Byte>, size: nat, residue: seq<Byte>)
    requires |residue| <= size
    ensures Overlay(Resized(before, size), 0, residue) == before ==> Resized(before, size) == before
  {
    if |before| == size {
      assert Resized(before, size) == before;
    }
  }

  lemma UninspectedHasNoJob(env: Environment, s: Snapshot, options: WriteOptions)
    ensures env.inspect(s.clock + 1).Failure? ==> RunWrite(env, s, options).trace.job.None?
  {
    hide Hashing;
  }

  // A run that leaves a mark: a two-byte image, a two-byte file, and a first attempt that stops after one byte.

  const NAMELESS := TargetInfo([], [], RegularFile, 2, 512, 512, false, false, false, false, false, false, [], [], [], [], [])
  const ONE_TRY := WriteOptions(4096, 1, VerifyNone, 1, false, false, false, false, false, None)
  const BLANK := Snapshot(0, [0, 0], 0, [])

  function Interrupted(): Environment {
    Environment(
      openSource := t => Success(2),
      source := t => [7, 9],
      inspect := t => Success(NAMELESS),
      openTarget := t => Ok,
      resize := t => Ok,
      flush := t => Ok,
      transfer := t => if t < 8 then Moved(2) else Moved(1),
      openReadback := t => Success(2),
      readback := (t, bytes) => bytes,
      memory := t => true)
  }

  /** The read and the one attempt: half a chunk reaches the medium, none is counted. */
  lemma InterruptedChunk(events: seq<Event>)
    ensures var st := LoopState(Snapshot(7, [0, 0], 0, events), 0, [], 0);
            var (status, last) := Loop(Interrupted(), Job(2, 4096, false, 512, 1), st);
            status == IoFailed && last.offset == 0 && last.snapshot.bytes == [7, 0]
  {
    var env, job := Interrupted(), Job(2, 4096, false, 512, 1);
    var data := [7, 9];
    assert Window(data, 0, 2) == data && data + Zeros(0) == data;
    assert data[..1] == [7];
    assert Overlay([0, 0], 0, [7]) == [7, 0];
    var start := Snapshot(8, [0, 0], 0, events);
    assert !AttemptSucceeds(env, job, data, 0, start);
    assert AttemptOnce(env, job, data, 0, start).bytes == [7, 0];
    assert Attempts(env, job, data, 0, 0, AttemptOnce(env, job, data, 0, start)).0 == false;
  }

  /** From the open on: gate, allocation, loop. */
  lemma InterruptedFromOpen(events: seq<Event>, r: WriteResult, t: Trace)
    requires r.sourceSize == 2
    ensures var out := Opening(Interrupted(), Snapshot(4, [0, 0], 0, events), ONE_TRY, r, t, NAMELESS);
            out.status == IoFailed && out.result.state == FailedBeforeWrite && out.snapshot.bytes == [7, 0]
  {
    hide Loop, Token, Matches, Flushing;
    var env, s := Interrupted(), Snapshot(4, [0, 0], 0, events);
    assert OpenResult(env, 4, Token(NAMELESS), ONE_TRY) == Success(OpenFile(false, 2, 512));
    assert RoundUp(4096, 4096) == 4096;
    InterruptedChunk(events + [Event(Write, 0, 2)]);
  }

  lemma InterruptedHash(events: seq<Event>)
    ensures var (data, next) := HashRegion(Interrupted(), SourceSide, HashSource, Snapshot(2, [0, 0], 0, events), 2, 4096);
            data.Success? && next == Snapshot(4, [0, 0], 0, next.events)
  {
    var env := Interrupted();
    assert RoundUp(4096, SOURCE_ALIGNMENT) == 4096;
    var s := Reported(Snapshot(3, [0, 0], 0, events), HashSource, 0, 2);
    assert Window([7, 9], 0, 2) == [7, 9];
    assert SideRead(env, SourceSide, s, 2, 0) == Success([7, 9]);
  }

  /** The documented reading of the state is stronger than what the code ensures. */
  lemma MarkLeftBeforeWrite()
    ensures var out := RunWrite(Interrupted(), BLANK, ONE_TRY);
            out.status == IoFailed && out.result.state == FailedBeforeWrite && out.snapshot.bytes == [7, 0]
  {
    hide Opening, HashRegion, Sha256, Token;
    var env := Interrupted();
    var events := [] + [Event(Prepare, 0, 1)] + [Event(Prepare, 1, 1)];
    InterruptedHash(events);
    var (data, next) := HashRegion(env, SourceSide, HashSource, Snapshot(2, [0, 0], 0, events), 2, 4096);
    var r := NO_RESULT.(sourceSize := 2, sourceSha256 := DigestOf(data.value));
    InterruptedFromOpen(next.events, r, Trace(None, BLANK.bytes, BLANK, None, [], None, None, None));
  }
}
