/** What the write loop leaves on the medium, whatever the source and the medium do meanwhile. */
module WriteTheorems {
  import opened Bytes
  import opened Arithmetic
  import opened Status
  import opened Io
  import opened WriteLoop

  /** The most bytes any of the attempts moved to the medium. */
  function MostAccepted(env: Environment, job: Job, data: seq<Byte>, offset: nat, left: nat, s: Snapshot): (m: nat)
    ensures m <= |data|
  {
    if left == 0 then 0
    else
      Max(Accepted(s.bytes, job.device, |data|, offset, env.transfer(s.clock)),
          if AttemptSucceeds(env, job, data, offset, s) then 0
          else MostAccepted(env, job, data, offset, left - 1, AttemptOnce(env, job, data, offset, s)))
  }

  /** A longer prefix written over or under a shorter one at one place leaves the longer one. */
  lemma PrefixesMerge(base: seq<Byte>, offset: nat, data: seq<Byte>, m: nat, n: nat)
    requires m <= |data| && n <= |data|
    ensures Overlay(Overlay(base, offset, data[..m]), offset, data[..n]) == Overlay(base, offset, data[..Max(m, n)])
  {
  }

  /** Failed and short attempts leave a prefix of the data; a successful one leaves all of it. */
  lemma {:induction false} AttemptsEffect(env: Environment, job: Job, data: seq<Byte>, offset: nat, left: nat, s: Snapshot)
    ensures var (ok, last, failures) := Attempts(env, job, data, offset, left, s);
            && last.bytes == Overlay(s.bytes, offset, data[..MostAccepted(env, job, data, offset, left, s)])
            && (ok ==> last.bytes == Overlay(s.bytes, offset, data))
            && last.events == s.events && 0 <= failures <= left
            && (ok ==> failures < left) && (!ok ==> failures == left)
            && last.mutations == s.mutations + failures + (if ok then 1 else 0)
            && last.clock == s.clock + failures + (if ok then 1 else 0)
  {
    hide Overlay;
    assert data[..|data|] == data;
    if left == 0 {
      NothingWritten(s.bytes, offset, data);
    } else if !AttemptSucceeds(env, job, data, offset, s) {
      var next := AttemptOnce(env, job, data, offset, s);
      var accepted := Accepted(s.bytes, job.device, |data|, offset, env.transfer(s.clock));
      var most := MostAccepted(env, job, data, offset, left - 1, next);
      AttemptsEffect(env, job, data, offset, left - 1, next);
      PrefixesMerge(s.bytes, offset, data, accepted, most);
      PrefixesMerge(s.bytes, offset, data, accepted, |data|);
    }
  }

  lemma NothingWritten(base: seq<Byte>, offset: nat, data: seq<Byte>)
    ensures Overlay(base, offset, data[..0]) == base
  {
  }

  /** The zero bytes that fill a device's last sector, once the source is through. */
  function Padding(job: Job, offset: nat): seq<Byte>
    requires job.Valid()
  {
    if offset == job.size then Zeros(Max(0, job.Extent() - job.size)) else []
  }

  /** Completed chunks are on the medium as streamed, a device is at a sector boundary, nothing else changed. */
  ghost predicate Invariant(job: Job, base: seq<Byte>, st: LoopState) {
    && job.Valid() && st.offset <= job.size && st.offset == |st.streamed|
    && st.snapshot.bytes == Overlay(base, 0, st.streamed + Padding(job, st.offset))
    && (job.device && st.offset < job.size ==> st.offset % job.alignment == 0)
  }

  lemma OverlaysJoin(base: seq<Byte>, a: seq<Byte>, b: seq<Byte>)
    ensures Overlay(Overlay(base, 0, a), |a|, b) == Overlay(base, 0, a + b)
  {
  }

  /** The sector arithmetic of one chunk: it ends at a boundary, or it ends the source and is padded to one. */
  lemma ChunkEnds(job: Job, offset: nat, wanted: nat)
    requires job.Valid() && offset < job.size && wanted == Min(job.size - offset, job.bufferSize)
    requires job.device ==> offset % job.alignment == 0
    requires WriteLength(job, wanted).Some?
    ensures wanted <= WriteLength(job, wanted).value
    ensures offset + WriteLength(job, wanted).value <= job.Extent()
    ensures offset + wanted == job.size ==> offset + WriteLength(job, wanted).value == job.Extent()
    ensures offset + wanted < job.size ==> WriteLength(job, wanted).value == wanted
    ensures job.device && offset + wanted < job.size ==> (offset + wanted) % job.alignment == 0
  {
    if job.device {
      RoundUpFits(job.size, job.alignment);
      RoundUpMeaning(wanted, job.alignment);
      if wanted % job.alignment == 0 {
        AlignedSum(offset, wanted, job.alignment);
      }
      if offset + wanted == job.size {
        RoundUpShifts(offset, wanted, job.alignment);
      }
    }
  }

  /** What one iteration works on once its read is complete and its length is settled. */
  datatype Chunk = Chunk(data: seq<Byte>, padded: seq<Byte>, start: Snapshot)

  predicate Reads(env: Environment, job: Job, st: LoopState, chunk: Chunk)
    requires job.Valid() && st.offset < job.size
  {
    var s, wanted := st.snapshot, Min(job.size - st.offset, job.bufferSize);
    && ReadResult(env.source(s.clock), env.transfer(s.clock), wanted, st.offset) == Success(chunk.data)
    && |chunk.data| == wanted && WriteLength(job, wanted).Some?
    && chunk.padded == chunk.data + Zeros(Max(0, WriteLength(job, wanted).value - wanted))
    && chunk.start == s.(clock := s.clock + 1)
  }

  /** An iteration either stops before writing, or is its attempts. */
  lemma StepShape(env: Environment, job: Job, st: LoopState) returns (chunk: Chunk)
    requires job.Valid() && st.offset < job.size
    ensures var (status, next) := Step(env, job, st);
            || (status != Ok && next.snapshot == st.snapshot.(clock := st.snapshot.clock + 1)
                && next.offset == st.offset && st.streamed <= next.streamed && next.retries == st.retries)
            || (Reads(env, job, st, chunk)
                && var (ok, last, failures) := Attempts(env, job, chunk.padded, st.offset, job.retries, chunk.start);
                   && next.streamed == st.streamed + chunk.data && next.retries == st.retries + failures
                   && (if ok then
                         && status == Ok && next.offset == st.offset + |chunk.data|
                         && next.snapshot == last.(events := last.events + [Event(Write, next.offset, job.size)])
                       else status == IoFailed && next.offset == st.offset && next.snapshot == last))
  {
    hide Attempts, WriteLength, RoundUp, Window, ReadResult;
    var s, wanted := st.snapshot, Min(job.size - st.offset, job.bufferSize);
    var read := ReadResult(env.source(s.clock), env.transfer(s.clock), wanted, st.offset);
    var data := if read.Success? then read.value else [];
    var length := if WriteLength(job, wanted).Some? then WriteLength(job, wanted).value else 0;
    chunk := Chunk(data, data + Zeros(Max(0, length - wanted)), s.(clock := s.clock + 1));
  }

  /** A chunk before the last is not padded, and the last one ends with the padding of the whole. */
  lemma ChunkJoins(job: Job, streamed: seq<Byte>, data: seq<Byte>)
    requires job.Valid() && |streamed| < job.size && |data| == Min(job.size - |streamed|, job.bufferSize)
    requires job.device ==> |streamed| % job.alignment == 0
    requires WriteLength(job, |data|).Some?
    ensures streamed + (data + Zeros(Max(0, WriteLength(job, |data|).value - |data|)))
            == (streamed + data) + Padding(job, |streamed| + |data|)
  {
    hide WriteLength, RoundUp;
    ChunkEnds(job, |streamed|, |data|);
  }

  /** A completed iteration keeps the invariant. */
  lemma StepKeepsInvariant(env: Environment, job: Job, base: seq<Byte>, st: LoopState)
    requires Invariant(job, base, st) && st.offset < job.size && Step(env, job, st).0 == Ok
    ensures Invariant(job, base, Step(env, job, st).1)
  {
    hide Attempts, Overlay, Step, MostAccepted, WriteLength, Zeros, RoundUp;
    var chunk := StepShape(env, job, st);
    var wanted := Min(job.size - st.offset, job.bufferSize);
    ChunkEnds(job, st.offset, wanted);
    AttemptsEffect(env, job, chunk.padded, st.offset, job.retries, chunk.start);
    OverlaysJoin(base, st.streamed, chunk.padded);
    ChunkJoins(job, st.streamed, chunk.data);
    NoPadding(job, st);
  }

  lemma NoPadding(job: Job, st: LoopState)
    requires job.Valid() && st.offset < job.size
    ensures st.streamed + Padding(job, st.offset) == st.streamed
  {
  }

  /** Failed attempts at a chunk leave a prefix of it behind the completed chunks. */
  lemma ResidueIsInside(env: Environment, job: Job, base: seq<Byte>, st: LoopState, chunk: Chunk)
    requires Invariant(job, base, st) && st.offset < job.size && Reads(env, job, st, chunk)
    ensures var bytes := Attempts(env, job, chunk.padded, st.offset, job.retries, chunk.start).1.bytes;
            && ChangedOnlyIn(base, bytes, 0, job.Extent())
            && st.offset <= |bytes| && bytes[..st.offset] == st.streamed
  {
    hide Attempts, Overlay, ChangedOnlyIn, MostAccepted;
    ChunkEnds(job, st.offset, Min(job.size - st.offset, job.bufferSize));
    AttemptsEffect(env, job, chunk.padded, st.offset, job.retries, chunk.start);
    var residue := chunk.padded[..MostAccepted(env, job, chunk.padded, st.offset, job.retries, chunk.start)];
    assert st.streamed + [] == st.streamed;
    OverlaysJoin(base, st.streamed, residue);
    OverlayFrame(base, st.streamed + residue, job.Extent(), st.offset);
  }

  /** An interrupted iteration leaves completed chunks alone and a prefix of its own data behind them. */
  lemma StepAborts(env: Environment, job: Job, base: seq<Byte>, st: LoopState)
    requires Invariant(job, base, st) && st.offset < job.size && Step(env, job, st).0 != Ok
    ensures var next := Step(env, job, st).1;
            && next.offset == st.offset && st.streamed <= next.streamed
            && ChangedOnlyIn(base, next.snapshot.bytes, 0, job.Extent())
            && st.offset <= |next.snapshot.bytes| && next.snapshot.bytes[..st.offset] == st.streamed
  {
    hide Attempts, Overlay, ChangedOnlyIn, Step, WriteLength, RoundUp;
    var chunk := StepShape(env, job, st);
    if Step(env, job, st).1.snapshot.bytes == st.snapshot.bytes {
      assert st.streamed + [] == st.streamed;
      ExtentCovers(job);
      OverlayFrame(base, st.streamed, job.Extent(), st.offset);
    } else {
      ResidueIsInside(env, job, base, st, chunk);
    }
  }

  lemma ExtentCovers(job: Job)
    requires job.Valid()
    ensures job.size <= job.Extent()
  {
    RoundUpFits(job.size, job.alignment);
  }

  lemma OverlayFrame(base: seq<Byte>, data: seq<Byte>, extent: nat, n: nat)
    requires n <= |data| <= extent
    ensures ChangedOnlyIn(base, Overlay(base, 0, data), 0, extent)
    ensures Overlay(base, 0, data)[..n] == data[..n]
  {
  }

  /**
   The loop under any faults and any source: if it completes, the medium is the old one with the
   streamed bytes laid over its start, a device's last sector padded with zeros, and not a byte more;
   if it aborts, the chunks counted as written are there as streamed, and nothing outside the
   rounded-up source extent has changed.
   */
  lemma {:induction false} LoopIsCorrect(env: Environment, job: Job, base: seq<Byte>, st: LoopState)
    requires Invariant(job, base, st)
    ensures var (status, last) := Loop(env, job, st);
            && last.offset <= |last.streamed| && st.streamed <= last.streamed && st.offset <= last.offset <= job.size
            && (status == Ok ==> last.offset == job.size == |last.streamed|)
            && (status == Ok ==> last.snapshot.bytes
                                 == Overlay(base, 0, last.streamed + Zeros(Max(0, job.Extent() - job.size))))
            && (status != Ok ==> last.offset < job.size && last.offset <= |last.snapshot.bytes|)
            && (status != Ok ==> ChangedOnlyIn(base, last.snapshot.bytes, 0, job.Extent()))
            && (status != Ok ==> last.snapshot.bytes[..last.offset] == last.streamed[..last.offset])
    decreases job.size - st.offset
  {
    hide Step, Overlay, ChangedOnlyIn;
    if st.offset < job.size {
      var (status, next) := Step(env, job, st);
      if status == Ok {
        StepKeepsInvariant(env, job, base, st);
        StepAdvances(env, job, st);
        StepExtends(env, job, st);
        LoopIsCorrect(env, job, base, next);
      } else {
        StepAborts(env, job, base, st);
      }
    }
  }

  lemma StepExtends(env: Environment, job: Job, st: LoopState)
    requires job.Valid() && st.offset < job.size
    ensures st.streamed <= Step(env, job, st).1.streamed
  {
    hide Attempts, Step;
    var chunk := StepShape(env, job, st);
  }

  /** A source that never changes is streamed as it is. */
  lemma {:induction false} StableSourceIsStreamed(env: Environment, job: Job, st: LoopState, content: seq<Byte>)
    requires job.Valid() && st.offset <= job.size && forall t: nat :: env.source(t) == content
    requires st.offset <= |content| && st.streamed == content[..st.offset]
    ensures var (status, last) := Loop(env, job, st);
            && last.streamed <= content
            && (status == Ok ==> job.size <= |content| && last.streamed == content[..job.size])
    decreases job.size - st.offset
  {
    hide Step;
    if st.offset < job.size {
      var chunk := StepShape(env, job, st);
      StepStreamsSource(env, job, st, content);
      var (status, next) := Step(env, job, st);
      if status == Ok {
        StepAdvances(env, job, st);
        StableSourceIsStreamed(env, job, next, content);
      }
    }
  }

  lemma StepStreamsSource(env: Environment, job: Job, st: LoopState, content: seq<Byte>)
    requires job.Valid() && st.offset < job.size && env.source(st.snapshot.clock) == content
    requires st.offset <= |content| && st.streamed == content[..st.offset]
    ensures Step(env, job, st).1.streamed <= content
    ensures Step(env, job, st).0 == Ok ==>
              Step(env, job, st).1.offset <= |content|
              && Step(env, job, st).1.streamed == content[..Step(env, job, st).1.offset]
  {
    hide Attempts, RoundUp;
  }

  /** What failed attempts at the first chunk leave at the start of the medium. */
  function Residue(env: Environment, job: Job, s: Snapshot): seq<Byte>
    requires job.Valid()
  {
    var wanted := Min(job.size, job.bufferSize);
    var read := ReadResult(env.source(s.clock), env.transfer(s.clock), wanted, 0);
    if read.Failure? || |read.value| != wanted || WriteLength(job, wanted).None? then []
    else
      var padded := read.value + Zeros(Max(0, WriteLength(job, wanted).value - wanted));
      padded[..MostAccepted(env, job, padded, 0, job.retries, s.(clock := s.clock + 1))]
  }

  /** A loop that ends without a completed chunk leaves the residue of the first one. */
  lemma FirstChunkResidue(env: Environment, job: Job, s: Snapshot)
    requires job.Valid() && Loop(env, job, LoopState(s, 0, [], 0)).1.offset == 0
    ensures Loop(env, job, LoopState(s, 0, [], 0)).1.snapshot.bytes == Overlay(s.bytes, 0, Residue(env, job, s))
  {
    hide Attempts, Overlay, WriteLength, MostAccepted, RoundUp;
    var st := LoopState(s, 0, [], 0);
    var (status, next) := Step(env, job, st);
    if status == Ok {
      StepAdvances(env, job, st);
      OffsetsGrow(env, job, next);
    }
    NothingWritten(s.bytes, 0, []);
    var wanted := Min(job.size, job.bufferSize);
    var read := ReadResult(env.source(s.clock), env.transfer(s.clock), wanted, 0);
    if read.Success? && |read.value| == wanted && WriteLength(job, wanted).Some? {
      var padded := read.value + Zeros(Max(0, WriteLength(job, wanted).value - wanted));
      AttemptsEffect(env, job, padded, 0, job.retries, s.(clock := s.clock + 1));
    }
  }

  lemma {:induction false} OffsetsGrow(env: Environment, job: Job, st: LoopState)
    requires job.Valid() && st.offset <= job.size
    ensures st.offset <= Loop(env, job, st).1.offset
    decreases job.size - st.offset
  {
    hide Step;
    if st.offset < job.size {
      StepAdvancesOrStays(env, job, st);
      var (status, next) := Step(env, job, st);
      if status == Ok {
        StepAdvances(env, job, st);
        OffsetsGrow(env, job, next);
      }
    }
  }

  /** Conservation: every write attempt is either a counted retry or the one that completed a reported chunk. */
  lemma {:induction false} AttemptsAreCounted(env: Environment, job: Job, st: LoopState)
    requires job.Valid() && st.offset <= job.size
    ensures var s, last := st.snapshot, Loop(env, job, st).1;
            && last.snapshot.mutations - s.mutations
               == (last.retries - st.retries) + (|last.snapshot.events| - |s.events|)
            && s.events <= last.snapshot.events
    decreases job.size - st.offset
  {
    hide Step, Attempts, MostAccepted, Overlay;
    if st.offset < job.size {
      var chunk := StepShape(env, job, st);
      AttemptsEffect(env, job, chunk.padded, st.offset, job.retries, chunk.start);
      var (status, next) := Step(env, job, st);
      if status == Ok {
        StepAdvances(env, job, st);
        AttemptsAreCounted(env, job, next);
      }
    }
  }

  lemma {:induction false} LoopTakesTime(env: Environment, job: Job, st: LoopState)
    requires job.Valid() && st.offset <= job.size
    ensures st.snapshot.clock <= Loop(env, job, st).1.snapshot.clock
    decreases job.size - st.offset
  {
    hide Step, Attempts, MostAccepted, Overlay;
    if st.offset < job.size {
      var chunk := StepShape(env, job, st);
      AttemptsEffect(env, job, chunk.padded, st.offset, job.retries, chunk.start);
      var (status, next) := Step(env, job, st);
      if status == Ok {
        StepAdvances(env, job, st);
        LoopTakesTime(env, job, next);
      }
    }
  }

  lemma StepAdvancesOrStays(env: Environment, job: Job, st: LoopState)
    requires job.Valid() && st.offset < job.size
    ensures st.offset <= Step(env, job, st).1.offset
  {
    hide Attempts, RoundUp;
  }

  /** The medium is as it was exactly when the residue is what it already held. */
  lemma ResidueIsVisible(base: seq<Byte>, residue: seq<Byte>)
    ensures Overlay(base, 0, residue) == base <==> residue <= base
  {
    var after := Overlay(base, 0, residue);
    if residue <= base {
      assert after == base;
    }
    if after == base {
      forall i | 0 <= i < |residue|
        ensures i < |base| && base[i] == residue[i]
      {
        assert after[i] == residue[i];
      }
    }
  }
}
