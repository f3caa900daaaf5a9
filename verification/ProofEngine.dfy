/** Proof creation and verification as the source runs them, over reads that may fail or change. */
module ProofEngine {
  import opened Bytes
  import opened Arithmetic
  import opened Status
  import opened Text
  import opened Fips180
  import opened Merkle
  import opened Manifest
  import opened ManifestText
  import opened Io
  import opened ProofSpec
  import Streaming

  method ReadSourceExact(w: World, length: nat, offset: nat) returns (r: Result<seq<Byte>>)
    modifies w
    ensures r == SourceRead(w.env, old(w.clock), length, offset)
    ensures w.View() == old(w.View()).(clock := old(w.clock) + 1)
  {
    r := w.ReadSource(length, offset);
    if r.Success? && |r.value| != length {
      r := Failure(IoFailed);
    }
  }

  method ReadTargetExact(w: World, length: nat, offset: nat) returns (r: Result<seq<Byte>>)
    modifies w
    ensures r == TargetRead(w.env, old(w.bytes), old(w.clock), length, offset)
    ensures w.View() == old(w.View()).(clock := old(w.clock) + 1)
  {
    r := w.ReadBack(length, offset);
    if r.Success? && |r.value| != length {
      r := Failure(IoFailed);
    }
  }

  method Hash(data: seq<Byte>) returns (digest: Digest)
    ensures digest == DigestOf(data)
  {
    digest := Streaming.HashBuffer(data);
  }

  method DigestsEqual(a: Digest, b: Digest) returns (equal: bool)
    ensures equal <==> a == b
  {
    equal := ConstantTimeEqual(a, b, 32);
    assert a[..32] == a && b[..32] == b;
  }

  /** The byte comparison that localizes a mismatch. */
  method FindDifference(a: seq<Byte>, b: seq<Byte>) returns (at: nat)
    requires |a| == |b|
    ensures a != b ==> at == LeastDifference(a, b)
  {
    at := 0;
    for i := 0 to |a|
      invariant at == 0 && a[..i] == b[..i]
    {
      if a[i] != b[i] {
        at := i;
        LeastIsUnique(a, b, at);
        return;
      }
      assert a[..i + 1] == a[..i] + [a[i]] && b[..i + 1] == b[..i] + [b[i]];
    }
    assert a[..|a|] == a && b[..|b|] == b;
  }

  lemma {:induction false} LeastIsUnique(a: seq<Byte>, b: seq<Byte>, at: nat)
    requires at < |a| && at < |b| && a[..at] == b[..at] && a[at] != b[at]
    ensures at == LeastDifference(a, b)
  {
    if at > 0 {
      assert a[0] == a[..at][0] == b[..at][0] == b[0];
      assert a[1..][..at - 1] == a[..at][1..] == b[..at][1..] == b[1..][..at - 1];
      LeastIsUnique(a[1..], b[1..], at - 1);
    }
  }

  /** The position behind i chunks of a source of that size. */
  lemma ChunkBounds(size: U64, chunk: U64, n: nat, i: nat)
    requires 0 < chunk && (n - 1) * chunk < size <= n * chunk
    ensures i < n <==> i * chunk < size
    ensures i < n ==> SliceLength(size, chunk, i) == Min(chunk, size - i * chunk) > 0
    ensures i < n ==> i * chunk + SliceLength(size, chunk, i) == Min((i + 1) * chunk, size)
  {
    Monotone(chunk, i, n - 1);
    Monotone(chunk, n, i);
    assert (i + 1) * chunk == i * chunk + chunk;
  }

  /** The chunk count of a file is its true ceiling and at least one. */
  lemma FileChunks(size: FileSize, chunk: U64)
    requires 0 < size && 0 < chunk <= MAX_CHUNK_SIZE
    ensures var n := CountOf(size, chunk); 0 < n && (n - 1) * chunk < size <= n * chunk
  {
    var sum := size + chunk - 1;
    assert Wrap64(sum) == sum;
    Quotient(sum, chunk, sum / chunk);
  }

  /** Extending the chunks read by one. */
  lemma NextChunk(env: Environment, clock: nat, size: U64, chunk: U64, n: nat)
    requires AllRead(env, clock, size, chunk, n) && CreateRead(env, clock, size, chunk, n).Success?
    ensures AllRead(env, clock, size, chunk, n + 1)
    ensures ReadChunks(env, clock, size, chunk, n + 1)
            == ReadChunks(env, clock, size, chunk, n) + [CreateRead(env, clock, size, chunk, n).value]
  {
    hide CreateRead;
  }

  lemma FlattenNext(chunks: seq<seq<Byte>>, next: seq<Byte>)
    ensures Flatten(chunks + [next]) == Flatten(chunks) + next
  {
    assert (chunks + [next])[..|chunks|] == chunks;
  }

  /** Reads one chunk into the stream hash and digests it on its own. */
  method DigestChunk(w: World, ghost start: nat, size: FileSize, chunk: U64, n: nat, index: nat, offset: nat,
                     ctx: Streaming.Context)
    returns (r: Result<Digest>, length: nat)
    requires 0 < size && 0 < chunk && (n - 1) * chunk < size <= n * chunk
    requires index < n && offset == index * chunk && w.clock == start + 2 + index
    requires AllRead(w.env, start, size, chunk, index)
    requires ctx.Valid() && ctx.message == Flatten(ReadChunks(w.env, start, size, chunk, index))
    modifies w, ctx, ctx.state, ctx.buffer
    ensures w.View() == old(w.View()).(clock := old(w.clock) + 1)
    ensures length == Min(size - offset, chunk) > 0
    ensures r.Failure? ==> !CreateRead(w.env, start, size, chunk, index).Success?
    ensures r.Success? ==>
              && AllRead(w.env, start, size, chunk, index + 1)
              && ctx.Valid() && ctx.message == Flatten(ReadChunks(w.env, start, size, chunk, index + 1))
              && r.value == DigestOf(CreateRead(w.env, start, size, chunk, index).value)
  {
    hide Sha256, ReadResult, DigestOf, Streaming.Context.Valid, Flatten;
    ChunkBounds(size, chunk, n, index);
    length := Min(size - offset, chunk);
    var data := ReadSourceExact(w, length, offset);
    if data.Failure? {
      return Failure(IoFailed), length;
    }
    ctx.Update(data.value);
    var digest := Hash(data.value);
    NextChunk(w.env, start, size, chunk, index);
    FlattenNext(ReadChunks(w.env, start, size, chunk, index), data.value);
    r := Success(digest);
  }

  /** Reads the source chunk by chunk, hashing the stream and every chunk. */
  method DigestChunks(w: World, ghost start: nat, size: FileSize, chunk: U64, n: nat)
    returns (r: Result<(seq<Digest>, Digest)>)
    requires 0 < size && 0 < chunk && (n - 1) * chunk < size <= n * chunk
    requires w.clock == start + 2
    modifies w
    ensures w.bytes == old(w.bytes) && w.mutations == old(w.mutations)
    ensures r.Success? <==> AllRead(w.env, start, size, chunk, n)
    ensures r.Success? ==>
              var chunks := ReadChunks(w.env, start, size, chunk, n);
              r.value == (Digests(chunks), StreamDigest(chunks)) && w.clock == start + 2 + n
    ensures r.Failure? ==> r.error == IoFailed
  {
    hide Sha256, CreateRead, DigestOf, Streaming.Context.Valid, Flatten;
    var ctx := new Streaming.Context();
    var hashes := new Digest[n];
    var offset: U64, index := 0, 0;
    NoChunks(w.env, start, size, chunk);
    while offset < size
      invariant 0 <= index <= n && offset == Min(index * chunk, size)
      invariant w.clock == start + 2 + index && w.bytes == old(w.bytes) && w.mutations == old(w.mutations)
      invariant AllRead(w.env, start, size, chunk, index)
      invariant ctx.Valid() && fresh(ctx) && fresh(ctx.state) && fresh(ctx.buffer)
      invariant ctx.message == Flatten(ReadChunks(w.env, start, size, chunk, index))
      invariant hashes[..index] == Digests(ReadChunks(w.env, start, size, chunk, index))
      decreases size - offset
    {
      ChunkBounds(size, chunk, n, index);
      var digest, length := DigestChunk(w, start, size, chunk, n, index, offset, ctx);
      if digest.Failure? {
        return Failure(IoFailed);
      }
      hashes[index] := digest.value;
      offset := offset + length;
      index := index + 1;
    }
    ChunkBounds(size, chunk, n, index);
    var stream := ctx.Final();
    assert hashes[..index] == hashes[..];
    r := Success((hashes[..], stream));
  }

  lemma NoChunks(env: Environment, start: nat, size: U64, chunk: U64)
    ensures AllRead(env, start, size, chunk, 0)
    ensures Flatten(ReadChunks(env, start, size, chunk, 0)) == []
  {
  }

  /** The manifest of a chunked file is well formed. */
  lemma CreatedIsWellFormed(size: U64, chunk: U64, chunks: seq<seq<Byte>>)
    requires 0 < size && 0 < chunk <= MAX_CHUNK_SIZE && 0 < |chunks| <= MAX_CHUNKS
    requires (|chunks| - 1) * chunk < size <= |chunks| * chunk
    ensures WellFormed(ManifestOf(size, chunk, chunks))
    ensures |ManifestOf(size, chunk, chunks).chunkHashes| == |ManifestOf(size, chunk, chunks).chunkLengths|
  {
    hide Root, StreamDigest, DigestOf;
    var m := ManifestOf(size, chunk, chunks);
    forall i | 0 <= i < |chunks|
      ensures m.chunkLengths[i] == ChunkLength(m.summary, i)
    {
      ChunkBounds(size, chunk, |chunks|, i);
      assert (i + 1) * chunk == i * chunk + chunk;
      Monotone(chunk, i + 1, |chunks| - 1);
    }
  }

  /** Creates a proof: the manifest of the chunks read, and its printed form. */
  method CreateProof(w: World, requested: U64) returns (r: Result<(Manifest, seq<Token>)>)
    modifies w
    ensures w.bytes == old(w.bytes) && w.mutations == old(w.mutations)
    ensures var expected := CreateResult(w.env, old(w.clock), requested);
            && (expected.Failure? ==> r == Failure(expected.error))
            && (expected.Success? ==>
                  && WellFormed(expected.value)
                  && |expected.value.chunkHashes| == |expected.value.chunkLengths|
                  && r == Success((expected.value, Printed(expected.value))))
  {
    hide AllRead, ReadChunks, Printed, Root, Digests, StreamDigest, WellFormed, WrappedCeiling;
    var chunk := EffectiveChunk(requested);
    if chunk < MIN_CHUNK || chunk > MAX_CHUNK_SIZE {
      return Failure(InvalidArgument);
    }
    var now := w.Tick();
    var opening := w.env.openSource(now);
    if opening.Failure? {
      return Failure(opening.error);
    }
    var size := opening.value;
    if size == 0 {
      return Failure(TooSmall);
    }
    FileChunks(size, chunk);
    var n := CountOf(size, chunk);
    if n > MAX_CHUNKS {
      return Failure(TooLarge);
    }
    var memory := w.Allocate();
    if !memory {
      return Failure(NoMemory);
    }
    var digests := DigestChunks(w, now, size, chunk, n);
    if digests.Failure? {
      return Failure(IoFailed);
    }
    var (hashes, stream) := digests.value;
    var treeMemory := w.Allocate();
    var root := MerkleRoot(hashes, treeMemory);
    if root.Failure? {
      return Failure(root.error);
    }
    ghost var chunks := ReadChunks(w.env, now, size, chunk, n);
    var lengths := seq(n, i requires 0 <= i < n => SliceLength(size, chunk, i));
    var m := Manifest(Summary(size, chunk, n, stream, root.value), hashes, lengths);
    assert lengths == Lengths(size, chunk, n);
    assert m == ManifestOf(size, chunk, chunks);
    CreatedIsWellFormed(size, chunk, chunks);
    var tokens := PrintWellFormed(m);
    r := Success((m, tokens));
  }

  /** The target half of one chunk: None if it matches the source. */
  method VerifyTarget(w: World, ghost run: Run, m: Manifest, k: nat, source: seq<Byte>, digest: Digest,
                      result: ProofResult)
    returns (ending: Option<(Status, ProofResult)>)
    requires m == run.manifest && run.env == w.env && run.bytes == w.bytes
    requires k < run.Count() == |m.chunkLengths| == |m.chunkHashes| && run.PassesUpTo(k)
    requires w.clock == run.tick + 2 * k + 1 && result == run.Progress(k)
    requires run.Source(k) == Success(source) && digest == DigestOf(source) == m.chunkHashes[k]
    modifies w
    ensures w.View() == old(w.View()).(clock := old(w.clock) + 1)
    ensures ending.None? ==> run.Passes(k)
    ensures ending.Some? ==> !run.Passes(k) && ending.value == run.Ending(k)
  {
    hide Sha256, ReadResult, DigestOf, LeastDifference, Run.Sources, StreamDigest;
    var offset := k * m.summary.chunkSize;
    var target := ReadTargetExact(w, m.chunkLengths[k], offset);
    if target.Failure? {
      return Some((target.error, result));
    }
    var targetDigest := Hash(target.value);
    var same := DigestsEqual(digest, targetDigest);
    if !same {
      var at := FindDifference(source, target.value);
      return Some((VerifyMismatch,
                   result.(firstBadChunk := k, firstBadOffset := offset + at, expected := digest,
                           actual := targetDigest, state := TargetMismatch)));
    }
    ending := None;
  }

  /** One chunk of a verification: None if it passes, otherwise how the run ends there. */
  method VerifyChunk(w: World, ghost run: Run, m: Manifest, ctx: Streaming.Context, k: nat, result: ProofResult)
    returns (ending: Option<(Status, ProofResult)>)
    requires m == run.manifest && run.env == w.env && run.bytes == w.bytes
    requires k < run.Count() == |m.chunkLengths| == |m.chunkHashes| && run.PassesUpTo(k)
    requires w.clock == run.tick + 2 * k && result == run.Progress(k)
    requires ctx.Valid() && ctx.message == Flatten(run.Sources(k))
    modifies w, ctx, ctx.state, ctx.buffer
    ensures w.bytes == old(w.bytes) && w.mutations == old(w.mutations)
    ensures ending.None? ==>
              && run.PassesUpTo(k + 1) && w.clock == run.tick + 2 * (k + 1)
              && ctx.Valid() && ctx.message == Flatten(run.Sources(k + 1))
    ensures ending.Some? ==> !run.Passes(k) && ending.value == run.Ending(k)
  {
    hide Sha256, ReadResult, DigestOf, Streaming.Context.Valid, LeastDifference, StreamDigest, TargetRead, Flatten;
    var offset := k * m.summary.chunkSize;
    var source := ReadSourceExact(w, m.chunkLengths[k], offset);
    if source.Failure? {
      return Some((source.error, result));
    }
    ctx.Update(source.value);
    var digest := Hash(source.value);
    var same := DigestsEqual(digest, m.chunkHashes[k]);
    if !same {
      return Some((IdentityChanged,
                   result.(firstBadChunk := k, firstBadOffset := offset, state := SourceChanged)));
    }
    ending := VerifyTarget(w, run, m, k, source.value, digest, result);
    if ending.None? {
      FlattenNext(run.Sources(k), source.value);
      assert run.Sources(k + 1) == run.Sources(k) + [source.value];
    }
  }

  lemma ProgressStep(run: Run, k: nat)
    requires run.Valid() && |run.manifest.chunkLengths| == run.Count() && k < run.Count()
    ensures run.Progress(k + 1)
            == run.Progress(k).(chunksVerified := k + 1,
                                bytesVerified := run.Progress(k).bytesVerified + run.manifest.chunkLengths[k])
  {
    hide Root;
    var s := run.manifest.summary;
    ChunksTile(run.manifest, k);
    Monotone(s.chunkSize, k + 1, s.chunkCount - 1);
    assert (k + 1) * s.chunkSize == k * s.chunkSize + s.chunkSize;
  }

  /** The final comparison of the whole-source digest. */
  method Conclude(ghost run: Run, m: Manifest, ctx: Streaming.Context, progress: ProofResult)
    returns (status: Status, result: ProofResult)
    requires m == run.manifest && |m.chunkHashes| == |m.chunkLengths| == run.Count() && run.PassesUpTo(run.Count())
    requires ctx.Valid() && ctx.message == Flatten(run.Sources(run.Count())) && progress == run.Progress(run.Count())
    modifies ctx, ctx.state, ctx.buffer
    ensures (status, result) == run.Ending(run.Count())
  {
    hide Sha256, Run.Passes, Run.Sources, Flatten, Streaming.Context.Valid;
    var digest := ctx.Final();
    var same := DigestsEqual(digest, m.summary.sourceSha256);
    if same {
      status, result := Ok, progress.(state := SuccessProven);
    } else {
      status, result := IdentityChanged, progress.(state := SourceChanged);
    }
  }

  /** The chunk loop. */
  method VerifyChunks(w: World, ghost run: Run, m: Manifest) returns (status: Status, result: ProofResult)
    requires WellFormed(m) && m == run.manifest && run.env == w.env && run.bytes == w.bytes && w.clock == run.tick
    modifies w
    ensures w.bytes == old(w.bytes) && w.mutations == old(w.mutations)
    ensures |m.chunkHashes| == |m.chunkLengths| == run.Count()
    ensures var k := result.chunksVerified;
            && k <= run.Count() && run.PassesUpTo(k) && (k < run.Count() ==> !run.Passes(k))
            && (status, result) == run.Ending(k)
  {
    hide Run.Passes, Run.Progress, Run.Sources, Run.Ending, Streaming.Context.Valid, Root, Flatten;
    var ctx := new Streaming.Context();
    NothingYet(run);
    result := NOTHING_VERIFIED;
    for k := 0 to m.summary.chunkCount
      invariant w.bytes == old(w.bytes) && w.mutations == old(w.mutations)
      invariant w.clock == run.tick + 2 * k && result == run.Progress(k) && run.PassesUpTo(k)
      invariant ctx.Valid() && fresh(ctx) && fresh(ctx.state) && fresh(ctx.buffer)
      invariant ctx.message == Flatten(run.Sources(k))
    {
      var ending := VerifyChunk(w, run, m, ctx, k, result);
      if ending.Some? {
        status, result := ending.value.0, ending.value.1;
        EndingCounts(run, k);
        return;
      }
      ProgressStep(run, k);
      result := result.(chunksVerified := k + 1, bytesVerified := result.bytesVerified + m.chunkLengths[k]);
    }
    status, result := Conclude(run, m, ctx, result);
    EndingCounts(run, run.Count());
  }

  lemma NothingYet(run: Run)
    requires |run.manifest.chunkLengths| == |run.manifest.chunkHashes| && 0 < run.manifest.summary.sourceSize
    ensures run.Progress(0) == NOTHING_VERIFIED && Flatten(run.Sources(0)) == []
  {
    hide Sha256;
  }

  lemma EndingCounts(run: Run, k: nat)
    requires k <= |run.manifest.chunkLengths| == |run.manifest.chunkHashes| == run.Count() && run.PassesUpTo(k)
    ensures run.Ending(k).1.chunksVerified == k
  {
    hide Sha256;
  }

  /** Opens both files, compares sizes with the manifest and allocates the buffers. */
  method StartVerify(w: World, m: Manifest) returns (status: Status)
    modifies w
    ensures w.bytes == old(w.bytes) && w.mutations == old(w.mutations)
    ensures status == StartStatus(w.env, old(w.clock), m)
    ensures status == Ok ==> w.clock == old(w.clock) + 3
  {
    var now := w.Tick();
    var source := w.env.openSource(now);
    if source.Failure? {
      return source.error;
    }
    now := w.Tick();
    var target := w.env.openReadback(now);
    if target.Failure? {
      return target.error;
    }
    if source.value != m.summary.sourceSize {
      return IdentityChanged;
    }
    if target.value != 0 && target.value < m.summary.sourceSize {
      return TooSmall;
    }
    var buffers := w.Allocate();
    status := if buffers then Ok else NoMemory;
  }

  /**
   What the two opens decide before a chunk is read: only a source of the manifest's size and a target
   that is not known to be shorter are verified, and each refusal has its own status.
   */
  ghost predicate OpensDecide(env: Environment, clock: nat, size: nat, status: Status, result: ProofResult) {
    var source, target := env.openSource(clock), env.openReadback(clock + 1);
    && (result.state == SuccessProven ==>
          source == Success(size) && target.Success? && (target.value == 0 || size <= target.value))
    && (source.Failure? ==> status == source.error && result == NOTHING_VERIFIED)
    && (source.Success? && target.Failure? ==> status == target.error && result == NOTHING_VERIFIED)
    && (source.Success? && target.Success? ==>
          && (status == IdentityChanged && result == NOTHING_VERIFIED <==> source.value != size)
          && (status == TooSmall && result == NOTHING_VERIFIED <==>
              source.value == size && target.value != 0 && target.value < size)
          && (source.value == size && (target.value == 0 || size <= target.value) && !env.memory(clock + 2) ==>
                status == NoMemory && result == NOTHING_VERIFIED))
  }

  /** No chunk ends a run as the opens do. */
  lemma EndingIsNoRefusal(run: Run, k: nat)
    requires k <= |run.manifest.chunkLengths| == |run.manifest.chunkHashes| == run.Count() && run.PassesUpTo(k)
    requires k < run.Count() ==> !run.Passes(k)
    ensures var (status, result) := run.Ending(k);
            status == IdentityChanged || status == TooSmall ==> result != NOTHING_VERIFIED
  {
    hide Sha256, DigestOf, LeastDifference, Run.Sources;
  }

  /** Loads the manifest text, checks sizes and memory, then verifies chunk by chunk. */
  method VerifyProof(w: World, tokens: seq<Token>) returns (status: Status, result: ProofResult, ghost m: Option<Manifest>)
    modifies w
    ensures w.bytes == old(w.bytes) && w.mutations == old(w.mutations)
    ensures m.Some? ==> Denotes(tokens, m.value) && WellFormed(m.value)
    ensures m.None? ==> status != Ok && result == NOTHING_VERIFIED
    ensures m.None? && w.env.memory(old(w.clock)) && w.env.memory(old(w.clock) + 1) ==>
              status == FormatFailed && forall x :: !Denotes(tokens, x)
    ensures m.Some? ==>
              var start := StartStatus(w.env, old(w.clock) + 2, m.value);
              var run := Run(w.env, old(w.bytes), old(w.clock) + 5, m.value);
              && |m.value.chunkHashes| == |m.value.chunkLengths| == run.Count()
              && (start != Ok ==> status == start && result == NOTHING_VERIFIED)
              && (start == Ok ==>
                    var k := result.chunksVerified;
                    && k <= run.Count() && run.PassesUpTo(k) && (k < run.Count() ==> !run.Passes(k))
                    && (status, result) == run.Ending(k))
    ensures m.Some? ==> OpensDecide(w.env, old(w.clock) + 2, m.value.summary.sourceSize, status, result)
  {
    hide Denotes, Run.Passes, Run.Ending, Root;
    result, m := NOTHING_VERIFIED, None;
    var memory := w.Allocate();
    var treeMemory := w.Allocate();
    var loaded := Load(tokens, memory, treeMemory);
    if loaded.Failure? {
      status := loaded.error;
      return;
    }
    var manifest := loaded.value;
    m := Some(manifest);
    DenotedIsWellFormed(tokens, manifest);
    status := StartVerify(w, manifest);
    if status != Ok {
      return;
    }
    ghost var run := Run(w.env, w.bytes, w.clock, manifest);
    status, result := VerifyChunks(w, run, manifest);
    EndingIsNoRefusal(run, result.chunksVerified);
  }
}
