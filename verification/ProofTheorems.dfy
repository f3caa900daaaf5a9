/** What a verification outcome says about the bytes that were read. */
module ProofTheorems {
  import opened Bytes
  import opened Arithmetic
  import opened Status
  import opened Fips180
  import opened Merkle
  import opened Manifest
  import opened Io
  import opened ProofSpec
  import opened ProofEngine
  import opened ManifestText

  /** Among the first k chunks read, source and target differ somewhere under one digest. */
  ghost predicate ChunkCollision(run: Run, k: nat)
    requires k <= |run.manifest.chunkLengths| == |run.manifest.chunkHashes| && run.PassesUpTo(k)
  {
    exists i :: 0 <= i < k && Collision(run.Sources(k)[i], run.Targets(k)[i])
  }

  /** Chunks that pass are equal, or their digests collide. */
  lemma PassingChunksAgree(run: Run, k: nat)
    requires k <= |run.manifest.chunkLengths| == |run.manifest.chunkHashes| && run.PassesUpTo(k)
    ensures run.Sources(k) == run.Targets(k) || ChunkCollision(run, k)
  {
    hide Sha256;
    if run.Sources(k) != run.Targets(k) {
      var i :| 0 <= i < k && run.Sources(k)[i] != run.Targets(k)[i];
      assert run.Passes(i);
      assert Collision(run.Sources(k)[i], run.Targets(k)[i]);
    }
  }

  lemma NextRead(run: Run, k: nat)
    requires k < |run.manifest.chunkLengths| == |run.manifest.chunkHashes| && run.PassesUpTo(k + 1)
    ensures var sources, targets := run.Sources(k + 1), run.Targets(k + 1);
            && sources == run.Sources(k) + [sources[k]] && run.Source(k) == Success(sources[k])
            && targets == run.Targets(k) + [targets[k]] && run.Target(k) == Success(targets[k])
            && |sources[k]| == |targets[k]| == run.manifest.chunkLengths[k]
  {
    hide Sha256;
    assert run.Passes(k);
  }

  lemma {:induction false} ReadLength(run: Run, k: nat)
    requires run.Valid() && |run.manifest.chunkHashes| == |run.manifest.chunkLengths| == run.Count()
    requires k <= run.Count() && run.PassesUpTo(k)
    ensures |Flatten(run.Sources(k))| == |Flatten(run.Targets(k))| == run.Progress(k).bytesVerified
  {
    hide Run.Passes, Run.Sources, Run.Targets, Run.Progress, Root;
    if k == 0 {
      NothingYet(run);
    } else {
      ReadLength(run, k - 1);
      NextRead(run, k - 1);
      FlattenNext(run.Sources(k - 1), run.Sources(k)[k - 1]);
      FlattenNext(run.Targets(k - 1), run.Targets(k)[k - 1]);
      ProgressStep(run, k - 1);
    }
  }

  /**
   success_proven is sound: the bytes read from source and target are as many as the manifest says,
   every chunk of either has the recorded digest, the source as a whole has the recorded digest, and
   source and target are equal unless two chunks collide.
   */
  lemma SuccessIsSound(run: Run, k: nat)
    requires run.Valid() && |run.manifest.chunkHashes| == |run.manifest.chunkLengths| == run.Count()
    requires k <= run.Count() && run.PassesUpTo(k) && run.Ending(k).1.state == SuccessProven
    ensures run.Ending(k).0 == Ok && k == run.Count()
    ensures run.Ending(k).1.bytesVerified == run.manifest.summary.sourceSize
    ensures var source, target := Flatten(run.Sources(k)), Flatten(run.Targets(k));
            && |source| == |target| == run.manifest.summary.sourceSize
            && Sha256(source) == run.manifest.summary.sourceSha256
            && (source == target || ChunkCollision(run, k))
    ensures forall i :: 0 <= i < k ==> Sha256(run.Sources(k)[i]) == run.manifest.chunkHashes[i]
                                       == Sha256(run.Targets(k)[i])
  {
    hide Sha256, Root, Run.Source, Run.Target, Flatten, ChunkCollision;
    ReadLength(run, k);
    PassingChunksAgree(run, k);
    forall i | 0 <= i < k
      ensures Sha256(run.Sources(k)[i]) == run.manifest.chunkHashes[i] == Sha256(run.Targets(k)[i])
    {
      assert run.Passes(i);
    }
  }

  /** Every tick of the source read shows the same bytes. */
  ghost predicate StableSource(env: Environment, content: seq<Byte>) {
    forall t: nat :: env.source(t) == content
  }

  /** Every tick of the target read shows the same bytes. */
  ghost predicate StableTarget(run: Run, content: seq<Byte>) {
    forall t: nat :: run.env.readback(t, run.bytes) == content
  }

  /** No transfer fails or stops short of a chunk. */
  ghost predicate FaultFree(env: Environment) {
    forall t: nat :: env.transfer(t).Moved? && env.transfer(t).limit >= MAX_CHUNK_SIZE
  }

  /** Over stable bytes, the chunk read is the slice of the content at its offset. */
  lemma StableChunk(run: Run, source: seq<Byte>, target: seq<Byte>, i: nat)
    requires StableSource(run.env, source) && StableTarget(run, target)
    requires i < |run.manifest.chunkLengths|
    ensures run.Source(i).Success? ==>
              run.Source(i).value == Window(source, run.Offset(i), run.manifest.chunkLengths[i])
              && run.Offset(i) + run.manifest.chunkLengths[i] <= Max(|source|, run.Offset(i))
    ensures run.Target(i).Success? ==>
              run.Target(i).value == Window(target, run.Offset(i), run.manifest.chunkLengths[i])
              && run.Offset(i) + run.manifest.chunkLengths[i] <= Max(|target|, run.Offset(i))
  {
  }

  lemma WindowSteps(content: seq<Byte>, n: nat, more: nat)
    requires n + more <= |content|
    ensures content[..n] + Window(content, n, more) == content[..n + more]
  {
  }

  /** Over stable bytes, the chunks read so far are the prefixes of source and target. */
  lemma {:induction false} PrefixRead(run: Run, source: seq<Byte>, target: seq<Byte>, k: nat)
    requires run.Valid() && |run.manifest.chunkHashes| == |run.manifest.chunkLengths| == run.Count()
    requires StableSource(run.env, source) && StableTarget(run, target)
    requires k <= run.Count() && run.PassesUpTo(k)
    ensures var n := run.Progress(k).bytesVerified;
            && n <= |source| && n <= |target|
            && Flatten(run.Sources(k)) == source[..n] && Flatten(run.Targets(k)) == target[..n]
  {
    hide Run.Passes, Run.Sources, Run.Targets, Root, StableSource, StableTarget, Run.Source, Run.Target;
    if k == 0 {
      NothingYet(run);
    } else {
      PrefixRead(run, source, target, k - 1);
      NextRead(run, k - 1);
      StableChunk(run, source, target, k - 1);
      FlattenNext(run.Sources(k - 1), run.Sources(k)[k - 1]);
      FlattenNext(run.Targets(k - 1), run.Targets(k)[k - 1]);
      ProgressStep(run, k - 1);
      FullOffset(run, k - 1);
      WindowSteps(source, run.Offset(k - 1), run.manifest.chunkLengths[k - 1]);
      WindowSteps(target, run.Offset(k - 1), run.manifest.chunkLengths[k - 1]);
    }
  }

  /** Before the last chunk the progress is a whole number of chunks. */
  lemma FullOffset(run: Run, k: nat)
    requires run.Valid() && |run.manifest.chunkLengths| == run.Count() && k < run.Count()
    ensures run.Progress(k).bytesVerified == run.Offset(k) < run.manifest.summary.sourceSize
    ensures 0 < run.manifest.chunkLengths[k]
            && run.Offset(k) + run.manifest.chunkLengths[k] <= run.manifest.summary.sourceSize
  {
    hide Root;
    ChunkBounds(run.manifest.summary.sourceSize, run.manifest.summary.chunkSize, run.Count(), k);
    ChunksTile(run.manifest, k);
    Monotone(run.manifest.summary.chunkSize, k + 1, run.Count() - 1);
  }

  /** What the ending of a mismatch was computed from. */
  lemma MismatchShape(run: Run, k: nat)
    requires |run.manifest.chunkHashes| == |run.manifest.chunkLengths| == run.Count()
    requires k < run.Count() && run.PassesUpTo(k) && run.Ending(k).1.state == TargetMismatch && !run.Passes(k)
    ensures run.Source(k).Success? && run.Target(k).Success? && run.Ending(k).0 == VerifyMismatch
    ensures var a, b, result := run.Source(k).value, run.Target(k).value, run.Ending(k).1;
            && |a| == |b| == run.manifest.chunkLengths[k] && DigestOf(a) != DigestOf(b)
            && result.firstBadChunk == k && result.bytesVerified == run.Progress(k).bytesVerified
            && result.firstBadOffset == run.Offset(k) + LeastDifference(a, b)
            && result.expected == DigestOf(a) && result.actual == DigestOf(b)
  {
    hide Sha256, DigestOf, LeastDifference, Run.Sources, ReadResult;
  }

  /** All bytes read from the two sides when chunk k fails on the target. */
  function ReadUpTo(before: seq<seq<Byte>>, last: Result<seq<Byte>>): seq<Byte> {
    Flatten(before) + if last.Success? then last.value else []
  }

  /**
   A target mismatch is localized exactly in the bytes that were read, even if source and target
   change meanwhile: the two sides differ at the reported offset and nowhere before it, unless an
   earlier pair of chunks collides. The bytes counted as verified are the whole chunks before it.
   */
  lemma MismatchInReadBytes(run: Run, k: nat)
    requires run.Valid() && |run.manifest.chunkHashes| == |run.manifest.chunkLengths| == run.Count()
    requires k < run.Count() && run.PassesUpTo(k) && !run.Passes(k) && run.Ending(k).1.state == TargetMismatch
    ensures var source, target := ReadUpTo(run.Sources(k), run.Source(k)), ReadUpTo(run.Targets(k), run.Target(k));
            var result := run.Ending(k).1;
            var at := result.firstBadOffset;
            && result.firstBadChunk == k && result.bytesVerified == k * run.manifest.summary.chunkSize
            && result.bytesVerified <= at < |source| == |target|
            && source[at] != target[at] && (source[..at] == target[..at] || ChunkCollision(run, k))
  {
    hide Sha256, Root, DigestOf, Run.Ending, Run.Passes, Run.Sources, Run.Targets, Run.Source, Run.Target, LeastDifference,
         Flatten;
    MismatchShape(run, k);
    FullOffset(run, k);
    ReadLength(run, k);
    PassingChunksAgree(run, k);
    DifferentDigests(run.Source(k).value, run.Target(k).value);
    LocalizeBehind(Flatten(run.Sources(k)), Flatten(run.Targets(k)), run.Source(k).value, run.Target(k).value);
  }

  /** A difference is kept behind two texts of one length, and is the first one if they are equal. */
  lemma LocalizeBehind(p: seq<Byte>, q: seq<Byte>, a: seq<Byte>, b: seq<Byte>)
    requires |p| == |q| && LeastDifference(a, b) < |a| == |b|
    ensures var at := |p| + LeastDifference(a, b);
            (p + a)[at] != (q + b)[at] && (p == q ==> (p + a)[..at] == (q + b)[..at])
  {
    var d := LeastDifference(a, b);
    assert (p + a)[..|p| + d] == p + a[..d] && (q + b)[..|q| + d] == q + b[..d];
  }

  /**
   A target mismatch is localized exactly: over stable bytes the reported offset is a byte where
   source and target differ, and it is the first one unless an earlier pair of chunks collides. The
   bytes counted as verified are the whole chunks before it.
   */
  lemma MismatchIsExact(run: Run, source: seq<Byte>, target: seq<Byte>, k: nat)
    requires run.Valid() && |run.manifest.chunkHashes| == |run.manifest.chunkLengths| == run.Count()
    requires StableSource(run.env, source) && StableTarget(run, target)
    requires k < run.Count() && run.PassesUpTo(k) && !run.Passes(k) && run.Ending(k).1.state == TargetMismatch
    ensures run.Ending(k).0 == VerifyMismatch
    ensures var result := run.Ending(k).1;
            var at := result.firstBadOffset;
            && result.firstBadChunk == k && result.bytesVerified == k * run.manifest.summary.chunkSize
            && result.bytesVerified <= at < result.bytesVerified + run.manifest.chunkLengths[k]
            && at < |source| && at < |target| && source[at] != target[at]
            && (source[..at] == target[..at] || ChunkCollision(run, k))
            && result.expected != result.actual
  {
    hide Sha256, Root, DigestOf, Run.Ending, Run.Passes, Run.Sources, Run.Targets, StableSource, StableTarget;
    MismatchShape(run, k);
    FullOffset(run, k);
    PrefixRead(run, source, target, k);
    PassingChunksAgree(run, k);
    StableChunk(run, source, target, k);
    DifferentDigests(run.Source(k).value, run.Target(k).value);
    LocalizeInPrefix(source, target, run.Offset(k), run.manifest.chunkLengths[k]);
  }

  /** A difference inside a window is a difference of the whole, after the same common prefix. */
  lemma LocalizeInPrefix(x: seq<Byte>, y: seq<Byte>, n: nat, length: nat)
    requires n + length <= |x| && n + length <= |y|
    requires LeastDifference(Window(x, n, length), Window(y, n, length)) < length
    ensures var at := n + LeastDifference(Window(x, n, length), Window(y, n, length));
            x[at] != y[at] && (x[..n] == y[..n] ==> x[..at] == y[..at])
  {
    var a, b := Window(x, n, length), Window(y, n, length);
    var d := LeastDifference(a, b);
    assert x[n + d] == a[d] && y[n + d] == b[d];
    if x[..n] == y[..n] {
      SplitPrefix(x, y, n, length, d);
    }
  }

  lemma DifferentDigests(a: seq<Byte>, b: seq<Byte>)
    requires |a| == |b| && DigestOf(a) != DigestOf(b)
    ensures LeastDifference(a, b) < |a|
  {
    hide Sha256;
    assert a[..|a|] == a && b[..|b|] == b;
  }

  lemma SplitPrefix(x: seq<Byte>, y: seq<Byte>, n: nat, length: nat, d: nat)
    requires n + length <= |x| && n + length <= |y| && d <= length
    requires x[..n] == y[..n] && Window(x, n, length)[..d] == Window(y, n, length)[..d]
    ensures x[..n + d] == y[..n + d]
  {
    forall i | 0 <= i < n + d
      ensures x[i] == y[i]
    {
      if i < n {
        assert x[i] == x[..n][i] == y[..n][i];
      } else {
        assert x[i] == Window(x, n, length)[..d][i - n] == Window(y, n, length)[..d][i - n];
      }
    }
  }

  /** The chunks of a whole content. */
  function Slices(content: seq<Byte>, size: U64, chunk: U64, n: nat): (r: seq<seq<Byte>>)
    ensures |r| == n
  {
    seq(n, i requires 0 <= i < n => Window(content, i * chunk, SliceLength(size, chunk, i)))
  }

  /** Creation from a stable, readable source yields the manifest of its slices. */
  lemma CreateFromStable(env: Environment, clock: nat, requested: U64, content: seq<Byte>)
    requires StableSource(env, content) && FaultFree(env) && CreateResult(env, clock, requested).Success?
    requires env.openSource(clock) == Success(|content|)
    ensures var chunk := EffectiveChunk(requested);
            var n := CountOf(|content|, chunk);
            && 0 < n <= MAX_CHUNKS && 0 < chunk <= MAX_CHUNK_SIZE && (n - 1) * chunk < |content| <= n * chunk
            && CreateResult(env, clock, requested)
               == Success(ManifestOf(|content|, chunk, Slices(content, |content|, chunk, n)))
  {
    hide ManifestOf, WrappedCeiling;
    var chunk := EffectiveChunk(requested);
    FileChunks(|content|, chunk);
    var n := CountOf(|content|, chunk);
    assert ReadChunks(env, clock, |content|, chunk, n) == Slices(content, |content|, chunk, n) by {
      forall i | 0 <= i < n
        ensures CreateRead(env, clock, |content|, chunk, i).value == Slices(content, |content|, chunk, n)[i]
      {
        ChunkBounds(|content|, chunk, n, i);
      }
    }
  }

  /** A chunk of a matching source and target passes. */
  lemma SlicePasses(run: Run, source: seq<Byte>, target: seq<Byte>, chunk: U64, n: nat, i: nat)
    requires StableSource(run.env, source) && StableTarget(run, target) && FaultFree(run.env)
    requires 0 < |source| <= U64_MAX && 0 < chunk <= MAX_CHUNK_SIZE && i < n <= MAX_CHUNKS
    requires (n - 1) * chunk < |source| <= n * chunk && source <= target
    requires run.manifest == ManifestOf(|source|, chunk, Slices(source, |source|, chunk, n))
    ensures |run.manifest.chunkLengths| == |run.manifest.chunkHashes| == n
    ensures run.Passes(i) && run.Source(i) == Success(Slices(source, |source|, chunk, n)[i])
  {
    hide Sha256, Root, StreamDigest, DigestOf;
    ChunkBounds(|source|, chunk, n, i);
    var slice := Window(source, i * chunk, SliceLength(|source|, chunk, i));
    assert Window(target, i * chunk, SliceLength(|source|, chunk, i)) == slice;
    assert run.Source(i) == Success(slice) && run.Target(i) == Success(slice);
  }

  /**
   Completeness: a manifest created from a stable source proves that source against every target that
   starts with it, with every byte and chunk counted.
   */
  lemma VerifyIsComplete(run: Run, source: seq<Byte>, target: seq<Byte>, chunk: U64, n: nat)
    requires StableSource(run.env, source) && StableTarget(run, target) && FaultFree(run.env)
    requires 0 < |source| <= U64_MAX && 0 < chunk <= MAX_CHUNK_SIZE && 0 < n <= MAX_CHUNKS
    requires (n - 1) * chunk < |source| <= n * chunk && source <= target
    requires run.manifest == ManifestOf(|source|, chunk, Slices(source, |source|, chunk, n))
    ensures run.Count() == n == |run.manifest.chunkLengths| == |run.manifest.chunkHashes| && run.PassesUpTo(n)
    ensures run.Ending(n) == (Ok, NOTHING_VERIFIED.(bytesVerified := |source|, chunksVerified := n,
                                                    state := SuccessProven))
  {
    hide Sha256, Root, StreamDigest, Digests, Lengths, Run.Passes, Run.Source, StableSource, StableTarget, FaultFree;
    var slices := Slices(source, |source|, chunk, n);
    forall i | 0 <= i < n
      ensures run.Passes(i) && run.Source(i) == Success(slices[i])
    {
      SlicePasses(run, source, target, chunk, n, i);
    }
    assert run.Sources(n) == slices;
  }

  /** Files open with the expected size and memory never runs out. */
  ghost predicate Cooperative(env: Environment, size: nat) {
    forall t: nat ::
      && env.memory(t) && env.openReadback(t).Success?
      && (env.openReadback(t).value == 0 || env.openReadback(t).value >= size)
      && env.openSource(t).Success? && env.openSource(t).value == size
  }

  lemma CreateSucceeds(env: Environment, clock: nat, requested: U64, content: seq<Byte>)
    requires StableSource(env, content) && FaultFree(env) && Cooperative(env, |content|) && 0 < |content|
    requires var chunk := EffectiveChunk(requested);
             MIN_CHUNK <= chunk <= MAX_CHUNK_SIZE && |content| <= chunk * MAX_CHUNKS
    ensures CreateResult(env, clock, requested).Success? && env.openSource(clock) == Success(|content|)
  {
    hide ManifestOf, WrappedCeiling, CreateRead;
    assert env.openSource(clock).value == |content|;
    assert env.memory(clock + 1);
    var chunk := EffectiveChunk(requested);
    FileChunks(|content|, chunk);
    var n := CountOf(|content|, chunk);
    assert env.memory(clock + 2 + n);
    Monotone(chunk, MAX_CHUNKS, n - 1);
    forall i | 0 <= i < n
      ensures CreateRead(env, clock, |content|, chunk, i).Success?
    {
      ChunkReadSucceeds(env, clock, content, chunk, n, i);
    }
  }

  lemma ChunkReadSucceeds(env: Environment, clock: nat, content: seq<Byte>, chunk: U64, n: nat, i: nat)
    requires StableSource(env, content) && FaultFree(env) && 0 < |content| <= U64_MAX && 0 < chunk <= MAX_CHUNK_SIZE
    requires (n - 1) * chunk < |content| <= n * chunk && i < n
    ensures CreateRead(env, clock, |content|, chunk, i).Success?
  {
    ChunkBounds(|content|, chunk, n, i);
  }

  /** A printed manifest of a stable source, loaded and checked against a target that starts with it. */
  method VerifyPrinted(w: World, m: Manifest, tokens: seq<Token>, content: seq<Byte>, target: seq<Byte>, chunk: U64)
    returns (status: Status, result: ProofResult)
    requires StableSource(w.env, content) && FaultFree(w.env) && Cooperative(w.env, |content|)
    requires 0 < |content| <= U64_MAX && content <= target && forall t: nat :: w.env.readback(t, w.bytes) == target
    requires 0 < chunk <= MAX_CHUNK_SIZE && WellFormed(m) && |m.chunkHashes| == |m.chunkLengths|
    requires tokens == Printed(m)
    requires var n := m.summary.chunkCount;
             && 0 < n <= MAX_CHUNKS && (n - 1) * chunk < |content| <= n * chunk
             && m == ManifestOf(|content|, chunk, Slices(content, |content|, chunk, n))
    modifies w
    ensures status == Ok && result.state == SuccessProven && result.bytesVerified == |content|
  {
    hide Sha256, Root, Denotes, WellFormed, Run.Passes, Run.Ending, StableSource, FaultFree, Slices, Printed;
    PrintThenParse(m, []);
    assert tokens + [] == tokens;
    var clock := w.clock;
    ghost var loaded;
    status, result, loaded := VerifyProof(w, tokens);
    DenotesOne(tokens, loaded.value, m);
    ghost var run := Run(w.env, w.bytes, clock + 5, m);
    VerifyIsComplete(run, content, target, chunk, m.summary.chunkCount);
  }

  /**
   Create, print, load, verify: over a stable source and any target that starts with it, the run ends
   in success_proven with every byte counted.
   */
  method CreateThenVerify(w: World, requested: U64, content: seq<Byte>, target: seq<Byte>)
    returns (status: Status, result: ProofResult)
    requires StableSource(w.env, content) && FaultFree(w.env) && Cooperative(w.env, |content|)
    requires 0 < |content| && content <= target
    requires forall t: nat :: w.env.readback(t, w.bytes) == target
    requires var chunk := EffectiveChunk(requested);
             MIN_CHUNK <= chunk <= MAX_CHUNK_SIZE && |content| <= chunk * MAX_CHUNKS
    modifies w
    ensures status == Ok && result.state == SuccessProven && result.bytesVerified == |content|
  {
    hide Denotes, WellFormed, CreateResult, StableSource, FaultFree, Slices, Printed, WrappedCeiling;
    var start := w.clock;
    CreateSucceeds(w.env, start, requested, content);
    CreateFromStable(w.env, start, requested, content);
    var created := CreateProof(w, requested);
    var (m, tokens) := created.value;
    status, result := VerifyPrinted(w, m, tokens, content, target, EffectiveChunk(requested));
  }
}
