/**
 Proof creation and verification, chunk by chunk: which reads happen at which tick, what they make
 of the result, and the theorems about it.
 */
module ProofSpec {
  import opened Bytes
  import opened Status
  import opened Fips180
  import opened Merkle
  import opened Manifest
  import opened Io

  const DEFAULT_CHUNK := 4 * 1024 * 1024
  const MIN_CHUNK := 4096

  /** A read that must be complete. */
  function Exact(r: Result<seq<Byte>>, length: nat): Result<seq<Byte>> {
    if r.Success? && |r.value| != length then Failure(IoFailed) else r
  }

  function SourceRead(env: Environment, tick: nat, length: nat, offset: nat): Result<seq<Byte>> {
    Exact(ReadResult(env.source(tick), env.transfer(tick), length, offset), length)
  }

  function TargetRead(env: Environment, bytes: seq<Byte>, tick: nat, length: nat, offset: nat): Result<seq<Byte>> {
    Exact(ReadResult(env.readback(tick, bytes), env.transfer(tick), length, offset), length)
  }

  // Creation: open at `clock`, buffers at clock + 1, chunk i at clock + 2 + i, the tree after the last.

  function EffectiveChunk(requested: U64): U64 {
    if requested == 0 then DEFAULT_CHUNK else requested
  }

  function CountOf(size: U64, chunk: U64): U64
    requires chunk > 0
  {
    WrappedCeiling(size, chunk)
  }

  /** The length of the i-th chunk. */
  function SliceLength(size: U64, chunk: U64, i: nat): U64 {
    Min(chunk, Max(0, size - i * chunk))
  }

  function CreateRead(env: Environment, clock: nat, size: U64, chunk: U64, i: nat): Result<seq<Byte>> {
    SourceRead(env, clock + 2 + i, SliceLength(size, chunk, i), i * chunk)
  }

  predicate AllRead(env: Environment, clock: nat, size: U64, chunk: U64, n: nat) {
    forall i :: 0 <= i < n ==> CreateRead(env, clock, size, chunk, i).Success?
  }

  function ReadChunks(env: Environment, clock: nat, size: U64, chunk: U64, n: nat): (r: seq<seq<Byte>>)
    requires AllRead(env, clock, size, chunk, n)
    ensures |r| == n
  {
    seq(n, i requires 0 <= i < n => CreateRead(env, clock, size, chunk, i).value)
  }

  function Digests(chunks: seq<seq<Byte>>): (d: seq<Digest>)
    ensures |d| == |chunks|
    ensures forall i :: 0 <= i < |d| ==> d[i] == DigestOf(chunks[i])
  {
    seq(|chunks|, i requires 0 <= i < |chunks| => DigestOf(chunks[i]))
  }

  function Lengths(size: U64, chunk: U64, n: nat): (l: seq<U64>)
    ensures |l| == n
    ensures forall i :: 0 <= i < n ==> l[i] == SliceLength(size, chunk, i)
  {
    seq(n, i requires 0 <= i < n => SliceLength(size, chunk, i))
  }

  function StreamDigest(chunks: seq<seq<Byte>>): Digest {
    Sha256(Flatten(chunks))
  }

  /** The manifest of a list of chunks. */
  function ManifestOf(size: U64, chunk: U64, chunks: seq<seq<Byte>>): Manifest
    requires 0 < |chunks| <= MAX_CHUNKS
  {
    Manifest(Summary(size, chunk, |chunks|, StreamDigest(chunks), Root(Digests(chunks))),
             Digests(chunks), Lengths(size, chunk, |chunks|))
  }

  /** What creation returns. */
  function CreateResult(env: Environment, clock: nat, requested: U64): Result<Manifest> {
    var chunk := EffectiveChunk(requested);
    if chunk < MIN_CHUNK || chunk > MAX_CHUNK_SIZE then Failure(InvalidArgument)
    else
      match env.openSource(clock)
      case Failure(e) => Failure(e)
      case Success(size) =>
        if size == 0 then Failure(TooSmall)
        else
          var n := CountOf(size, chunk);
          if n > MAX_CHUNKS then Failure(TooLarge)
          else if !env.memory(clock + 1) then Failure(NoMemory)
          else if n == 0 || !AllRead(env, clock, size, chunk, n) then Failure(IoFailed)
          else if !env.memory(clock + 2 + n) then Failure(NoMemory)
          else Success(ManifestOf(size, chunk, ReadChunks(env, clock, size, chunk, n)))
  }

  // Verification: chunk i reads the source at tick t + 2i and the target at t + 2i + 1.

  datatype ProofState = FailedBeforeVerify | SourceChanged | TargetMismatch | SuccessProven

  datatype ProofResult = ProofResult(
    bytesVerified: nat,
    chunksVerified: nat,
    firstBadChunk: nat,
    firstBadOffset: nat,
    expected: Digest,
    actual: Digest,
    state: ProofState)

  const NOTHING_VERIFIED := ProofResult(0, 0, U64_MAX, U64_MAX, Zeros(32), Zeros(32), FailedBeforeVerify)

  /** One verification run over a loaded manifest. */
  datatype Run = Run(env: Environment, bytes: seq<Byte>, tick: nat, manifest: Manifest) {
    ghost predicate Valid() {
      WellFormed(manifest)
    }

    function Count(): nat {
      manifest.summary.chunkCount
    }

    function Offset(i: nat): nat {
      i * manifest.summary.chunkSize
    }

    function Source(i: nat): Result<seq<Byte>>
      requires i < |manifest.chunkLengths|
    {
      SourceRead(env, tick + 2 * i, manifest.chunkLengths[i], Offset(i))
    }

    function Target(i: nat): Result<seq<Byte>>
      requires i < |manifest.chunkLengths|
    {
      TargetRead(env, bytes, tick + 2 * i + 1, manifest.chunkLengths[i], Offset(i))
    }

    /** Both reads are complete and both digests are the recorded one. */
    predicate Passes(i: nat)
      requires i < |manifest.chunkLengths| == |manifest.chunkHashes|
    {
      && Source(i).Success? && Matches(Source(i).value, manifest.chunkHashes[i])
      && Target(i).Success? && Matches(Target(i).value, manifest.chunkHashes[i])
    }

    predicate PassesUpTo(k: nat)
      requires k <= |manifest.chunkLengths| == |manifest.chunkHashes|
    {
      forall i :: 0 <= i < k ==> Passes(i)
    }

    function Sources(k: nat): (r: seq<seq<Byte>>)
      requires k <= |manifest.chunkLengths| == |manifest.chunkHashes| && PassesUpTo(k)
      ensures |r| == k
    {
      seq(k, i requires 0 <= i < k => assert Passes(i); Source(i).value)
    }

    function Targets(k: nat): (r: seq<seq<Byte>>)
      requires k <= |manifest.chunkLengths| == |manifest.chunkHashes| && PassesUpTo(k)
      ensures |r| == k
    {
      seq(k, i requires 0 <= i < k => assert Passes(i); Target(i).value)
    }

    function Progress(k: nat): ProofResult {
      NOTHING_VERIFIED.(bytesVerified := Min(Offset(k), manifest.summary.sourceSize), chunksVerified := k)
    }

    /** How the run ends when exactly the first k chunks pass. */
    function Ending(k: nat): (Status, ProofResult)
      requires k <= |manifest.chunkLengths| == |manifest.chunkHashes| == Count()
      requires PassesUpTo(k)
    {
      if k == Count() then
        if StreamDigest(Sources(k)) != manifest.summary.sourceSha256
        then (IdentityChanged, Progress(k).(state := SourceChanged))
        else (Ok, Progress(k).(state := SuccessProven))
      else if Source(k).Failure? then (Source(k).error, Progress(k))
      else if !Matches(Source(k).value, manifest.chunkHashes[k]) then
        (IdentityChanged,
         Progress(k).(firstBadChunk := k, firstBadOffset := Offset(k), state := SourceChanged))
      else if Target(k).Failure? then (Target(k).error, Progress(k))
      else
        (VerifyMismatch,
         Progress(k).(firstBadChunk := k,
                      firstBadOffset := Offset(k) + LeastDifference(Source(k).value, Target(k).value),
                      expected := DigestOf(Source(k).value), actual := DigestOf(Target(k).value),
                      state := TargetMismatch))
    }
  }

  /** The least index at which two sequences differ; their common length if none. */
  function LeastDifference(a: seq<Byte>, b: seq<Byte>): (at: nat)
    ensures at <= |a| && at <= |b|
    ensures a[..at] == b[..at]
    ensures at < |a| && at < |b| ==> a[at] != b[at]
  {
    if a == [] || b == [] || a[0] != b[0] then 0
    else
      var at := 1 + LeastDifference(a[1..], b[1..]);
      assert a[..at] == [a[0]] + a[1..][..at - 1] && b[..at] == [b[0]] + b[1..][..at - 1];
      at
  }

  /** The checks between loading and the first chunk. */
  function StartStatus(env: Environment, clock: nat, m: Manifest): Status {
    if env.openSource(clock).Failure? then env.openSource(clock).error
    else if env.openReadback(clock + 1).Failure? then env.openReadback(clock + 1).error
    else if env.openSource(clock).value != m.summary.sourceSize then IdentityChanged
    else if env.openReadback(clock + 1).value != 0 && env.openReadback(clock + 1).value < m.summary.sourceSize
    then TooSmall
    else if !env.memory(clock + 2) then NoMemory
    else Ok
  }
}
