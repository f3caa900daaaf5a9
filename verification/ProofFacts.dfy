/**
 What proof creation and verification do, said without the names the model gives to their decisions: limits
 as numbers, the place of every token, statuses of refusals, and how failing chunks are reported.
 */
module ProofFacts {
  import opened Bytes
  import opened Arithmetic
  import opened Status
  import opened Text
  import opened Fips180
  import opened Merkle
  import opened Manifest
  import opened Io
  import opened ProofSpec
  import opened ProofEngine
  import opened ProofTheorems

  /** Either case of every hexadecimal digit, and nothing else. */
  lemma HexDigitsAre(d: Byte, n: nat)
    requires n < 16
    ensures HexNibble(Ascii("0123456789abcdef")[n]) == n && HexNibble(Ascii("0123456789ABCDEF")[n]) == n
    ensures HexDigit(n) == Ascii("0123456789abcdef")[n]
    ensures HexNibble(d) == -1 <==> !(48 <= d <= 57 || 65 <= d <= 70 || 97 <= d <= 102)
  {
  }

  /** A parent's input: the byte one, the left digest, the right digest. */
  lemma ParentInputIs(left: Digest, right: Digest)
    ensures var input := ParentInput(left, right);
            && |input| == 65 && input[0] == 1 && input[1..33] == left && input[33..] == right
            && Parent(left, right) == Sha256(input)
  {
    hide Sha256;
  }

  /** The reduction's refusals. */
  lemma RootStatuses(leaves: seq<Digest>, memory: bool)
    ensures RootOf(leaves, memory).Success? <==> 0 < |leaves| <= 4194304 && memory
    ensures RootOf(leaves, memory) == Failure(InvalidArgument) <==> |leaves| == 0 || |leaves| > 4194304
  {
    hide Root;
  }

  /** The limits of a manifest, as numbers. */
  lemma LimitsAre(m: Manifest)
    requires WellFormed(m)
    ensures 0 < m.summary.chunkCount <= 4194304 && 0 < m.summary.chunkSize <= 1073741824 && 0 < m.summary.sourceSize
  {
    hide Root;
  }

  // Texts.

  /** Digits from the left, high nibble first, nothing in front. */
  lemma NumeralsAre()
    ensures Decimal(0) == Ascii("0") && Decimal(1073) == Ascii("1073") && Hex([0x0f, 0xa7]) == Ascii("0fa7")
  {
    assert Decimal(1) == Ascii("1") && Decimal(10) == Ascii("10") && Decimal(107) == Ascii("107");
    assert Nibble([0x0f, 0xa7], 0) == 0 && Nibble([0x0f, 0xa7], 1) == 15;
    assert Nibble([0x0f, 0xa7], 2) == 10 && Nibble([0x0f, 0xa7], 3) == 7;
  }

  /** The place and meaning of every token of an accepted text. */
  lemma AcceptedTextIs(tokens: seq<Token>, m: Manifest, i: nat)
    requires Denotes(tokens, m) && i < m.summary.chunkCount
    ensures var n := m.summary.chunkCount;
            && |tokens| >= 12 + 4 * n && |m.chunkLengths| == |m.chunkHashes| == n
            && tokens[0] == Ascii("DEADFLASH-PROOF-V1")
            && tokens[1] == Ascii("source_size") && ParseU64(tokens[2]) == Some(m.summary.sourceSize)
            && tokens[3] == Ascii("chunk_size") && ParseU64(tokens[4]) == Some(m.summary.chunkSize)
            && tokens[5] == Ascii("chunk_count") && ParseU64(tokens[6]) == Some(n)
            && tokens[7] == Ascii("source_sha256") && ParseHex64(tokens[8]) == Some(m.summary.sourceSha256)
            && tokens[9 + 4 * i] == Ascii("chunk") && ParseU64(tokens[10 + 4 * i]) == Some(i)
            && ParseU64(tokens[11 + 4 * i]) == Some(m.chunkLengths[i])
            && ParseHex64(tokens[12 + 4 * i]) == Some(m.chunkHashes[i])
            && tokens[9 + 4 * n] == Ascii("merkle_root") && ParseHex64(tokens[10 + 4 * n]) == Some(m.summary.merkleRoot)
            && tokens[11 + 4 * n] == Ascii("END") && Root(m.chunkHashes) == m.summary.merkleRoot
  {
    hide Root, Ascii, ParseU64, ParseHex64, WithinLimits;
    assert ChunkReads(tokens, i, m.chunkLengths[i], m.chunkHashes[i]);
  }

  /** The tokens of a printed text. */
  lemma PrintedTextIs(m: Manifest, i: nat)
    requires |m.chunkHashes| == |m.chunkLengths| && i < |m.chunkHashes|
    ensures var tokens, n, s := Printed(m), |m.chunkHashes|, m.summary;
            && |tokens| == 12 + 4 * n
            && tokens[..9] == [Ascii("DEADFLASH-PROOF-V1"), Ascii("source_size"), Decimal(s.sourceSize),
                               Ascii("chunk_size"), Decimal(s.chunkSize), Ascii("chunk_count"), Decimal(s.chunkCount),
                               Ascii("source_sha256"), Hex(s.sourceSha256)]
            && tokens[9 + 4 * i..13 + 4 * i]
               == [Ascii("chunk"), Decimal(i), Decimal(m.chunkLengths[i]), Hex(m.chunkHashes[i])]
            && tokens[9 + 4 * n..] == [Ascii("merkle_root"), Hex(s.merkleRoot), Ascii("END")]
  {
    hide Ascii, Decimal, Hex;
    var tokens, n := Printed(m), |m.chunkHashes|;
    ChunkRecordAt(m, n, i);
    assert tokens == Header(m.summary) + (ChunkRecords(m, n) + tokens[9 + 4 * n..]);
    assert tokens[9 + 4 * i..13 + 4 * i] == ChunkRecords(m, n)[4 * i..4 * i + 4];
  }

  // Creation.

  /** Which chunk size is used, and what each refusal of creation is called. */
  lemma CreateStatuses(env: Environment, clock: nat, requested: U64)
    ensures var chunk: U64, r := if requested == 0 then 4194304 else requested, CreateResult(env, clock, requested);
            var source := env.openSource(clock);
            && (chunk < 4096 || chunk > 1073741824 ==> r == Failure(InvalidArgument))
            && (4096 <= chunk <= 1073741824 ==>
                  && (source.Failure? ==> r == Failure(source.error))
                  && (source.Success? && source.value == 0 ==> r == Failure(TooSmall))
                  && (source.Success? && source.value > 4194304 * chunk ==> r == Failure(TooLarge))
                  && (source.Success? && 0 < source.value <= 4194304 * chunk && !env.memory(clock + 1) ==>
                        r == Failure(NoMemory)))
            && (r.Success? ==>
                  && 4096 <= chunk <= 1073741824 && source == Success(r.value.summary.sourceSize)
                  && r.value.summary.chunkSize == chunk
                  && 0 < r.value.summary.sourceSize <= 4194304 * chunk)
  {
    hide AllRead, Digests, Root, StreamDigest, Lengths;
    var chunk: U64 := if requested == 0 then 4194304 else requested;
    if env.openSource(clock).Success? && 0 < env.openSource(clock).value && 4096 <= chunk <= 1073741824 {
      var size := env.openSource(clock).value;
      FileChunks(size, chunk);
      CountIsOver(size, chunk, CountOf(size, chunk));
    }
  }

  lemma CountIsOver(size: nat, chunk: nat, n: nat)
    requires (n - 1) * chunk < size <= n * chunk && 0 < chunk
    ensures n > 4194304 <==> size > 4194304 * chunk
  {
    Monotone(chunk, 4194304, n - 1);
    Monotone(chunk, n, 4194304);
  }

  // Verification.

  /** How a run ends that stops at chunk k, case by case. */
  lemma StoppedAt(run: Run, k: nat)
    requires run.Valid() && |run.manifest.chunkHashes| == |run.manifest.chunkLengths| == run.Count()
    requires k < run.Count() && run.PassesUpTo(k) && !run.Passes(k)
    ensures var (status, result) := run.Ending(k);
            var source, target, record := run.Source(k), run.Target(k), run.manifest.chunkHashes[k];
            var changed := source.Success? && Sha256(source.value) != record;
            var differs := source.Success? && !changed && target.Success?;
            && result.chunksVerified == k && result.bytesVerified == k * run.manifest.summary.chunkSize
            && (result.state == SourceChanged <==> changed) && (status == IdentityChanged <==> changed)
            && (result.state == TargetMismatch <==> differs) && (status == VerifyMismatch <==> differs)
            && (changed ==> result.firstBadChunk == k && result.firstBadOffset == k * run.manifest.summary.chunkSize)
            && (!changed && !differs ==>
                  && result.state == FailedBeforeVerify && status == IoFailed
                  && result.firstBadChunk == result.firstBadOffset == U64_MAX)
  {
    hide Sha256, Root, LeastDifference, Run.Sources;
    FullOffset(run, k);
    ReadsFailWithIo(run, k);
  }

  lemma ReadsFailWithIo(run: Run, k: nat)
    requires k < |run.manifest.chunkLengths|
    ensures run.Source(k).Failure? ==> run.Source(k).error == IoFailed
    ensures run.Target(k).Failure? ==> run.Target(k).error == IoFailed
  {
  }

  /** How a run ends whose chunks all pass: by the digest of the whole source. */
  lemma AllChunksPassed(run: Run)
    requires run.Valid() && |run.manifest.chunkHashes| == |run.manifest.chunkLengths| == run.Count()
    requires run.PassesUpTo(run.Count())
    ensures var (status, result) := run.Ending(run.Count());
            var same := Sha256(Flatten(run.Sources(run.Count()))) == run.manifest.summary.sourceSha256;
            && result.chunksVerified == run.Count() && result.bytesVerified == run.manifest.summary.sourceSize
            && result.firstBadChunk == result.firstBadOffset == U64_MAX
            && (if same then status == Ok && result.state == SuccessProven
                else status == IdentityChanged && result.state == SourceChanged)
  {
    hide Sha256, Root, Flatten;
    ReadLength(run, run.Count());
    AllOffsets(run);
  }

  lemma AllOffsets(run: Run)
    requires run.Valid()
    ensures run.Progress(run.Count()).bytesVerified == run.manifest.summary.sourceSize
  {
    hide Root;
  }
}
