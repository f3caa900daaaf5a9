/**
 The proof manifest as a sequence of white-space separated tokens: what the loader accepts, what
 the printer emits, and that the two agree.
 */
module Manifest {
  import opened Bytes
  import opened Arithmetic
  import opened Status
  import opened Text
  import opened Merkle

  const MAX_CHUNK_SIZE := 1024 * 1024 * 1024
  const HEADER_TOKENS := 9

  type Token = seq<Byte>

  datatype Summary = Summary(
    sourceSize: U64,
    chunkSize: U64,
    chunkCount: U64,
    sourceSha256: Digest,
    merkleRoot: Digest)

  datatype Manifest = Manifest(summary: Summary, chunkHashes: seq<Digest>, chunkLengths: seq<U64>)

  /** Every chunk has the chunk size, except that the last has what remains. */
  function ChunkLength(s: Summary, i: nat): int {
    if i + 1 == s.chunkCount then s.sourceSize - i * s.chunkSize else s.chunkSize
  }

  /** The ceiling expression of the source, in 64-bit arithmetic. */
  function WrappedCeiling(size: U64, chunk: U64): U64
    requires chunk > 0
  {
    Wrap64(size + chunk - 1) / chunk
  }

  predicate WithinLimits(s: Summary) {
    && 0 < s.sourceSize
    && 0 < s.chunkSize <= MAX_CHUNK_SIZE
    && 0 < s.chunkCount <= MAX_CHUNKS
    && WrappedCeiling(s.sourceSize, s.chunkSize) == s.chunkCount
  }

  /** Two tokens: the key and a numeral. */
  function NumberAt(tokens: seq<Token>, at: nat, key: string): Option<U64> {
    if at + 1 < |tokens| && tokens[at] == Ascii(key) then ParseU64(tokens[at + 1]) else None
  }

  /** Two tokens: the key and a digest. */
  function DigestAt(tokens: seq<Token>, at: nat, key: string): Option<Digest> {
    if at + 1 < |tokens| && tokens[at] == Ascii(key) then ParseHex64(tokens[at + 1]) else None
  }

  predicate HeaderReads(tokens: seq<Token>, s: Summary) {
    && |tokens| >= HEADER_TOKENS
    && tokens[0] == Ascii("DEADFLASH-PROOF-V1")
    && NumberAt(tokens, 1, "source_size") == Some(s.sourceSize)
    && NumberAt(tokens, 3, "chunk_size") == Some(s.chunkSize)
    && NumberAt(tokens, 5, "chunk_count") == Some(s.chunkCount)
    && DigestAt(tokens, 7, "source_sha256") == Some(s.sourceSha256)
  }

  function ChunkPosition(i: nat): nat {
    HEADER_TOKENS + 4 * i
  }

  /** The i-th chunk record: key, index, length, digest. */
  predicate ChunkReads(tokens: seq<Token>, i: nat, length: U64, digest: Digest) {
    var at := ChunkPosition(i);
    && at + 3 < |tokens|
    && tokens[at] == Ascii("chunk")
    && ParseU64(tokens[at + 1]) == Some(i)
    && ParseU64(tokens[at + 2]) == Some(length)
    && ParseHex64(tokens[at + 3]) == Some(digest)
  }

  predicate TrailerReads(tokens: seq<Token>, count: nat, root: Digest) {
    var at := ChunkPosition(count);
    DigestAt(tokens, at, "merkle_root") == Some(root) && at + 2 < |tokens| && tokens[at + 2] == Ascii("END")
  }

  /** The loader's grammar and checks, as a relation between the tokens and the manifest they denote. */
  ghost predicate Denotes(tokens: seq<Token>, m: Manifest) {
    var s := m.summary;
    && HeaderReads(tokens, s)
    && WithinLimits(s)
    && |m.chunkHashes| == |m.chunkLengths| == s.chunkCount
    && (forall i :: 0 <= i < s.chunkCount ==> m.chunkLengths[i] == ChunkLength(s, i))
    && (forall i :: 0 <= i < s.chunkCount ==> ChunkReads(tokens, i, m.chunkLengths[i], m.chunkHashes[i]))
    && TrailerReads(tokens, s.chunkCount, s.merkleRoot)
    && Root(m.chunkHashes) == s.merkleRoot
  }

  /** What a manifest must satisfy for some text to denote it, in true arithmetic. */
  ghost predicate WellFormed(m: Manifest) {
    var s := m.summary;
    && 0 < s.sourceSize
    && 0 < s.chunkSize <= MAX_CHUNK_SIZE
    && 0 < s.chunkCount <= MAX_CHUNKS
    && (s.chunkCount - 1) * s.chunkSize < s.sourceSize <= s.chunkCount * s.chunkSize
    && |m.chunkHashes| == |m.chunkLengths| == s.chunkCount
    && (forall i :: 0 <= i < s.chunkCount ==> m.chunkLengths[i] == ChunkLength(s, i))
    && Root(m.chunkHashes) == s.merkleRoot
  }

  /** The wrapped ceiling equals a positive count only if it is the true ceiling: a wrapped sum divides to zero. */
  lemma CeilingIsExact(size: U64, chunk: U64, count: U64)
    requires 0 < size && 0 < chunk && 0 < count
    ensures WrappedCeiling(size, chunk) == count ==> (count - 1) * chunk < size <= count * chunk
    ensures (count - 1) * chunk < size <= count * chunk && size + chunk - 1 <= U64_MAX ==>
              WrappedCeiling(size, chunk) == count
  {
    var sum := size + chunk - 1;
    if sum > U64_MAX {
      assert Wrap64(sum) == sum - U64_MAX - 1 < chunk;
      SmallQuotient(Wrap64(sum), chunk);
    } else {
      assert Wrap64(sum) == sum;
      Quotient(sum, chunk, count);
    }
  }

  /** The chunks of a well-formed manifest are contiguous and tile [0, sourceSize) exactly. */
  lemma ChunksTile(m: Manifest, i: nat)
    requires WellFormed(m) && i < m.summary.chunkCount
    ensures var s := m.summary;
            && 0 < m.chunkLengths[i] <= s.chunkSize
            && i * s.chunkSize + m.chunkLengths[i]
               == if i + 1 == s.chunkCount then s.sourceSize else (i + 1) * s.chunkSize
  {
    assert (i + 1) * m.summary.chunkSize == i * m.summary.chunkSize + m.summary.chunkSize;
  }

  /** A text denotes a manifest only if it is well formed: the wrapped ceiling lets nothing else through. */
  lemma DenotedIsWellFormed(tokens: seq<Token>, m: Manifest)
    requires Denotes(tokens, m)
    ensures WellFormed(m)
  {
    hide Root;
    CeilingIsExact(m.summary.sourceSize, m.summary.chunkSize, m.summary.chunkCount);
  }

  function ChunkRecord(m: Manifest, i: nat): (r: seq<Token>)
    requires |m.chunkHashes| == |m.chunkLengths| && i < |m.chunkHashes|
    ensures |r| == 4
  {
    [Ascii("chunk"), Decimal(i), Decimal(m.chunkLengths[i]), Hex(m.chunkHashes[i])]
  }

  function ChunkRecords(m: Manifest, n: nat): (r: seq<Token>)
    requires |m.chunkHashes| == |m.chunkLengths| && n <= |m.chunkHashes|
    ensures |r| == 4 * n
  {
    if n == 0 then [] else ChunkRecords(m, n - 1) + ChunkRecord(m, n - 1)
  }

  function Header(s: Summary): (r: seq<Token>)
    ensures |r| == HEADER_TOKENS
  {
    [Ascii("DEADFLASH-PROOF-V1"), Ascii("source_size"), Decimal(s.sourceSize), Ascii("chunk_size"),
     Decimal(s.chunkSize), Ascii("chunk_count"), Decimal(s.chunkCount), Ascii("source_sha256"), Hex(s.sourceSha256)]
  }

  /** The text the printer emits. */
  function Printed(m: Manifest): seq<Token>
    requires |m.chunkHashes| == |m.chunkLengths|
  {
    Header(m.summary) + ChunkRecords(m, |m.chunkHashes|)
    + [Ascii("merkle_root"), Hex(m.summary.merkleRoot), Ascii("END")]
  }

  lemma {:induction false} ChunkRecordAt(m: Manifest, n: nat, i: nat)
    requires |m.chunkHashes| == |m.chunkLengths| && i < n <= |m.chunkHashes|
    ensures ChunkRecords(m, n)[4 * i..4 * i + 4] == ChunkRecord(m, i)
  {
    hide ChunkRecord;
    if i < n - 1 {
      ChunkRecordAt(m, n - 1, i);
      assert ChunkRecords(m, n)[4 * i..4 * i + 4] == ChunkRecords(m, n - 1)[4 * i..4 * i + 4];
    }
  }

  lemma PrintedHeaderReads(m: Manifest, rest: seq<Token>)
    requires |m.chunkHashes| == |m.chunkLengths|
    ensures HeaderReads(Printed(m) + rest, m.summary)
  {
    hide Ascii, Decimal, Hex, ParseU64, ParseHex64, ChunkRecords;
    var s := m.summary;
    var tokens := Printed(m) + rest;
    assert tokens[..HEADER_TOKENS] == Header(s);
    assert forall k :: 0 <= k < HEADER_TOKENS ==> tokens[k] == Header(s)[k];
    ParseDecimal(s.sourceSize);
    ParseDecimal(s.chunkSize);
    ParseDecimal(s.chunkCount);
    HexRoundTrip(s.sourceSha256);
  }

  lemma PrintedChunkReads(m: Manifest, rest: seq<Token>, i: nat)
    requires |m.chunkHashes| == |m.chunkLengths| && i < |m.chunkHashes| <= MAX_CHUNKS
    ensures ChunkReads(Printed(m) + rest, i, m.chunkLengths[i], m.chunkHashes[i])
  {
    hide Ascii, Decimal, Hex, ParseU64, ParseHex64, ChunkRecords;
    var tokens, at := Printed(m) + rest, ChunkPosition(i);
    ChunkRecordAt(m, |m.chunkHashes|, i);
    var record := ChunkRecords(m, |m.chunkHashes|)[4 * i..4 * i + 4];
    assert tokens[at..at + 4] == record;
    assert forall k :: 0 <= k < 4 ==> tokens[at + k] == record[k];
    assert tokens[at + 0] == record[0];
    ParseDecimal(i);
    ParseDecimal(m.chunkLengths[i]);
    HexRoundTrip(m.chunkHashes[i]);
  }

  /** Print then parse: the printed text, whatever follows it, denotes the manifest it was printed from. */
  lemma PrintThenParse(m: Manifest, rest: seq<Token>)
    requires WellFormed(m)
    ensures Denotes(Printed(m) + rest, m)
  {
    hide Ascii, Decimal, Hex, ParseU64, ParseHex64, ChunkRecords, Header, HeaderReads, ChunkReads, Root;
    var s := m.summary;
    var tokens, at := Printed(m) + rest, ChunkPosition(s.chunkCount);
    PrintedHeaderReads(m, rest);
    forall i | 0 <= i < s.chunkCount
      ensures ChunkReads(tokens, i, m.chunkLengths[i], m.chunkHashes[i])
    {
      PrintedChunkReads(m, rest, i);
    }
    assert tokens[at] == Ascii("merkle_root") && tokens[at + 1] == Hex(s.merkleRoot) && tokens[at + 2] == Ascii("END");
    HexRoundTrip(s.merkleRoot);
    SmallProduct(s.chunkCount, s.chunkSize);
    CeilingIsExact(s.sourceSize, s.chunkSize, s.chunkCount);
  }

  lemma SmallProduct(count: nat, chunk: nat)
    requires count <= MAX_CHUNKS && chunk <= MAX_CHUNK_SIZE
    ensures count * chunk <= MAX_CHUNKS * MAX_CHUNK_SIZE
  {
    Monotone(count, chunk, MAX_CHUNK_SIZE);
    Monotone(MAX_CHUNK_SIZE, count, MAX_CHUNKS);
  }

  /** Some text denotes a manifest exactly when it is well formed, and then its printed form does. */
  lemma DenotableIffWellFormed(m: Manifest)
    ensures (exists tokens :: Denotes(tokens, m)) <==> WellFormed(m)
  {
    hide Denotes, WellFormed;
    if WellFormed(m) {
      PrintThenParse(m, []);
    }
    if exists tokens :: Denotes(tokens, m) {
      var tokens :| Denotes(tokens, m);
      DenotedIsWellFormed(tokens, m);
    }
  }

  /**
   Manifests that agree on source size, chunk size and root agree on every chunk digest, or their
   trees exhibit a collision: the count check makes the two leaf lists equally long.
   */
  lemma RootBindsChunks(x: Manifest, y: Manifest)
    requires WellFormed(x) && WellFormed(y)
    requires x.summary.sourceSize == y.summary.sourceSize && x.summary.chunkSize == y.summary.chunkSize
    requires x.summary.merkleRoot == y.summary.merkleRoot
    ensures x.summary.chunkCount == y.summary.chunkCount && x.chunkLengths == y.chunkLengths
    ensures |x.chunkHashes| == |y.chunkHashes|
            && (x.chunkHashes == y.chunkHashes || TreeCollision(x.chunkHashes, y.chunkHashes))
  {
    hide Root, TreeCollision;
    var size, chunk := x.summary.sourceSize, x.summary.chunkSize;
    Quotient(size - 1, chunk, x.summary.chunkCount - 1);
    Quotient(size - 1, chunk, y.summary.chunkCount - 1);
    RootBinds(x.chunkHashes, y.chunkHashes);
  }

  /** The loader takes every chunk size from one byte on, whatever the documented minimum: a source of one chunk shows it. */
  lemma EveryChunkSizeLoads(size: U64, chunk: U64, digest: Digest)
    requires 0 < size <= chunk <= MAX_CHUNK_SIZE
    ensures exists tokens :: Denotes(tokens, Manifest(Summary(size, chunk, 1, digest, digest), [digest], [size]))
  {
    DenotableIffWellFormed(Manifest(Summary(size, chunk, 1, digest, digest), [digest], [size]));
  }
}
