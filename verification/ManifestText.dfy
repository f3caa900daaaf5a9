/** The manifest loader and printer, proved against the grammar. */
module ManifestText {
  import opened Bytes
  import opened Status
  import opened Text
  import opened Merkle
  import opened Manifest

  method ReadDigest(tokens: seq<Token>, at: nat, key: string) returns (r: Option<Digest>)
    ensures r == DigestAt(tokens, at, key)
  {
    hide Ascii, ParseHex64;
    if at + 1 >= |tokens| || tokens[at] != Ascii(key) {
      return None;
    }
    r := HexDecode32(tokens[at + 1]);
  }

  /** The header and its limit checks; the root is not known yet. */
  method LoadHeader(tokens: seq<Token>) returns (r: Option<Summary>)
    ensures r.Some? ==> HeaderReads(tokens, r.value) && WithinLimits(r.value)
    ensures forall s: Summary :: HeaderReads(tokens, s) && WithinLimits(s) ==> r == Some(Rootless(s))
  {
    hide NumberAt, DigestAt, Ascii, WrappedCeiling;
    if |tokens| < HEADER_TOKENS || tokens[0] != Ascii("DEADFLASH-PROOF-V1") {
      return None;
    }
    var size := NumberAt(tokens, 1, "source_size");
    if size.None? {
      return None;
    }
    var chunk := NumberAt(tokens, 3, "chunk_size");
    if chunk.None? {
      return None;
    }
    var count := NumberAt(tokens, 5, "chunk_count");
    if count.None? {
      return None;
    }
    var digest := ReadDigest(tokens, 7, "source_sha256");
    if digest.None? {
      return None;
    }
    var s := Summary(size.value, chunk.value, count.value, digest.value, Zeros(32));
    if s.sourceSize == 0 || s.chunkSize == 0 || s.chunkSize > MAX_CHUNK_SIZE
       || s.chunkCount == 0 || s.chunkCount > MAX_CHUNKS {
      return None;
    }
    if WrappedCeiling(s.sourceSize, s.chunkSize) != s.chunkCount {
      return None;
    }
    r := Some(s);
  }

  function Rootless(s: Summary): Summary {
    s.(merkleRoot := Zeros(32))
  }

  /** One chunk record with its index and length checks. */
  method LoadChunk(tokens: seq<Token>, s: Summary, i: nat) returns (r: Option<Digest>)
    ensures r.Some? ==> 0 <= ChunkLength(s, i) <= U64_MAX && ChunkReads(tokens, i, ChunkLength(s, i), r.value)
    ensures r.None? ==> forall digest: Digest, length: U64 :: ChunkReads(tokens, i, length, digest) ==>
                                                                length != ChunkLength(s, i)
  {
    hide ParseU64, ParseHex64, Ascii;
    var at := ChunkPosition(i);
    if at + 3 >= |tokens| || tokens[at] != Ascii("chunk") {
      return None;
    }
    var index, length := ParseU64(tokens[at + 1]), ParseU64(tokens[at + 2]);
    if index != Some(i) || length.None? || length.value != ChunkLength(s, i) {
      return None;
    }
    r := HexDecode32(tokens[at + 3]);
  }

  lemma DenotedChunk(tokens: seq<Token>, m: Manifest, i: nat, length: U64, digest: Digest)
    requires Denotes(tokens, m) && i < m.summary.chunkCount && ChunkReads(tokens, i, length, digest)
    ensures m.chunkLengths[i] == length == ChunkLength(m.summary, i) && m.chunkHashes[i] == digest
  {
    hide Root, ParseU64, ParseHex64, HeaderReads, WithinLimits, ChunkLength;
    assert ChunkReads(tokens, i, m.chunkLengths[i], m.chunkHashes[i]);
  }

  /** A text denotes at most one manifest. */
  lemma DenotesOne(tokens: seq<Token>, x: Manifest, y: Manifest)
    requires Denotes(tokens, x) && Denotes(tokens, y)
    ensures x == y
  {
    hide Root, NumberAt, DigestAt, ChunkReads, WithinLimits, ChunkLength;
    forall i | 0 <= i < x.summary.chunkCount
      ensures x.chunkHashes[i] == y.chunkHashes[i] && x.chunkLengths[i] == y.chunkLengths[i]
    {
      DenotedChunk(tokens, x, i, y.chunkLengths[i], y.chunkHashes[i]);
    }
  }

  /** Records and trailer read so far settle everything but the root check. */
  lemma DenotedManifest(tokens: seq<Token>, m: Manifest, loaded: Manifest)
    requires Denotes(tokens, m) && Rootless(m.summary) == Rootless(loaded.summary)
    requires |loaded.chunkHashes| == |loaded.chunkLengths| == loaded.summary.chunkCount
    requires forall i :: 0 <= i < loaded.summary.chunkCount ==>
               ChunkReads(tokens, i, loaded.chunkLengths[i], loaded.chunkHashes[i])
    requires TrailerReads(tokens, loaded.summary.chunkCount, loaded.summary.merkleRoot)
    ensures m == loaded
  {
    hide Root, HeaderReads, WithinLimits, ChunkReads, ChunkLength, DigestAt;
    forall i | 0 <= i < m.summary.chunkCount
      ensures m.chunkHashes[i] == loaded.chunkHashes[i] && m.chunkLengths[i] == loaded.chunkLengths[i]
    {
      DenotedChunk(tokens, m, i, loaded.chunkLengths[i], loaded.chunkHashes[i]);
    }
  }

  /** The records and the trailer, once the header stands. */
  method LoadBody(tokens: seq<Token>, s: Summary) returns (r: Option<Manifest>)
    requires WithinLimits(s)
    ensures r.Some? ==>
              && Rootless(r.value.summary) == Rootless(s)
              && |r.value.chunkHashes| == |r.value.chunkLengths| == s.chunkCount
              && (forall i :: 0 <= i < s.chunkCount ==> r.value.chunkLengths[i] == ChunkLength(s, i))
              && (forall i :: 0 <= i < s.chunkCount ==>
                    ChunkReads(tokens, i, r.value.chunkLengths[i], r.value.chunkHashes[i]))
              && TrailerReads(tokens, s.chunkCount, r.value.summary.merkleRoot)
    ensures r.None? ==> forall m :: Denotes(tokens, m) ==> Rootless(m.summary) != Rootless(s)
  {
    hide ChunkReads, ChunkLength, HeaderReads, Root, Ascii, DigestAt, WrappedCeiling;
    var hashes := new Digest[s.chunkCount];
    var lengths := new U64[s.chunkCount];
    for i := 0 to s.chunkCount
      invariant forall j :: 0 <= j < i ==> lengths[j] == ChunkLength(s, j)
      invariant forall j :: 0 <= j < i ==> ChunkReads(tokens, j, lengths[j], hashes[j])
    {
      var digest := LoadChunk(tokens, s, i);
      if digest.None? {
        forall m | Denotes(tokens, m)
          ensures Rootless(m.summary) != Rootless(s)
        {
          LengthIgnoresRoot(m.summary, s, i);
        }
        return None;
      }
      hashes[i], lengths[i] := digest.value, ChunkLength(s, i);
    }
    var at := ChunkPosition(s.chunkCount);
    var root := ReadDigest(tokens, at, "merkle_root");
    if root.None? || at + 2 >= |tokens| || tokens[at + 2] != Ascii("END") {
      return None;
    }
    r := Some(Manifest(s.(merkleRoot := root.value), hashes[..], lengths[..]));
  }

  lemma LengthIgnoresRoot(x: Summary, y: Summary, i: nat)
    ensures Rootless(x) == Rootless(y) ==> ChunkLength(x, i) == ChunkLength(y, i)
  {
  }

  /**
   Loads a manifest. The result is one the tokens denote; with memory at hand a failure means the
   tokens denote none.
   */
  method Load(tokens: seq<Token>, memory: bool, treeMemory: bool) returns (r: Result<Manifest>)
    ensures r.Success? ==> Denotes(tokens, r.value)
    ensures r.Failure? && memory && treeMemory ==> r.error == FormatFailed && forall m :: !Denotes(tokens, m)
    ensures r.Failure? ==> r.error == FormatFailed || r.error == NoMemory
    ensures forall m :: Denotes(tokens, m) ==> r == if memory && treeMemory then Success(m) else Failure(NoMemory)
    ensures r.Success? ==> memory && treeMemory
  {
    hide HeaderReads, ChunkReads, TrailerReads, Root, ChunkLength, WrappedCeiling;
    var header := LoadHeader(tokens);
    if header.None? {
      return Failure(FormatFailed);
    }
    var s := header.value;
    assert forall m :: Denotes(tokens, m) ==> Rootless(m.summary) == Rootless(s);
    if !memory {
      return Failure(NoMemory);
    }
    var body := LoadBody(tokens, s);
    if body.None? {
      return Failure(FormatFailed);
    }
    var loaded := body.value;
    var computed := MerkleRoot(loaded.chunkHashes, treeMemory);
    if computed.Failure? {
      return Failure(computed.error);
    }
    var equal := ConstantTimeEqual(computed.value, loaded.summary.merkleRoot, 32);
    assert computed.value[..32] == computed.value && loaded.summary.merkleRoot[..32] == loaded.summary.merkleRoot;
    if !equal {
      forall m | Denotes(tokens, m)
        ensures false
      {
        DenotedManifest(tokens, m, loaded);
      }
      return Failure(FormatFailed);
    }
    HeaderIgnoresRoot(tokens, s, loaded.summary);
    r := Success(loaded);
    forall m | Denotes(tokens, m)
      ensures m == loaded
    {
      DenotesOne(tokens, m, loaded);
    }
  }

  lemma HeaderIgnoresRoot(tokens: seq<Token>, x: Summary, y: Summary)
    requires Rootless(x) == Rootless(y) && HeaderReads(tokens, x)
    ensures HeaderReads(tokens, y)
    ensures forall i: nat :: ChunkLength(x, i) == ChunkLength(y, i)
  {
  }

  /** Prints the manifest: the header, one record per chunk, the root and the end mark. */
  method Print(m: Manifest) returns (tokens: seq<Token>)
    requires |m.chunkHashes| == |m.chunkLengths| == m.summary.chunkCount
    requires forall i :: 0 <= i < m.summary.chunkCount ==> m.chunkLengths[i] == ChunkLength(m.summary, i)
    ensures tokens == Printed(m)
  {
    hide Ascii, Decimal, Hex;
    var s := m.summary;
    var sourceHex := HexEncode(s.sourceSha256);
    var rootHex := HexEncode(s.merkleRoot);
    tokens := [Ascii("DEADFLASH-PROOF-V1"), Ascii("source_size"), Decimal(s.sourceSize), Ascii("chunk_size"),
               Decimal(s.chunkSize), Ascii("chunk_count"), Decimal(s.chunkCount), Ascii("source_sha256"), sourceHex];
    for i := 0 to s.chunkCount
      invariant tokens == Header(s) + ChunkRecords(m, i)
    {
      var length := if i + 1 == s.chunkCount then s.sourceSize - i * s.chunkSize else s.chunkSize;
      var chunkHex := HexEncode(m.chunkHashes[i]);
      tokens := tokens + [Ascii("chunk"), Decimal(i), Decimal(length), chunkHex];
    }
    tokens := tokens + [Ascii("merkle_root"), rootHex, Ascii("END")];
  }

  /** Printing a well-formed manifest and loading the text returns it, field for field. */
  method PrintAndLoad(m: Manifest) returns (r: Result<Manifest>)
    requires WellFormed(m)
    ensures r == Success(m)
  {
    hide Denotes, WellFormed;
    var tokens := PrintWellFormed(m);
    PrintThenParse(m, []);
    assert tokens + [] == tokens;
    r := Load(tokens, true, true);
    DenotesOne(tokens, r.value, m);
  }

  method PrintWellFormed(m: Manifest) returns (tokens: seq<Token>)
    requires WellFormed(m)
    ensures |m.chunkHashes| == |m.chunkLengths| && tokens == Printed(m)
  {
    hide Root, ChunkLength;
    tokens := Print(m);
  }
}
