# DEADFLASH evidence core: a Dafny model

DEADFLASH writes disk images, formats FAT32 volumes, and backs every claim it makes about a medium
with evidence: digests, readback, proof manifests and sealed plans. This project models that core
and proves what the evidence is worth.

- **FAT32** (`Fat32Sizing`, `Fat32Layout`, `Fat32Image`, `Fat32Format`, `Fat32Verify`, `Fat32Fields`): the FAT size
  and the cluster count depend on each other and are solved by iteration. The project follows the
  iterates to their end for every target size, then shows that formatting leaves exactly one image,
  what its fields say, that the reader decodes it, and which media the reader takes at all.
- **Chunk proofs** (`Merkle`, `Manifest`, `ManifestText`, `ProofSpec`, `ProofEngine`,
  `ProofTheorems`, `ProofFacts`): the in-place Merkle reduction, the manifest printer and loader, and
  the verifier that finds the first bad byte.
- **Attested writing** (`Io`, `Device`, `Targets`, `WriteLoop`, `Writer`, `Readback`, `Verifier`,
  `Pipeline`, `Imaging`, `Attest`, `Attesting` and the modules of theorems about them): planning,
  sealing, the gate in front of a destructive open, the write and retry loop, digest comparison,
  flush and readback.
- **SHA-256** (`Fips180`, `Fips180Vectors`, `Streaming`): a pure definition from sections 5.1.1, 5.3.3
  and 6.2.2 of FIPS 180-4, held against the standard's own account of its constants and a known
  answer, and the streaming context proved against it.

The operating system is an adversary (`Io.Environment`). Each system call happens at a tick of a
clock, and the environment says what the call finds there: the source may show other bytes at every
read, a transfer may fail after any number of bytes or stop short, inspection may describe another
target than before, memory may run out, and a readback need not return what was written. Every
operation that changes state is a method over a `World` or over an array. Its contract equates
the result and the new state with a specification function, and the theorems are lemmas about those
functions for all environments. What those functions decide is stated a second time without their
names: limits, offsets, codes and texts as literals, gates as conditions on what was inspected and
opened, one status for each refusal (`Fips180Vectors`, `SampleDraws`, `RunFacts`, `SuccessReports`,
`Fat32Fields`, `ProofFacts`, `AttestFacts`). Digests are never assumed to be injective: where equal digests
matter, the conclusion is "equal, or here are two different inputs with one digest".

Where the code and its documentation differ, the model follows the code:

- The sizing iteration need not have a fixpoint. `Fat32Layout.FixpointOrTwoCycle` gives the exact
  condition; the smallest accepted target (65 MiB) is such a case. The recorded count then is
  smaller than the one a reader derives, and the FAT is too small for the derived one.
- The size gate's sum wraps at 32 bits. `Fat32Layout.SmallTargetsPassExactly` says exactly when a target
  smaller than the gate's message names (src/fat32.c:76) is accepted: the sum wraps and at least 66581
  sectors remain behind the start. `SmallTargetPasses` is one.
- The reader's sum wraps too. It accepts a volume that does not fit its partition exactly when
  reserved area and FATs together wrap (`Fat32Verify.AcceptedFitsExactly`, `OversizedFatsAccepted`).
- `failed_before_write` is documented as "before any target write was accepted"
  (docs/EVIDENCE_STATES.txt:13-14), and a short write after retries as a partial-media failure
  (docs/SAFETY_MODEL.md:40). The code keeps that state until the first chunk is complete, so a resize
  or failed attempts at the first chunk may have changed the target. `BeforeWriteInputs` gives, from the
  inputs of a call alone, the exact condition for a changed target and the exact condition for an
  accepted byte; `BeforeWrite` has a concrete run.
- Verification opens the source anew and takes its size and bytes from there, so a sampled
  `success_verified` (docs/EVIDENCE_STATES.txt:7-8, docs/ARCHITECTURE.md:257) is about the reopened
  source. `SampledCoverage` says exactly what that leaves of the written image: the compared blocks are the
  image's and reach its last byte exactly when the reopened size is the image's, and a block read back
  is the image's exactly when the reopened source still shows the image there. It has verified runs over
  a wrong medium for a source that was emptied, shrunk and replaced.
- The loader accepts every chunk size from one byte on (`Manifest.EveryChunkSizeLoads`), where
  docs/PROOF_FORMAT.md:33 names 4096; only creation enforces that. A Merkle root alone fixes neither the number of leaves nor whether a node is a leaf.
- docs/SAFETY_MODEL.md:14-22 lists fewer token fields than the code hashes. The token covers all of the
  descriptor except the display name and the removable and mounted flags.
- Attested writes are documented to bind the target fingerprint (docs/ARCHITECTURE.md:253, and the token
  comparison behind the seal in its flowchart). The code compares the open only with the writer's own
  first inspection. `AttestTargets.SealLetsThroughExactly` says for which two targets a seal made for the one
  lets the other be written: each passes its own gate. Two devices then have one token, because both gates
  compare the one confirmation; if either is a regular file nothing ties them, and
  `FileSealWritesDisk` is a run under a seal for a file that writes a disk.
- A stream that disagrees with the plan is documented to become `plan_breach_partial_media`
  (docs/ARCHITECTURE.md:135-139). It does exactly when it agrees with the writer's own planning pass and
  flush and verification succeed (`AttestTheorems.DisagreementEndsExactly`); otherwise it ends in
  `failed_partial_media` or `verification_failed`.

## Model

| member | source | states |
|---|---|---|
| `Fips180.PadZeros` | src/sha256.c:100-107 | the padding fills a block up to its length field, and no shorter padding does |
| `Fips180Vectors.PadIs` | src/sha256.c:100-107 | a padded message is the message, the byte 0x80, zeros, and its length in bits as a big-endian 64-bit number, in whole blocks and at most 72 bytes longer |
| `Fips180Vectors.ChSelects` | src/sha256.c:6 | on the bits where x has ones the choice is y's, on the others z's |
| `Fips180Vectors.MajIsTheMajority` | src/sha256.c:7 | a bit of the majority is set exactly when two of the three are |
| `Fips180Vectors.RotrRotates` | src/sha256.c:5-11 | the shift pairs are rotations to the right, for each of the ten amounts |
| `Fips180Vectors.ConstantsAreCubeRoots` | src/sha256.c:13-30 | each of the 64 round constants is the first 32 fractional bits of the cube root of its prime, in integer arithmetic |
| `Fips180Vectors.InitialIsSquareRoots` | src/sha256.c:66-74 | the eight initial words are those of the square roots of the first eight primes |
| `Fips180Vectors.AbcDigest` | src/sha256.c:44-111 | the known answer: the digest of "abc" as 32 literal bytes, through 48 schedule words and 64 rounds |
| `Streaming.ExpandSchedule` | src/sha256.c:45-50 | the 64 words computed in place are the recursive message schedule |
| `Streaming.RunRounds` | src/sha256.c:52-60 | the rotating working variables are the 64 rounds of the standard, whose functions and constants `Fips180Vectors` pins |
| `Streaming.HashBlocksStep` | src/sha256.c:88-91 | absorbing a whole block behind whole blocks is one compression |
| `Streaming.BitCountStep` | src/sha256.c:80 | the wrapping bit counter counts the bits of the whole message modulo 2^64 |
| `Streaming.Context.constructor` | src/sha256.c:66-74 | a fresh context is valid and has absorbed nothing |
| `Streaming.Context.Transform` | src/sha256.c:44-64 | the in-place transform is the compression function that gives "abc" its known digest |
| `Streaming.Context.Position` | src/sha256.c:82-91 | the buffer position is the message length modulo 64 |
| `Streaming.Context.Update` | src/sha256.c:76-93 | one update, of any length and from any buffer position, appends its data to the absorbed message |
| `Streaming.Context.Final` | src/sha256.c:95-111 | the digest is the standard's for the absorbed message, one- and two-block padding included, and the context is wiped |
| `Streaming.HashBuffer` | src/sha256.c:113-118 | the one-shot digest is the function of `Fips180Vectors.AbcDigest` |
| `Streaming.HashFragments` | src/sha256.c:76-111 | however a message is cut into updates, the digest is the standard's for the whole |
| `Text.XorIsZero` | src/common.c:192-200 | bitwise difference is zero exactly for equal numbers |
| `Text.OrIsZero` | src/common.c:192-200 | an accumulated difference is zero exactly when every part is |
| `Text.ConstantTimeEqual` | src/common.c:192-200 | the accumulating comparison decides equality of the compared bytes |
| `Text.HexEncode` | src/common.c:181-190 | the text has two lower-case digits for every byte, high nibble first |
| `Text.HexDecode32` | src/proof.c:24-41 | accepts exactly 64 hexadecimal digits of either case and returns their value |
| `Text.HexRoundTrip` | src/common.c:181-190 | decoding an encoded digest returns it |
| `Text.HexPrefixInjective` | src/device.c:75-77 | a truncated encoding determines exactly the encoded bytes it covers |
| `Text.DecimalRoundTrip` | src/proof.c:337-343 | the value of a printed number is that number |
| `Text.ParseDecimal` | src/proof.c:141-158 | every printed 64-bit number reads back |
| `Text.FieldsInjective` | src/device.c:31-36 | terminated fields written one after the other determine the list of fields |
| `ProofFacts.HexDigitsAre` | src/proof.c:24-32 | sixteen digits in either case have their values, sixteen are printed, and no other byte is a digit |
| `ProofFacts.NumeralsAre` | src/common.c:181-190 | numerals begin with the highest digit and have no leading zero, and a byte prints its high nibble first |
| `Arithmetic.RoundUpMeaning` | src/pipeline.c:12-28 | rounding yields the least multiple not below the value, and zero exactly for zero and on overflow |
| `Arithmetic.RoundUpFits` | src/pipeline.c:422-425 | rounding a file size to a sector never overflows, so the capacity gate never sees the zero |
| `Completeness.RoundUpIsLeast` | src/pipeline.c:12-28 | no multiple between a value and its rounding exists |
| `Fat32Sizing.Contraction` | src/fat32.c:95-100 | a larger FAT asks for a smaller one, and one round shrinks a gap about 64 times |
| `Fat32Sizing.IterateBounds` | src/fat32.c:91-100 | from 35 sectors on, every iterate is positive and leaves room for data |
| `Fat32Sizing.Alternates` | src/fat32.c:88-102 | each iterate lies on the other side of the next one |
| `Fat32Sizing.Brackets` | src/fat32.c:88-102 | even iterates rise, odd ones fall, and they never cross |
| `Fat32Sizing.GapShrinks` | src/fat32.c:95-100 | the distance of consecutive iterates shrinks about 64 times each round |
| `Fat32Sizing.GapCloses` | src/fat32.c:88-102 | from the sixth round on consecutive iterates differ by at most one, for every 32-bit partition size |
| `Fat32Sizing.Settles` | src/fat32.c:101 | the early exit returns what all 64 rounds would |
| `Fat32Sizing.Oscillates` | src/fat32.c:88-102 | iterates that repeat after two rounds alternate for ever |
| `Fat32Sizing.TwoCycleArithmetic` | src/fat32.c:95-100 | two sizes alternate exactly when the data sectors beside the smaller are c(128a-1) or one more |
| `Fat32Sizing.AnswerIsUnique` | src/fat32.c:88-102 | a sizing problem has one fixpoint or one two-cycle, never both |
| `Fat32Sizing.OutcomeAt` | src/fat32.c:88-102 | the loop ends on the fixpoint or on the lower end of the two-cycle |
| `Fat32Layout.LayoutRanges` | src/fat32.c:113-121 | every field of a layout fits the width it is stored in |
| `Fat32Layout.ClusterCountRange` | src/fat32.c:103-112 | the recorded count misses the minimum exactly below 66581 sectors and never reaches the maximum |
| `Fat32Layout.SizingRound` | src/fat32.c:95-100 | the 32- and 64-bit arithmetic of a round never wraps while the FATs leave room |
| `Fat32Layout.SolveSizes` | src/fat32.c:88-102 | the loop with its early exit fails exactly below 35 sectors and else returns the 64th iterate and the count of the round before |
| `Fat32Layout.ComputeLayout` | src/fat32.c:57-123 | returns the specified layout or error for every size and requested start |
| `Fat32Layout.LayoutStatuses` | src/fat32.c:74-112 | for every size and start, exactly when a target is too small and exactly when it is too large, with the wrapping sum as a remainder |
| `Fat32Layout.AcceptedSizesSucceed` | src/fat32.c:49-112 | with a start that does not wrap, success is exactly the documented size range, and each of the five cluster sizes is chosen exactly in its range of partition sectors |
| `Fat32Layout.EveryClassOccurs` | src/fat32.c:49-55 | each of the five cluster sizes is the one of some accepted target |
| `Fat32Layout.SmallTargetsPassExactly` | src/fat32.c:74-107 | a partition below the minimum of the size gate is accepted exactly when the gate's sum wraps and at least 66581 sectors remain |
| `Fat32Layout.SmallTargetPasses` | src/fat32.c:74-78 | the witness: the last 32-bit start with 66581 sectors behind it |
| `Fat32Layout.RecordedLayoutFits` | src/fat32.c:113-121 | metadata and recorded clusters fit the partition, the partition fits the target, and each FAT has an entry for every recorded cluster |
| `Fat32Layout.DerivedCount` | src/fat32.c:369-370 | the count a reader derives fits the FAT in a fixpoint and exceeds it in a two-cycle |
| `Fat32Layout.FixpointOrTwoCycle` | src/fat32.c:88-121 | the exact case split: two-cycle by arithmetic, no fixpoint then, and reader and writer agree on the count exactly in a fixpoint |
| `Fat32Layout.SmallestTargetHasNoFixpoint` | src/fat32.c:74-102 | the witness: 65 MiB alternates between 1008 and 1009, recording 129022 clusters where a reader derives 129024 |
| `Fat32Image.Le32RoundTrip` | src/fat32.c:21-35 | a stored 32-bit field reads back |
| `Fat32Image.Le16RoundTrip` | src/fat32.c:16-30 | a stored 16-bit field reads back |
| `Fat32Image.NormalizeLabel` | src/fat32.c:37-47 | the label is the upper-cased, padded, sanitized text, DEADFLASH when empty |
| `Fat32Image.NormalizingIsIdempotent` | src/fat32.c:37-47 | a normalized label has no forbidden or lower-case character and is its own normalization |
| `Fat32Fields.LabelCharacters` | src/fat32.c:42-45 | which sixteen characters and controls become underscores, and that only a to z are upper-cased |
| `Fat32Fields.NoLabel` | src/fat32.c:41 | no label at all is DEADFLASH and two spaces, byte for byte |
| `Fat32Fields.LittleEndian` | src/fat32.c:16-35 | byte i of a stored number is the i-th from below |
| `Fat32Fields.BootLiterals` | src/fat32.c:139-169 | every constant byte of a boot sector in its place, and zeros outside the fields |
| `Fat32Fields.BootReadsAsWritten` | src/fat32.c:146-164 | the eight numbers and the label of a boot sector by their offsets, hidden sectors at 28 and the total at 32 among them |
| `Fat32Fields.MbrLiterals` | src/fat32.c:125-137 | the one partition entry byte by byte, start at 454 and size at 458, and zeros elsewhere |
| `Fat32Fields.FsInfoLiterals` | src/fat32.c:171-178 | the three signatures, the unknown free count and the next cluster, and zeros elsewhere |
| `Fat32Fields.FatLiterals` | src/fat32.c:297-300 | the first twelve bytes of a FAT, and zeros behind them |
| `Fat32Format.BuildMbr` | src/fat32.c:125-137 | the buffer built field by field is the specified partition table, no byte left over |
| `Fat32Format.BuildBootSector` | src/fat32.c:139-169 | the buffer is the boot sector of `Fat32Fields.BootLiterals` and `BootReadsAsWritten` |
| `Fat32Format.BuildFsInfo` | src/fat32.c:171-178 | the buffer is the specified FSInfo sector |
| `Fat32Format.BuildFatHead` | src/fat32.c:297-300 | the buffer is the specified first FAT sector |
| `Fat32Format.BuildRootSector` | src/fat32.c:308-310 | the buffer is the root directory sector with its label entry |
| `Fat32Format.WriteExact` | src/fat32.c:180-190 | success writes all bytes in place, failure changes only the extent |
| `Fat32Format.ZeroRegion` | src/fat32.c:192-213 | success zeroes exactly the extent, failure changes nothing outside it |
| `Fat32Format.OverlayInside` | src/fat32.c:281-315 | a later write inside the zeroed extent stays inside it |
| `Fat32Format.OverlaysCommute` | src/fat32.c:275-279 | the partition table and the partition never overlap |
| `Fat32Format.MetadataAssembled` | src/fat32.c:281-315 | the seven sector writes over zeros give the metadata sector by sector: no structure overlaps another |
| `Fat32Format.WriteMetadata` | src/fat32.c:281-315 | success leaves exactly the metadata over the old medium, failure stays in its extent |
| `Fat32Format.CompleteFrame` | src/fat32.c:268-315 | a complete format changes only sector 0 and the metadata extent |
| `Fat32Format.LayoutSane` | src/fat32.c:268-272 | the metadata extent of every computed layout lies inside the target |
| `Fat32Format.PlanFormat` | src/fat32.c:241-262 | inspection, layout and gate in the source's order, without touching the medium |
| `Fat32Format.FormatFat32` | src/fat32.c:215-329 | success means exactly the formatted image, refusal touches nothing, failure stays in sector 0 and the extent, without faults it succeeds, if every flush or every transfer fails it does not, and every failure behind the plan is an I/O error, missing memory or what the resize or the flush returned |
| `Fat32Verify.VerifyFat32` | src/fat32.c:331-394 | reads what the specification decodes and leaves the medium alone |
| `Fat32Verify.MbrReadsBack` | src/fat32.c:356-358 | the written partition entry passes the reader's checks and returns start and size |
| `Fat32Verify.BootFieldsReadBack` | src/fat32.c:361-366 | every field the reader uses reads back |
| `Fat32Verify.BootReadsBack` | src/fat32.c:361-386 | the boot sector of every computed layout decodes to it, with the derived cluster count |
| `Fat32Verify.AcceptedFitsExactly` | src/fat32.c:363-370 | for any boot sector the reader accepts, metadata and clusters fit the partition exactly when reserved area and FATs do not wrap |
| `Fat32Verify.OversizedFatsAccepted` | src/fat32.c:367-368 | the witness: two FATs of 2^31 sectors in a partition of 131072 |
| `Fat32Verify.ImageSector` | src/fat32.c:281-315 | each metadata sector is found where the layout puts it |
| `Fat32Verify.ImageMbr` | src/fat32.c:275-279 | sector 0 of a formatted image is the partition table |
| `Fat32Verify.FormatThenVerify` | src/fat32.c:215-394 | the reader accepts every completed format with all its fields and label, and returns the recorded cluster count exactly when sizing reached a fixpoint |
| `Fat32Verify.FormatAndVerify` | src/fat32.c:215-394 | formatting and then reading, one after the other on one medium: a format that completes is read back, field for field |
| `Fat32Verify.FormattedStructure` | src/fat32.c:281-315 | boot and FSInfo equal their backups, both FATs are equal and hold entries 0 to 2 only, the root directory starts with the label |
| `Fat32Fields.FormattedFields` | src/fat32.c:268-315 | the formatted image by its own fields: the sector named at 48 is an FSInfo sector, the one named at 50 a copy, each FAT starts with the media byte of offset 21 and two end-of-chain entries, the root directory with a volume label, and the partition entry spans what offsets 28 and 32 say |
| `Fat32Fields.FormatIsGated` | src/fat32.c:241-266 | a format reaches its first write exactly when the first inspection can be laid out and the target found at the open has the same token, is authorized and opens |
| `Fat32Fields.BootAcceptedExactly` | src/fat32.c:361-386 | the reader takes a boot sector exactly under conditions on its bytes, each given, and returns what they say |
| `Fat32Fields.MediumAcceptedExactly` | src/fat32.c:340-388 | over an unchanging medium read without faults, exactly which media the reader takes; every other is of the wrong format |
| `Merkle.ReduceLevel` | src/proof.c:90-98 | one level overwritten while it is still read is the next level |
| `Merkle.MerkleRoot` | src/proof.c:66-103 | the in-place reduction returns the level-by-level root for every leaf count, and the source's errors |
| `Merkle.TreeOverParents` | src/proof.c:89-99 | cutting the leaves off a duplicated tree leaves the tree over the parents |
| `Merkle.RootIsTree` | src/proof.c:57-103 | the reduction's root is the digest of the recursive tree with odd nodes duplicated, of least height |
| `Merkle.LevelBinds` | src/proof.c:57-64 | different nodes under equal parents are a collision of two 65-byte inputs |
| `Merkle.RootBinds` | src/proof.c:57-103 | equal roots over equally many leaves mean equal leaves or a collision inside the trees |
| `Merkle.OddListsAlias` | src/proof.c:94-96 | repeating an odd list's last leaf keeps the root |
| `Merkle.LeafAliasesParent` | src/proof.c:57-64 | a parent digest used as a single leaf keeps the root |
| `ProofFacts.ParentInputIs` | src/proof.c:57-64 | a parent hashes 65 bytes: one, the left digest, the right digest |
| `ProofFacts.RootStatuses` | src/proof.c:66-80 | a root is refused exactly for no leaf, more than 4194304 leaves, or no memory |
| `Manifest.CeilingIsExact` | src/proof.c:174-181 | the count check accepts only the true ceiling although its sum wraps |
| `Manifest.ChunksTile` | src/proof.c:201-220 | the chunks of an accepted manifest are contiguous and tile the source exactly |
| `Manifest.DenotedIsWellFormed` | src/proof.c:165-243 | every accepted text is a well-formed manifest in true arithmetic |
| `Manifest.PrintThenParse` | src/proof.c:335-371 | a printed manifest is accepted as itself, whatever follows END |
| `Manifest.DenotableIffWellFormed` | docs/PROOF_FORMAT.md:29-39 | the manifests some text denotes are exactly the well-formed ones |
| `Manifest.RootBindsChunks` | src/proof.c:174-181 | equal size, chunk size and root mean equal chunk digests or a collision: the count check makes the lists equally long |
| `Manifest.EveryChunkSizeLoads` | src/proof.c:165-173 | a text is accepted for a one-chunk manifest of every chunk size from one byte up to the limit |
| `ProofFacts.LimitsAre` | src/proof.c:165-181 | at most 4194304 chunks, of at most 1073741824 bytes, and no empty source |
| `ProofFacts.AcceptedTextIs` | src/proof.c:135-243 | keyword, place and value of every token of an accepted text |
| `ProofFacts.PrintedTextIs` | src/proof.c:335-371 | the printed tokens: nine in front, four for every chunk, three behind |
| `ManifestText.LoadHeader` | src/proof.c:135-181 | accepts a header exactly when its fields read and meet the limits |
| `ManifestText.LoadChunk` | src/proof.c:202-219 | accepts a record exactly when index, length and digest are right |
| `ManifestText.DenotesOne` | src/proof.c:112-243 | a text denotes at most one manifest |
| `ManifestText.Load` | src/proof.c:112-248 | loading returns the manifest the text denotes exactly when there is one and memory for it; without memory for one, no_memory |
| `ManifestText.Print` | src/proof.c:335-371 | the emitted text is the specified one |
| `ManifestText.PrintAndLoad` | src/proof.c:335-371 | printing and loading returns the manifest, field for field |
| `ProofSpec.LeastDifference` | src/proof.c:489-495 | the first index at which two buffers differ |
| `ProofEngine.FindDifference` | src/proof.c:489-495 | the scanning loop returns that index |
| `ProofEngine.DigestChunks` | src/proof.c:309-326 | the read loop yields every chunk's digest and the whole source's |
| `ProofEngine.CreatedIsWellFormed` | src/proof.c:289-326 | every manifest creation makes is well formed |
| `ProofEngine.CreateProof` | src/proof.c:250-385 | creation returns the specified manifest and text or the source's error, and leaves the target alone |
| `ProofFacts.CreateStatuses` | src/proof.c:262-303 | the chunk size used, 4 MiB when none is asked for, and a status for each refusal |
| `ProofEngine.VerifyChunks` | src/proof.c:453-519 | the loop stops at the first chunk that fails and reports how |
| `ProofEngine.VerifyProof` | src/proof.c:387-527 | a run is the specified one for the manifest the text denotes and touches nothing; by the two opens alone: success_proven needs a source of the recorded size and a target not known to be shorter, and each refusal before the first chunk has exactly its case and reports nothing verified |
| `ProofTheorems.ReadLength` | src/proof.c:504-505 | the verified byte count is the number of bytes read from either side |
| `ProofTheorems.PassingChunksAgree` | src/proof.c:465-482 | chunks that pass are equal on both sides or collide |
| `ProofTheorems.SuccessIsSound` | src/proof.c:453-519 | success_proven means every source and target chunk and the whole source have the recorded digests, and both sides are equal or two chunks collide |
| `ProofTheorems.MismatchShape` | src/proof.c:481-503 | the reported digests, chunk and offset are those of the failing pair of chunks |
| `ProofFacts.StoppedAt` | src/proof.c:453-503 | how a run ends that stops at a chunk: source_changed, with the chunk's number and offset, exactly when the source's digest differs, target_mismatch exactly when the target's does, an I/O error with neither otherwise |
| `ProofFacts.AllChunksPassed` | src/proof.c:508-519 | how a run ends whose chunks all pass: by the digest of the whole source |
| `ProofTheorems.MismatchInReadBytes` | src/proof.c:454-506 | even if both sides change meanwhile, the reported offset is the first difference of the bytes read unless an earlier chunk collides, and whole chunks are counted |
| `ProofTheorems.MismatchIsExact` | src/proof.c:454-506 | over stable bytes the reported offset is the first difference of source and target unless an earlier chunk collides |
| `ProofTheorems.CreateFromStable` | src/proof.c:309-326 | creation over a stable source records that source's slices |
| `ProofTheorems.CreateSucceeds` | src/proof.c:250-385 | without faults creation succeeds for every size and chunk size within limits |
| `ProofTheorems.VerifyIsComplete` | src/proof.c:453-519 | a manifest of a stable source proves it against every target that starts with it, all bytes and chunks counted |
| `ProofTheorems.CreateThenVerify` | src/proof.c:250-527 | create, print, load and verify ends in success_proven with every byte counted |
| `Device.HashTextField` | src/device.c:31-36 | one call appends one terminated field to the hashed record |
| `Device.ComputeTargetToken` | src/device.c:38-78 | the token is the first 16 hexadecimal digits of the record's digest |
| `Device.RecordDeterminesIdentity` | src/device.c:48-72 | the hashed record determines all of the descriptor except its display name and the removable and mounted flags |
| `Device.TokenBindsIdentity` | src/device.c:38-78 | equal tokens mean one identity, or two records whose digests share eight bytes |
| `AttestFacts.TokenRecordIs` | src/device.c:38-78 | the hashed target record field by field, each behind the other with a zero byte |
| `Targets.DecisionMeansAuthorized` | src/device.c:739-792 | the open is let through exactly when the live token is the planned one and every override guard holds |
| `Targets.OpenTarget` | src/device.c:774-846 | reinspection, token comparison, gate and open in this order, with the source's errors |
| `RunFacts.GateStatuses` | src/device.c:739-772 | each guard's status exactly when it is the first that fails; a file passes |
| `RunFacts.OpenStatuses` | src/device.c:774-846 | inspection, token, gate and open each has its status, and what the opened file keeps: 512 when no sector size is known |
| `WriteLoop.StepAdvances` | src/pipeline.c:475-526 | every completed iteration moves the offset forward and not past the source |
| `Writer.WriteWithRetries` | src/pipeline.c:503-517 | the retry loop is the specified sequence of attempts |
| `Writer.WriteChunk` | src/pipeline.c:475-526 | one iteration is the specified step, and the hash has taken what was read |
| `Writer.WriteAll` | src/pipeline.c:471-528 | the loop is the specified one and its digest that of the streamed bytes |
| `WriteTheorems.AttemptsEffect` | src/pipeline.c:503-517 | failed and short attempts leave a prefix of the chunk, a successful one all of it; failures are counted |
| `WriteTheorems.ChunkEnds` | src/pipeline.c:492-501 | only the last chunk is padded, and it ends at the rounded-up extent |
| `WriteTheorems.ChunkJoins` | src/pipeline.c:491-501 | a padded chunk behind the streamed ones is the streamed bytes with the padding of the whole |
| `WriteTheorems.StepKeepsInvariant` | src/pipeline.c:475-526 | a completed iteration keeps "the medium is the old one under the streamed chunks" |
| `WriteTheorems.StepAborts` | src/pipeline.c:482-517 | an interrupted iteration leaves completed chunks alone and changes nothing outside the extent |
| `WriteTheorems.LoopIsCorrect` | src/pipeline.c:475-526 | under any faults: completion leaves the streamed bytes over the old medium with a device's last sector zero-padded, an abort stays inside the extent behind correct chunks |
| `WriteTheorems.StableSourceIsStreamed` | src/pipeline.c:482-491 | a source that never changes is streamed as it is |
| `WriteTheorems.FirstChunkResidue` | src/pipeline.c:503-517 | a loop without a completed chunk leaves exactly the longest prefix its attempts moved |
| `WriteTheorems.AttemptsAreCounted` | src/pipeline.c:503-525 | every write attempt is either a counted retry or the one that completed a reported chunk |
| `WriteTheorems.ResidueIsVisible` | src/pipeline.c:503-517 | that residue leaves the medium as found exactly when the medium already began with it |
| `RunFacts.StepStatuses` | src/pipeline.c:482-517 | an incomplete read is an I/O error, a chunk whose padding leaves the buffer an internal one, and nothing else is |
| `Verifier.HashFileRegion` | src/pipeline.c:53-123 | the block loop is the specified region read and returns the digest of its bytes |
| `Verifier.SeedFromHash` | src/pipeline.c:169-174 | the seed is the first eight digest bytes, replaced when zero |
| `Verifier.CompareBlock` | src/pipeline.c:227-242 | a pair of blocks passes exactly when both are complete and equal |
| `Verifier.VerifySamples` | src/pipeline.c:176-257 | the sampling loop is the specified one, its blocks those of `SampleDraws` |
| `SampleDraws.EveryBlockIsDrawn` | src/pipeline.c:224-225 | for every source longer than a block, every offset at which a block fits and every iteration from the third on, some digest makes that iteration compare the block there |
| `SampleDraws.StepIsUndone` | src/pipeline.c:160-167 | the generator's step is a bijection of the 64-bit states, with its inverse |
| `SampleDraws.StepsAreDistinct` | src/pipeline.c:160-167 | different states have different successors and different draws |
| `SampleDraws.EverySeedOccurs` | src/pipeline.c:169-174 | every nonzero state is the seed of a digest |
| `SampleDraws.NoSeed` | src/pipeline.c:169-174 | eight leading zero bytes are replaced by the program's own seed |
| `SampleDraws.EveryDrawOccurs` | src/pipeline.c:160-167 | every nonzero 64-bit number is the draw of a nonzero state |
| `SampleDraws.KnownDraws` | src/pipeline.c:191-225 | five offsets of a 100 MiB source, written out |
| `ReadbackTheorems.RegionIsPrefix` | src/pipeline.c:84-118 | over stable bytes the hashed region is their prefix |
| `ReadbackTheorems.GeneratorStaysNonzero` | src/pipeline.c:160-167 | the generator never steps from a nonzero state to zero |
| `ReadbackTheorems.StatesNonzero` | src/pipeline.c:160-174 | no state of any sampling run is zero |
| `ReadbackTheorems.SamplesLieInSource` | src/pipeline.c:215-225 | every sampled block lies in the source, the first and last blocks are among them |
| `ReadbackTheorems.SamplingComparesReads` | src/pipeline.c:215-247 | in every environment, sampling passes exactly when every pair of blocks, as it was read, is complete and equal, and it then counts every block |
| `ReadbackTheorems.SampleFilesDecide` | src/pipeline.c:191-257 | in every environment, a whole sampling passes exactly when the source is empty or its buffers are there and all pairs agree, and counts no byte exactly when the source is empty |
| `ReadbackTheorems.SamplingDecides` | src/pipeline.c:215-247 | over sides that do not change meanwhile, passing means every sampled block is equal on both; if transfers are complete as well, equality means passing |
| `ReadbackTheorems.SmallSourcesFullyCompared` | src/pipeline.c:192-247 | over sides that do not change meanwhile and up to 2 MiB, passing means equality of every byte; without faults equality means passing |
| `SampledCoverage.NothingComparedExactly` | src/pipeline.c:549-572 | every sampled run that ends in success_verified compared no byte exactly when the reopened source was empty, and otherwise every planned pair, both ends of the reopened source included |
| `SampledCoverage.PlanCoversExactly` | src/pipeline.c:192-225 | the blocks planned for one size are blocks of an image of another, and reach its last byte, exactly when the sizes are equal |
| `SampledCoverage.ImageCoveredExactly` | src/pipeline.c:296-323 | for every sampled run that ends in success_verified, the compared blocks are those of the written image and reach its last byte exactly when the reopened source has its size |
| `SampledCoverage.VouchesExactly` | src/pipeline.c:227-242 | in every such run, a block read back is the written image's exactly when the reopened source still showed the image there |
| `SampledCoverage.UnchangingImageIsStreamed` | src/pipeline.c:475-526 | a run over an image that never changes has streamed its first bytes, as many as the source has |
| `SampledCoverage.SmallImagesAreReadBack` | src/pipeline.c:192-247 | over an unchanging image and readback and up to 2 MiB, such a run has read back the streamed bytes, all of them, if the reopened source has their number |
| `SampledCoverage.VerifiedOverWrongMedium` | src/pipeline.c:549-572 | whatever the image is made into before it is reopened, the run is verified if those bytes are the ones the wrong medium reads back |
| `SampledCoverage.VerifiedWithoutComparing` | src/pipeline.c:192-197 | a concrete run over an emptied image ends in success_verified with no byte compared, over a medium that reads back wrong |
| `SampledCoverage.VerifiedInPart` | src/pipeline.c:192-225 | the same for an image shrunk to its first byte: the wrong second byte is never compared |
| `SampledCoverage.VerifiedAgainstAnother` | src/pipeline.c:227-242 | the same for an image replaced at its full size: every byte is compared, with the replacement |
| `Progress.RegionReports` | src/pipeline.c:84-118 | reports of a region stay ordered, bounded and reach its length exactly on completion |
| `Progress.LoopReports` | src/pipeline.c:519-525 | write reports are the bytes of completed chunks, in order |
| `Progress.SampleReports` | src/pipeline.c:244-246 | sampling reports whole blocks and never exceeds its total |
| `Imaging.WriteImage` | src/pipeline.c:364-588 | a run is the specified chain of phases, result and medium included, whose decisions `RunFacts` states one by one |
| `RunFacts.CapacityMeans` | src/pipeline.c:422-425 | a target is too small exactly when it is a device, of either kind, and no multiple of its sector size lies between the image's size and its own |
| `RunFacts.CapacityDecides` | src/pipeline.c:422-431 | over every run: such a device is refused with source_too_large after the first report, with nothing hashed, opened or touched; every other target is hashed for |
| `RunFacts.TouchedDevicesHaveRoom` | src/pipeline.c:422-453 | a device whose medium was touched, or whose loop was started, had room for the image in whole sectors |
| `RunFacts.EarlyRefusals` | src/pipeline.c:409-419 | no source, an empty one and a failed inspection each have their status and leave everything as it was |
| `RunFacts.HashStatuses` | src/pipeline.c:53-123 | a region is refused exactly for an overflowing buffer or no memory, and otherwise fails only on a read |
| `RunFacts.BufferStatuses` | src/pipeline.c:455-469 | the write buffer's two refusals, before anything is written |
| `RunFacts.DefaultsAre` | src/pipeline.c:390-398 | 32 MiB, four attempts and 64 samples for zeros, everything else as asked |
| `RunFacts.LoopsFollow` | src/pipeline.c:446-474 | over every run: size, retries, alignment, buffer and starting medium of the loop from the target found at the open and the options |
| `RunFacts.LongerFilesKeepTheirLength` | src/pipeline.c:446-453 | over every run, a longer file opened without the truncate option keeps its length and its bytes behind the image |
| `RunFacts.NoFlushNoSuccess` | src/pipeline.c:542-545 | if no flush succeeds, no run does |
| `RunFacts.VerificationOpens` | src/pipeline.c:285-300 | verification's refusals at the two opens, and what passing says about the reopened sizes |
| `RunFacts.SamplingStops` | src/pipeline.c:215-247 | where a sampling stops, in every environment: at the first pair that does not agree, with the blocks before it counted, as one mismatch if both blocks were read and as an I/O error otherwise |
| `RunFacts.MismatchesAreCounted` | src/pipeline.c:302-339 | behind the opens, in every mode, a mismatch is counted exactly when it is the status |
| `RunFacts.MismatchesOfRuns` | src/pipeline.c:549-572 | the same for the result of every run that got as far as verifying |
| `RunFacts.FullReadbackIsTheMediums` | src/pipeline.c:325-339 | full verification reads the medium, not the source: over an unchanging readback it passes exactly when the readback's first bytes have the known digest |
| `RunFacts.FullSuccessIsOnTheMedium` | src/pipeline.c:549-572 | over every successful run in full mode, the medium's first bytes have the digest of the planning pass |
| `SuccessReports.SuccessReportsExactly` | src/pipeline.c:406-581 | over every successful run, the exact list of reports: planning, each hashed block, each written chunk, the flush, each verified block or pair, completion |
| `PipelineTheorems.VerificationIsSound` | src/pipeline.c:259-353 | verification changes nothing, and in full mode accepts only bytes with the known digest |
| `PipelineTheorems.LoopOutcome` | src/pipeline.c:475-536 | what the phases behind the loop may rely on, for every way it ends |
| `PipelineTheorems.RunIsRight` | src/pipeline.c:364-588 | every run: status, final state, medium, digests, sampled comparisons and ordered reports agree, verification follows a flush, and the medium is touched only behind the gate |
| `BeforeWrite.UntouchedExactly` | src/pipeline.c:446-517 | for any single run that ends in failed_before_write, source and target changing at will: the medium is as found exactly when no resize changed it and the attempts left only what was there |
| `BeforeWriteInputs.MarkedExactly` | docs/EVIDENCE_STATES.txt:13-14 | for given options, image, target and medium: some run ends in failed_before_write with a changed medium exactly when the guards admit the call and the resize changes the size or the first chunk is not already there |
| `BeforeWriteInputs.AcceptedExactly` | docs/EVIDENCE_STATES.txt:13-14 | for the same inputs: some run ends in failed_before_write after a byte was accepted exactly when the guards admit the call, the first chunk can be written and a device has room for a byte |
| `BeforeWriteInputs.NoByteAccepted` | src/pipeline.c:503-517 | the residue of a run is empty exactly when its first chunk was not ready or no attempt had a byte accepted |
| `BeforeWriteInputs.RunKnown` | src/pipeline.c:409-474 | in every run the loop's parameters and the medium it starts from are those the inputs determine |
| `BeforeWriteInputs.LoopFails` | src/pipeline.c:475-517 | when every attempt fails after all there is room for, the loop stops with exactly that on the medium |
| `BeforeWriteInputs.RunStops` | src/pipeline.c:409-517 | admitted inputs whose transfers fail once the first chunk is read end in failed_before_write with that chunk on the medium |
| `BeforeWriteInputs.RunResizesOnly` | src/pipeline.c:446-469 | admitted inputs that run out of memory after the resize end in failed_before_write with a resized file |
| `BeforeWrite.MarkLeftBeforeWrite` | src/pipeline.c:503-517 | a concrete run that ends in failed_before_write with a changed target byte |
| `Completeness.CalmLoop` | src/pipeline.c:475-526 | without faults the write loop completes |
| `Completeness.BufferIsAligned` | src/pipeline.c:455-461 | alignments that divide 4096 or reach it give a buffer of whole sectors |
| `Completeness.CalmVerification` | src/pipeline.c:259-346 | without faults both verification modes accept a medium that starts with the source |
| `Completeness.CalmRunSucceeds` | src/pipeline.c:364-588 | without faults every authorized run succeeds in the mode asked for, and the target starts with the source |
| `Attesting.SealPlan` | src/attest.c:63-122 | gate, canonical record and seal as specified |
| `Attesting.Plan` | src/attest.c:27-123 | planning is the specified sequence |
| `Attesting.WriteAttested` | src/attest.c:125-203 | an attested run is the specified one |
| `AttestTheorems.LinesDeterminePlan` | src/attest.c:79-112 | the seventeen lines determine every sealed field |
| `AttestTheorems.CanonicalIsInjective` | src/attest.c:79-112 | different plans have different canonical records |
| `AttestTheorems.SealBindsPlan` | src/attest.c:119-121 | equal seals mean equal plans or a collision |
| `AttestTheorems.CanonicalFits` | src/attest.c:113-117 | the fixed-buffer overflow is unreachable |
| `AttestTheorems.SealedPlans` | src/attest.c:61-122 | sealing succeeds exactly when the device gate passes, and the record speaks about that target and those options |
| `AttestFacts.CanonicalIs` | src/attest.c:79-112 | the canonical record line by line |
| `AttestFacts.CodesAre` | src/attest.c:79-112 | the numbers that stand for kinds, modes and flags |
| `AttestFacts.RecordSpeaksAbout` | src/attest.c:63-122 | each of the sixteen sealed fields is that of the inspected target, the hashed source or the options |
| `AttestFacts.SealStatuses` | src/attest.c:63-78 | sealing refuses exactly a device without permission and one without its current token |
| `AttestFacts.PlanStatuses` | src/attest.c:27-61 | planning needs a source that opens and is not empty, and its target was inspected |
| `AttestTheorems.PlanningIsSound` | src/attest.c:27-123 | planning never touches the medium |
| `AttestTheorems.AttestedShape` | src/attest.c:125-203 | an attested run is refused without a write, or is the writer's run under a matching seal, with a breach told apart |
| `AttestTheorems.AttestedSuccess` | src/attest.c:191-203 | a changing source never becomes success: the streamed bytes have the sealed digest, the medium holds them, and in full mode the readback has it too |
| `AttestTheorems.AttestedStates` | src/attest.c:191-203 | success states are exactly the successes, and plan_breach marks exactly a completed write whose digest is not the sealed one |
| `AttestTheorems.DisagreementEndsExactly` | src/attest.c:191-203 | a completed stream that disagrees with the plan never succeeds, and each of the three states it can end in is given by the writer's own planning digest, the flush and the verification |
| `AttestTheorems.WriterIsBound` | src/pipeline.c:390-398 | the loop's retries and buffer and the sampling of every attested write are those of the sealed record |
| `AttestTheorems.OtherSealsAreRefused` | src/attest.c:182-189 | the seal of any other plan is refused before the writer is called, unless the two records collide |
| `AttestFacts.RefusalStatuses` | src/attest.c:160-193 | the writer is called exactly under the seal of the plan made now; a text that is no digest, a failed plan and another seal each have their status |
| `AttestTheorems.TouchedOnlyIfAuthorized` | src/attest.c:167-193 | the medium is touched only under the presented seal with the sealed options and only if the target found at the open is authorized as it is; if that and the sealed target are devices, live, confirmed and sealed token are one |
| `AttestTargets.RunTouches` | src/pipeline.c:417-453 | a writer that touched the medium had room on what it inspected first, in the sense of `RunFacts.CapacityMeans`, and found the same token, authorized, at the open |
| `AttestTargets.TouchNeedsGates` | src/attest.c:27-203 | whatever replaces the sealed target, it was touched only if both passed their gates |
| `AttestTargets.GatesLetThrough` | src/attest.c:27-203 | for any two targets that pass their gates, a constructed run under the seal of the one touches the medium with the other opened |
| `AttestTargets.SealLetsThroughExactly` | docs/ARCHITECTURE.md:253 | which target a seal for another lets the writer touch, as an if-and-only-if over the two descriptors, the image and the options; two devices have one token |
| `AttestTargets.FileSealWritesDisk` | src/device.c:774-792 | a run under a seal made for a regular file that attempts to write a block device |
| `AttestReports.FirstReport` | src/pipeline.c:406-407 | the writer's first report is of its first phase, whatever the run comes to |
| `AttestReports.OrderlyExactly` | src/attest.c:179-193 | both parts of an attested run report in order, and the callback as a whole is told phases in order exactly when the writer is never called |
| `AttestCompleteness.CalmPlan` | src/attest.c:27-123 | without faults planning succeeds, and its plan does not depend on when it is made |
| `AttestCompleteness.PlanThenWrite` | src/attest.c:27-203 | without faults the seal of any earlier planning authorizes the write, which succeeds and leaves the source on the target |

## Left out

- Null-pointer arguments and their errors.
- The GUI, the command line, JSON reports, timers, error message texts and `src/clean.c`.
- Device discovery, sysfs, mount tables, volume locking and handles: what inspection and opening return
  is chosen by the environment, tick by tick.
- The Windows branches, including the one that skips the mounted guard.
- The target kind "unknown": a successful inspection never reports it.
- `fscanf` details (overlong tokens, signed or overflowing numerals) and the manifest file itself: a
  manifest is the sequence of its white-space separated tokens, and writing it to disk never fails.
- The 32-byte granularity of the Merkle buffer: the reduction works in place on an array of digests.
- Direct-I/O rounding of read requests in region hashing: files opened by `df_open_source` never use it.
- `df_verify_image` without a known digest, and `df_hash_source_path` as an operation of its own.
- The aligned allocator's power-of-two rule: any allocation may fail instead.
- Filling `target_info` after a run, and the copy of an aliasing target path in the attested write.
- The clock inside the volume id: the id is a parameter.
- Interleaved or concurrent operations, power loss and media that lose flushed data.
- Collision resistance of SHA-256 and uniqueness of the truncated token: conclusions name the collision.
