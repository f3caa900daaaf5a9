/**
 What is on a formatted volume and what the reader takes, byte by byte and field by field: literal bytes,
 fields that point at each other, and nothing else.
 */
module Fat32Fields {
  import opened Bytes
  import opened Status
  import opened Device
  import opened Io
  import opened Targets
  import opened Fat32Layout
  import opened Fat32Image
  import opened Fat32Format
  import opened Fat32Verify

  // Byte order.

  /** The i-th byte of a stored field is the i-th from below. */
  lemma LittleEndian(v: U32)
    ensures var b := Le32(v);
            b[0] == v % 256 && b[1] == v / 256 % 256 && b[2] == v / 65536 % 256 && b[3] == v / 16777216
    ensures v < 65536 ==> Le16(v) == [v % 256, v / 256]
    ensures Le32(0x04030201) == [1, 2, 3, 4] && GetLe32([1, 2, 3, 4], 0) == 0x04030201
    ensures Le16(0x0201) == [1, 2] && GetLe16([1, 2], 0) == 0x0201
  {
  }

  // The sectors.

  /** Which bytes of a boot sector may be other than zero. */
  predicate InBootFields(i: nat) {
    i < 17 || i == 21 || 24 <= i < 28 || 28 <= i < 40 || 44 <= i < 52 || i == 64 || i == 66 || 67 <= i < 90 || 510 <= i
  }

  /** The boot sector's bytes that are the same on every volume. */
  lemma BootLiterals(l: Layout, volumeLabel: Label, volumeId: U32)
    ensures var boot := BootSector(l, volumeLabel, volumeId);
            && boot[..3] == [0xeb, 0x58, 0x90]
            && boot[3..11] == [68, 69, 65, 68, 66, 89, 84, 69] && boot[11] == 0 && boot[12] == 2
            && boot[21] == 0xf8 && boot[24..28] == [63, 0, 255, 0] && boot[48..52] == [1, 0, 6, 0]
            && boot[64] == 0x80 && boot[66] == 0x29 && boot[82..90] == [70, 65, 84, 51, 50, 32, 32, 32]
            && boot[510] == 0x55 && boot[511] == 0xaa
            && forall i :: 0 <= i < 512 && !InBootFields(i) ==> boot[i] == 0
  {
    hide Le32;
    var boot, geometry := BootSector(l, volumeLabel, volumeId), BootGeometry(l);
    assert boot[..64] == geometry;
    assert Ascii("DEADBYTE") == [68, 69, 65, 68, 66, 89, 84, 69];
    assert Ascii("FAT32   ") == [70, 65, 84, 51, 50, 32, 32, 32];
    assert geometry[..28] == BootParameters(l) && geometry[28..52] == BootExtents(l);
    assert forall i :: 0 <= i < 64 ==> boot[i] == geometry[i];
  }

  /** The boot sector's numbers, read back from their offsets. */
  ghost predicate BootNumbers(boot: Sector, l: Layout, volumeLabel: Label, volumeId: U32) {
    && GetLe16(boot, 11) == 512 && boot[13] == l.sectorsPerCluster && GetLe16(boot, 14) == l.reservedSectors
    && boot[16] == l.fatCount && GetLe16(boot, 24) == 63 && GetLe16(boot, 26) == 255
    && GetLe32(boot, 28) == l.partitionStartLba && GetLe32(boot, 32) == l.partitionSectors
    && GetLe32(boot, 36) == l.sectorsPerFat && GetLe32(boot, 44) == l.rootCluster
    && GetLe16(boot, 48) == 1 && GetLe16(boot, 50) == 6 && GetLe32(boot, 67) == volumeId
    && boot[71..82] == volumeLabel
  }

  lemma ExtentsAreInBoot(l: Layout, volumeLabel: Label, volumeId: U32)
    ensures var boot := BootSector(l, volumeLabel, volumeId);
            && boot[28..32] == Le32(l.partitionStartLba) && boot[32..36] == Le32(l.partitionSectors)
            && boot[67..71] == Le32(volumeId)
  {
    hide Le32, Le16, Ascii;
    var boot, geometry := BootSector(l, volumeLabel, volumeId), BootGeometry(l);
    assert boot[..64] == geometry && geometry[28..52] == BootExtents(l);
    assert geometry[28..32] == BootExtents(l)[..4] && geometry[32..36] == BootExtents(l)[4..8];
    assert boot[28..32] == geometry[28..32] && boot[32..36] == geometry[32..36];
    assert boot[64..90] == BootIdentity(volumeLabel, volumeId);
    assert boot[67..71] == BootIdentity(volumeLabel, volumeId)[3..7];
  }

  lemma BootReadsAsWritten(l: Layout, volumeLabel: Label, volumeId: U32)
    requires l.sectorsPerCluster < 256 && l.fatCount < 256 && l.reservedSectors < 65536
    ensures BootNumbers(BootSector(l, volumeLabel, volumeId), l, volumeLabel, volumeId)
  {
    hide BootSector, Ascii, GoodBoot;
    var boot := BootSector(l, volumeLabel, volumeId);
    BootLiterals(l, volumeLabel, volumeId);
    BootFieldsReadBack(l, volumeLabel, volumeId);
    ExtentsAreInBoot(l, volumeLabel, volumeId);
    Le32RoundTrip(boot, 28, l.partitionStartLba);
    Le32RoundTrip(boot, 32, l.partitionSectors);
    Le32RoundTrip(boot, 67, volumeId);
    assert boot[24] == boot[24..28][0] && boot[25] == boot[24..28][1] && boot[26] == boot[24..28][2];
    assert boot[27] == boot[24..28][3] && boot[48] == boot[48..52][0] && boot[49] == boot[48..52][1];
    assert boot[50] == boot[48..52][2] && boot[51] == boot[48..52][3];
    GoodBootSize(boot);
  }

  lemma GoodBootSize(boot: Sector)
    ensures GoodBoot(boot) ==> GetLe16(boot, 11) == 512
  {
  }

  /** The partition table: one bootable-flag-free entry of type 0x0c that spans the partition, and nothing else. */
  lemma MbrLiterals(l: Layout)
    ensures var mbr := MbrSector(l);
            && mbr[446..454] == [0x00, 0xfe, 0xff, 0xff, 0x0c, 0xfe, 0xff, 0xff]
            && GetLe32(mbr, 454) == l.partitionStartLba && GetLe32(mbr, 458) == l.partitionSectors
            && mbr[510] == 0x55 && mbr[511] == 0xaa
            && (forall i :: 0 <= i < 446 || 462 <= i < 510 ==> mbr[i] == 0)
  {
    hide GoodMbr, Le32;
    MbrReadsBack(l);
  }

  /** FSInfo: its three signatures, no free count, the third cluster as the next one to try, and nothing else. */
  lemma FsInfoLiterals()
    ensures var info := FsInfoSector();
            && info[0..4] == [0x52, 0x52, 0x61, 0x41] && info[484..488] == [0x72, 0x72, 0x41, 0x61]
            && info[488..492] == [0xff, 0xff, 0xff, 0xff] && info[492..496] == [3, 0, 0, 0]
            && info[508..512] == [0x00, 0x00, 0x55, 0xaa]
            && forall i :: 4 <= i < 484 || 496 <= i < 508 ==> info[i] == 0
  {
    hide Zeros;
    assert Le32(0x41615252) == [0x52, 0x52, 0x61, 0x41] && Le32(0x61417272) == [0x72, 0x72, 0x41, 0x61];
    assert Le32(0xffffffff) == [0xff, 0xff, 0xff, 0xff] && Le32(3) == [3, 0, 0, 0];
    assert Le32(0xaa550000) == [0x00, 0x00, 0x55, 0xaa];
  }

  /** The first FAT sector: the media byte in entry 0, end-of-chain in entries 1 and 2, all others free. */
  lemma FatLiterals()
    ensures var fat := FatHead();
            && fat[..12] == [0xf8, 0xff, 0xff, 0x0f, 0xff, 0xff, 0xff, 0x0f, 0xff, 0xff, 0xff, 0x0f]
            && forall i :: 12 <= i < 512 ==> fat[i] == 0
  {
    assert Le32(0x0ffffff8) == [0xf8, 0xff, 0xff, 0x0f] && Le32(0x0fffffff) == [0xff, 0xff, 0xff, 0x0f];
  }

  lemma RootLiterals(volumeLabel: Label)
    ensures var root := RootSector(volumeLabel);
            root[..11] == volumeLabel && root[11] == 8 && forall i :: 12 <= i < 512 ==> root[i] == 0
  {
  }

  // The image.

  /** The j-th sector of the partition. */
  function SectorOf(image: seq<Byte>, l: Layout, j: nat): seq<Byte> {
    Window(image, MetadataStart(l) + j * SECTOR, SECTOR)
  }

  predicate IsInfo(info: seq<Byte>) {
    && |info| == SECTOR && info[0..4] == [0x52, 0x52, 0x61, 0x41] && info[484..488] == [0x72, 0x72, 0x41, 0x61]
    && info[508..512] == [0x00, 0x00, 0x55, 0xaa]
  }

  predicate IsFat(fat: seq<Byte>, media: Byte) {
    && |fat| == SECTOR && fat[0] == media
    && fat[1..12] == [0xff, 0xff, 0x0f, 0xff, 0xff, 0xff, 0x0f, 0xff, 0xff, 0xff, 0x0f]
  }

  predicate IsRoot(root: seq<Byte>, volumeLabel: seq<Byte>) {
    |root| == SECTOR && root[..11] == volumeLabel && root[11] == 8
  }

  // Where a boot sector says its parts are, in sectors of the partition.

  function InfoAt(boot: Sector): nat {
    GetLe16(boot, 48)
  }

  function CopyAt(boot: Sector): nat {
    GetLe16(boot, 50)
  }

  function FatAt(boot: Sector, i: nat): nat {
    GetLe16(boot, 14) + i * GetLe32(boot, 36)
  }

  /** What one finds by following them. */
  ghost predicate PointsRight(image: seq<Byte>, l: Layout, boot: Sector) {
    && SectorOf(image, l, CopyAt(boot)) == boot && IsInfo(SectorOf(image, l, InfoAt(boot)))
    && SectorOf(image, l, CopyAt(boot) + InfoAt(boot)) == SectorOf(image, l, InfoAt(boot))
    && IsFat(SectorOf(image, l, FatAt(boot, 0)), boot[21])
    && SectorOf(image, l, FatAt(boot, 1)) == SectorOf(image, l, FatAt(boot, 0))
    && IsRoot(SectorOf(image, l, FatAt(boot, 2)), boot[71..82])
  }

  lemma PartsAreRight(volumeLabel: Label)
    ensures IsInfo(FsInfoSector()) && IsFat(FatHead(), 0xf8) && IsRoot(RootSector(volumeLabel), volumeLabel)
  {
    hide FsInfoSector, FatHead, RootSector;
    FsInfoLiterals();
    FatLiterals();
    RootLiterals(volumeLabel);
    var fat := FatHead();
    assert fat[0] == fat[..12][0] && fat[1..12] == fat[..12][1..];
  }

  lemma FieldsPoint(boot: Sector, l: Layout, volumeLabel: Label, volumeId: U32)
    requires BootNumbers(boot, l, volumeLabel, volumeId) && l.reservedSectors == 32
    ensures InfoAt(boot) == 1 && CopyAt(boot) == 6 && FatAt(boot, 0) == 32
    ensures FatAt(boot, 1) == 32 + l.sectorsPerFat && FatAt(boot, 2) == 32 + 2 * l.sectorsPerFat
  {
    hide GetLe16, GetLe32;
  }

  lemma LabelInBoot(boot: Sector, l: Layout, volumeLabel: Label, volumeId: U32)
    requires BootNumbers(boot, l, volumeLabel, volumeId)
    ensures boot[71..82] == volumeLabel && boot[16] == l.fatCount
    ensures GetLe32(boot, 28) == l.partitionStartLba && GetLe32(boot, 32) == l.partitionSectors
  {
    hide GetLe16, GetLe32;
  }

  lemma SectorIs(base: seq<Byte>, l: Layout, volumeLabel: Label, volumeId: U32, createMbr: bool, j: nat)
    requires SoundLayout(l) && j < MetadataSectors(l)
    ensures SectorOf(FormattedImage(base, l, volumeLabel, volumeId, createMbr), l, j)
            == MetaSector(l, volumeLabel, volumeId, j)
  {
    hide FormattedImage, MetaSector, Window;
    ImageSector(base, l, volumeLabel, volumeId, createMbr, j);
  }

  /** The one partition entry is of type 0x0c and spans what the boot sector says. */
  predicate Spans(mbr: seq<Byte>, boot: Sector) {
    && |mbr| == SECTOR && mbr[450] == 0x0c && mbr[510] == 0x55 && mbr[511] == 0xaa
    && GetLe32(mbr, 454) == GetLe32(boot, 28) && GetLe32(mbr, 458) == GetLe32(boot, 32)
  }

  /**
   The formatted volume, by its own fields: the boot sector names the FSInfo sector and its own copy, the
   FATs begin where it says with its media byte and two end-of-chain entries, and the root directory
   behind them starts with the volume label; the partition table spans what the boot sector says.
   */
  lemma FormattedFields(base: seq<Byte>, l: Layout, volumeLabel: Label, volumeId: U32, createMbr: bool)
    requires SoundLayout(l) && l.sectorsPerCluster < 256
    ensures var image := FormattedImage(base, l, volumeLabel, volumeId, createMbr);
            && |SectorOf(image, l, 0)| == SECTOR
            && var boot: Sector := SectorOf(image, l, 0);
               && BootNumbers(boot, l, volumeLabel, volumeId) && boot[16] == 2 && PointsRight(image, l, boot)
               && (createMbr ==> Spans(Window(image, 0, SECTOR), boot))
  {
    hide FormattedImage, BootSector, FsInfoSector, FatHead, RootSector, MbrSector, Window, GetLe16, GetLe32, SectorOf,
         InfoAt, CopyAt, FatAt, BootNumbers, IsInfo, IsFat, IsRoot;
    var boot := BootSector(l, volumeLabel, volumeId);
    BootReadsAsWritten(l, volumeLabel, volumeId);
    BootLiterals(l, volumeLabel, volumeId);
    LabelInBoot(boot, l, volumeLabel, volumeId);
    FieldsPoint(boot, l, volumeLabel, volumeId);
    PartsAreRight(volumeLabel);
    SectorIs(base, l, volumeLabel, volumeId, createMbr, 0);
    SectorIs(base, l, volumeLabel, volumeId, createMbr, 1);
    SectorIs(base, l, volumeLabel, volumeId, createMbr, 6);
    SectorIs(base, l, volumeLabel, volumeId, createMbr, 7);
    SectorIs(base, l, volumeLabel, volumeId, createMbr, 32);
    SectorIs(base, l, volumeLabel, volumeId, createMbr, 32 + l.sectorsPerFat);
    SectorIs(base, l, volumeLabel, volumeId, createMbr, 32 + 2 * l.sectorsPerFat);
    if createMbr {
      ImageMbr(base, l, volumeLabel, volumeId);
      MbrLiterals(l);
      var mbr := MbrSector(l);
      assert mbr[450] == mbr[446..454][4];
    }
  }

  // The reader.

  /** Four and two bytes from `at` on, lowest first. */
  function Number(p: seq<Byte>, at: nat, n: nat): nat
    requires at + n <= |p|
    decreases n
  {
    if n == 0 then 0 else p[at] as int + 256 * Number(p, at + 1, n - 1)
  }

  lemma NumbersAre(p: seq<Byte>, at: nat)
    requires at + 4 <= |p|
    ensures GetLe32(p, at) == Number(p, at, 4) && GetLe16(p, at) == Number(p, at, 2)
  {
    assert Number(p, at + 4, 0) == 0;
    assert Number(p, at + 3, 1) == p[at + 3];
    assert Number(p, at + 2, 2) == p[at + 2] as int + 256 * p[at + 3] as int;
    assert Number(p, at + 2, 0) == 0 && Number(p, at + 1, 1) == p[at + 1];
  }

  /** Exactly which boot sectors are taken, in a partition of so many sectors. */
  predicate Acceptable(sectors: nat, boot: Sector) {
    var metadata := (Number(boot, 14, 2) + 2 * Number(boot, 36, 4)) % 0x1_0000_0000;
    && boot[510] == 0x55 && boot[511] == 0xaa && boot[11] == 0 && boot[12] == 2
    && boot[82..90] == [70, 65, 84, 51, 50, 32, 32, 32]
    && boot[13] != 0 && boot[16] == 2 && Number(boot, 14, 2) != 0 && Number(boot, 36, 4) != 0
    && metadata < sectors && 65525 <= (sectors - metadata) / boot[13] < 268435445
  }

  lemma WrappedMetadata(reserved: nat, fat: U32)
    requires reserved < 65536
    ensures Wrap32(reserved + Wrap32(2 * fat)) == (reserved + 2 * fat) % 0x1_0000_0000
  {
  }

  lemma SectorSizeBytes(boot: Sector)
    ensures GetLe16(boot, 11) == 512 <==> boot[11] == 0 && boot[12] == 2
    ensures GetLe16(boot, 14) < 65536
  {
  }

  lemma GoodBootMeans(boot: Sector)
    ensures GoodBoot(boot) <==>
            && boot[510] == 0x55 && boot[511] == 0xaa && boot[11] == 0 && boot[12] == 2
            && boot[82..90] == [70, 65, 84, 51, 50, 32, 32, 32]
  {
    assert Ascii("FAT32   ") == [70, 65, 84, 51, 50, 32, 32, 32];
    SectorSizeBytes(boot);
  }

  /** The reader takes a boot sector exactly when it is acceptable, and returns what its bytes say. */
  lemma BootAcceptedExactly(start: U32, sectors: U32, boot: Sector)
    ensures DecodeBoot(start, sectors, boot).Some? <==> Acceptable(sectors, boot)
    ensures DecodeBoot(start, sectors, boot).Some? ==>
              var (l, volumeLabel) := DecodeBoot(start, sectors, boot).value;
              && l.partitionStartLba == start && l.partitionSectors == sectors && l.sectorsPerCluster == boot[13]
              && l.reservedSectors == Number(boot, 14, 2) && l.sectorsPerFat == Number(boot, 36, 4)
              && l.rootCluster == Number(boot, 44, 4) && l.fatCount == 2 && l.bytesPerSector == 512
              && volumeLabel == boot[71..82]
              && l.dataClusters
                 == (sectors - (Number(boot, 14, 2) + 2 * Number(boot, 36, 4)) % 0x1_0000_0000) / boot[13]
  {
    hide GetLe16, GetLe32, Wrap32, Number, GoodBoot, Ascii;
    GoodBootMeans(boot);
    NumbersAre(boot, 14);
    NumbersAre(boot, 36);
    NumbersAre(boot, 44);
    SectorSizeBytes(boot);
    if boot[16] == 2 {
      WrappedMetadata(GetLe16(boot, 14), GetLe32(boot, 36));
      WrapsInside(sectors, Wrap32(GetLe16(boot, 14) + Wrap32(2 * GetLe32(boot, 36))));
    }
  }

  lemma WrapsInside(sectors: U32, metadata: U32)
    ensures metadata < sectors ==> Wrap32(sectors - metadata) == sectors - metadata
  {
  }

  /**
   Over an unchanging medium that is read without faults, the reader accepts exactly a medium with the
   table's signature and entry type and an acceptable boot sector where the entry points; any other is
   of the wrong format.
   */
  lemma MediumAcceptedExactly(env: Environment, clock: nat, bytes: seq<Byte>, medium: seq<Byte>)
    requires env.inspect(clock).Success? && env.openReadback(clock + 1).Success?
    requires forall t: nat :: t == clock + 2 || t == clock + 3 ==>
               env.readback(t, bytes) == medium && env.transfer(t).Moved? && env.transfer(t).limit >= SECTOR
    ensures VerifyResult(env, clock, bytes).Success? <==>
            && |medium| >= 512 && medium[510] == 0x55 && medium[511] == 0xaa && medium[450] == 0x0c
            && var at := Number(medium, 454, 4) * 512;
               at + 512 <= |medium| && Acceptable(Number(medium, 458, 4), medium[at..at + 512])
    ensures VerifyResult(env, clock, bytes).Failure? ==> VerifyResult(env, clock, bytes).error == FormatFailed
  {
    hide DecodeBoot, Acceptable, GetLe32, Number, SectorAt;
    assert env.readback(clock + 2, bytes) == medium && env.readback(clock + 3, bytes) == medium;
    SectorAtExactly(medium, env.transfer(clock + 2), 0);
    if |medium| >= 512 {
      var mbr := medium[..512];
      NumbersAre(mbr, 454);
      NumbersAre(mbr, 458);
      NumberInPrefix(medium, 512, 454, 4);
      NumberInPrefix(medium, 512, 458, 4);
      var at := Number(mbr, 454, 4) * 512;
      SectorAtExactly(medium, env.transfer(clock + 3), at);
      if at + 512 <= |medium| {
        BootAcceptedExactly(Number(mbr, 454, 4), Number(mbr, 458, 4), medium[at..at + 512]);
      }
    }
  }

  lemma SectorAtExactly(medium: seq<Byte>, transfer: Transfer, at: nat)
    requires transfer.Moved? && transfer.limit >= SECTOR
    ensures SectorAt(medium, transfer, at)
            == if at + 512 <= |medium| then Success(medium[at..at + 512]) else Failure(FormatFailed)
  {
  }

  lemma {:induction false} NumberInPrefix(p: seq<Byte>, k: nat, at: nat, n: nat)
    requires at + n <= k <= |p|
    ensures Number(p[..k], at, n) == Number(p, at, n)
    decreases n
  {
    if n > 0 {
      NumberInPrefix(p, k, at + 1, n - 1);
    }
  }

  // Labels.

  /** What becomes of each character of a label. */
  lemma LabelCharacters(c: Byte)
    ensures LabelChar(c) ==
            if c < 32 || c in {34, 42, 43, 44, 46, 47, 58, 59, 60, 61, 62, 63, 91, 92, 93, 124} then 95
            else if 97 <= c <= 122 then c - 32 else c
  {
    assert Ascii("\"*+,./:;<=>?[\\]|") == [34, 42, 43, 44, 46, 47, 58, 59, 60, 61, 62, 63, 91, 92, 93, 124];
  }

  lemma NoLabel()
    ensures NormalizedLabel([]) == [68, 69, 65, 68, 70, 76, 65, 83, 72, 32, 32]
  {
    hide LabelChar;
    var name := [68, 69, 65, 68, 70, 76, 65, 83, 72];
    assert Ascii("DEADFLASH") == name;
    forall i | 0 <= i < 9
      ensures LabelChar(name[i]) == name[i]
    {
      LabelCharacters(name[i]);
    }
  }

  // The formatter's gate.

  /**
   A format gets as far as its first write exactly when the target it inspects can be laid out and the
   target it finds at the open has the same token, is authorized and opens; and what it then formats is
   laid out for the first and written to the second.
   */
  lemma FormatIsGated(env: Environment, clock: nat, options: FormatOptions)
    ensures var first, second, plan := env.inspect(clock), env.inspect(clock + 1), FormatPlan(env, clock, options);
            && (plan.Success? ==>
                  && first.Success? && second.Success? && env.openTarget(clock + 2) == Ok
                  && Token(second.value) == Token(first.value) && Authorized(second.value, options.gate)
                  && (plan.value.file.device <==> second.value.kind != RegularFile)
                  && plan.value.file.sizeBytes == second.value.sizeBytes
                  && plan.value.size == (if first.value.kind == RegularFile && options.regularFileSize != 0
                                         then options.regularFileSize else first.value.sizeBytes)
                  && LayoutOf(plan.value.size, if options.start == 0 then 2048 else options.start)
                     == Success(plan.value.layout))
            && (first.Success? && second.Success? && env.openTarget(clock + 2) == Ok ==>
                  LayoutOf(TargetSize(first.value, options), if options.start == 0 then 2048 else options.start).Success?
                  && Token(second.value) == Token(first.value) && Authorized(second.value, options.gate) ==>
                    plan.Success?)
  {
    hide LayoutOf, Token, Authorized, OpenDecision;
    if env.inspect(clock).Success? && env.inspect(clock + 1).Success? {
      DecisionMeansAuthorized(env.inspect(clock + 1).value, Token(env.inspect(clock).value), options.gate);
    }
  }
}
