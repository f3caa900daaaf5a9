/** The reader of a formatted volume, and what formatting then reading returns. */
module Fat32Verify {
  import opened Bytes
  import opened Status
  import opened Io
  import opened Fat32Sizing
  import opened Fat32Layout
  import opened Fat32Image
  import opened Fat32Format

  predicate GoodMbr(mbr: Sector) {
    mbr[510] == 0x55 && mbr[511] == 0xaa && mbr[446 + 4] == 0x0c
  }

  predicate GoodBoot(boot: Sector) {
    boot[510] == 0x55 && boot[511] == 0xaa && GetLe16(boot, 11) == 512 && boot[82..90] == Ascii("FAT32   ")
  }

  /** The volume a partition entry and its boot sector describe; sums wrap at 32 bits. */
  function DecodeBoot(start: U32, sectors: U32, boot: Sector): Option<(Layout, Label)> {
    var perCluster, reserved, fats, fat := boot[13], GetLe16(boot, 14), boot[16], GetLe32(boot, 36);
    var metadata := Wrap32(reserved + Wrap32(fats * fat));
    if !GoodBoot(boot) || perCluster == 0 || reserved < 1 || fats != 2 || fat == 0 || sectors <= metadata then None
    else
      var clusters := Wrap32(sectors - metadata) / perCluster;
      if clusters < MIN_CLUSTERS || clusters >= MAX_CLUSTERS then None
      else Some((Layout(512, perCluster, reserved, fats, fat, start, sectors, clusters, GetLe32(boot, 44)),
                 boot[71..82]))
  }

  /** Reads a whole sector; a short read has no sector. */
  function SectorAt(content: seq<Byte>, transfer: Transfer, offset: nat): Result<Sector> {
    match ReadResult(content, transfer, SECTOR, offset)
    case Failure(e) => Failure(e)
    case Success(data) => if |data| == SECTOR then Success(data) else Failure(FormatFailed)
  }

  /** Inspection, open, partition table and boot sector at four consecutive ticks. */
  function VerifyResult(env: Environment, clock: nat, bytes: seq<Byte>): Result<(Layout, Label)> {
    if env.inspect(clock).Failure? then Failure(env.inspect(clock).error)
    else if env.openReadback(clock + 1).Failure? then Failure(env.openReadback(clock + 1).error)
    else
      match SectorAt(env.readback(clock + 2, bytes), env.transfer(clock + 2), 0)
      case Failure(e) => Failure(e)
      case Success(mbr) =>
        if !GoodMbr(mbr) then Failure(FormatFailed)
        else
          var start, sectors := GetLe32(mbr, 446 + 8), GetLe32(mbr, 446 + 12);
          match SectorAt(env.readback(clock + 3, bytes), env.transfer(clock + 3), start * SECTOR)
          case Failure(e) => Failure(e)
          case Success(boot) =>
            match DecodeBoot(start, sectors, boot)
            case None => Failure(FormatFailed)
            case Some(volume) => Success(volume)
  }

  method ReadSector(w: World, offset: nat) returns (r: Result<Sector>)
    modifies w
    ensures r == SectorAt(w.env.readback(old(w.clock), w.bytes), w.env.transfer(old(w.clock)), offset)
    ensures w.View() == old(w.View()).(clock := old(w.clock) + 1)
  {
    var data := w.ReadBack(SECTOR, offset);
    if data.Failure? {
      return Failure(data.error);
    }
    if |data.value| != SECTOR {
      return Failure(FormatFailed);
    }
    r := Success(data.value);
  }

  /** Reads the volume back; the medium is not touched. */
  method VerifyFat32(w: World) returns (r: Result<(Layout, Label)>)
    modifies w
    ensures r == VerifyResult(w.env, old(w.clock), old(w.bytes))
    ensures w.bytes == old(w.bytes) && w.mutations == old(w.mutations)
  {
    hide DecodeBoot, SectorAt;
    var now := w.Tick();
    if w.env.inspect(now).Failure? {
      return Failure(w.env.inspect(now).error);
    }
    now := w.Tick();
    if w.env.openReadback(now).Failure? {
      return Failure(w.env.openReadback(now).error);
    }
    var mbr := ReadSector(w, 0);
    if mbr.Failure? {
      return Failure(mbr.error);
    }
    if !GoodMbr(mbr.value) {
      return Failure(FormatFailed);
    }
    var start, sectors := GetLe32(mbr.value, 446 + 8), GetLe32(mbr.value, 446 + 12);
    var boot := ReadSector(w, start * SECTOR);
    if boot.Failure? {
      return Failure(boot.error);
    }
    var volume := DecodeBoot(start, sectors, boot.value);
    r := if volume.None? then Failure(FormatFailed) else Success(volume.value);
  }

  lemma MbrReadsBack(l: Layout)
    ensures var mbr := MbrSector(l);
            GoodMbr(mbr) && GetLe32(mbr, 446 + 8) == l.partitionStartLba && GetLe32(mbr, 446 + 12) == l.partitionSectors
  {
    var mbr := MbrSector(l);
    assert mbr[454..458] == Le32(l.partitionStartLba) && mbr[458..462] == Le32(l.partitionSectors);
    Le32RoundTrip(mbr, 454, l.partitionStartLba);
    Le32RoundTrip(mbr, 458, l.partitionSectors);
  }

  /** Where each field of the boot sector lies. */
  lemma BootFields(l: Layout, volumeLabel: Label, volumeId: U32)
    requires l.sectorsPerCluster < 256 && l.fatCount < 256
    ensures var boot := BootSector(l, volumeLabel, volumeId);
            && boot[13] == l.sectorsPerCluster && boot[16] == l.fatCount
            && boot[11..13] == Le16(512) && boot[14..16] == Le16(l.reservedSectors)
            && boot[36..40] == Le32(l.sectorsPerFat) && boot[44..48] == Le32(l.rootCluster)
            && boot[71..82] == volumeLabel && boot[82..90] == Ascii("FAT32   ")
            && boot[510] == 0x55 && boot[511] == 0xaa
  {
    hide Le32, Le16, Ascii;
    var boot, geometry := BootSector(l, volumeLabel, volumeId), BootGeometry(l);
    assert boot[..64] == geometry;
    assert geometry[11..13] == Le16(512) && geometry[14..16] == Le16(l.reservedSectors);
    assert geometry[36..40] == Le32(l.sectorsPerFat) && geometry[44..48] == Le32(l.rootCluster);
    assert boot[11..13] == geometry[11..13] && boot[14..16] == geometry[14..16];
    assert boot[36..40] == geometry[36..40] && boot[44..48] == geometry[44..48];
  }

  lemma BootFieldsReadBack(l: Layout, volumeLabel: Label, volumeId: U32)
    requires l.sectorsPerCluster < 256 && l.fatCount < 256 && l.reservedSectors < 65536
    ensures var boot := BootSector(l, volumeLabel, volumeId);
            && GoodBoot(boot) && boot[13] == l.sectorsPerCluster && boot[16] == l.fatCount
            && GetLe16(boot, 14) == l.reservedSectors && GetLe32(boot, 36) == l.sectorsPerFat
            && GetLe32(boot, 44) == l.rootCluster && boot[71..82] == volumeLabel
  {
    hide BootSector, Ascii;
    var boot := BootSector(l, volumeLabel, volumeId);
    BootFields(l, volumeLabel, volumeId);
    Le16RoundTrip(boot, 11, 512);
    Le16RoundTrip(boot, 14, l.reservedSectors);
    Le32RoundTrip(boot, 36, l.sectorsPerFat);
    Le32RoundTrip(boot, 44, l.rootCluster);
  }

  /** What acceptance by the reader means for any boot sector: the volume fits its partition unless the sum wraps. */
  lemma AcceptedFitsExactly(start: U32, sectors: U32, boot: Sector)
    requires DecodeBoot(start, sectors, boot).Some?
    ensures var l := DecodeBoot(start, sectors, boot).value.0;
            && 0 < l.sectorsPerCluster && l.fatCount == 2 && MIN_CLUSTERS <= l.dataClusters < MAX_CLUSTERS
            && (l.reservedSectors + 2 * l.sectorsPerFat + l.dataClusters * l.sectorsPerCluster <= sectors <==>
                l.reservedSectors + 2 * l.sectorsPerFat <= U32_MAX)
  {
    hide GoodBoot, GetLe16, GetLe32;
    var l := DecodeBoot(start, sectors, boot).value.0;
    NoWrap(2 * l.sectorsPerFat);
    NoWrap(l.reservedSectors + 2 * l.sectorsPerFat);
    var metadata := Wrap32(l.reservedSectors + Wrap32(2 * l.sectorsPerFat));
    NoWrap(sectors - metadata);
    QuotientFits(sectors - metadata, l.sectorsPerCluster);
  }

  lemma QuotientFits(x: nat, d: nat)
    requires 0 < d
    ensures 0 <= (x / d) * d <= x
  {
  }

  /** One that does not fit: two FATs of 2^31 sectors in a partition of 131072. */
  lemma OversizedFatsAccepted(volumeLabel: Label, volumeId: U32)
    ensures var boot := BootSector(Layout(512, 1, 32, 2, 0x8000_0000, 2048, 131072, 131040, 2), volumeLabel, volumeId);
            && DecodeBoot(2048, 131072, boot).Some?
            && DecodeBoot(2048, 131072, boot).value.0.sectorsPerFat == 0x8000_0000
  {
    hide BootSector, GoodBoot, GetLe16, GetLe32;
    BootFieldsReadBack(Layout(512, 1, 32, 2, 0x8000_0000, 2048, 131072, 131040, 2), volumeLabel, volumeId);
    assert Wrap32(2 * 0x8000_0000) == 0;
  }

  lemma LayoutFields(size: U64, start: U32)
    requires LayoutOf(size, start).Success?
    ensures var l := LayoutOf(size, start).value;
            && l.bytesPerSector == 512 && l.reservedSectors == 32 && l.fatCount == 2 && l.rootCluster == 2
            && l.partitionStartLba == start && 1 <= l.sectorsPerFat
  {
    hide Iterate;
    RecordedLayoutFits(size, start);
  }

  /** The boot sector of a computed layout decodes to that layout with the derived cluster count. */
  lemma BootReadsBack(size: U64, start: U32, volumeLabel: Label, volumeId: U32)
    requires LayoutOf(size, start).Success?
    ensures var l := LayoutOf(size, start).value;
            DecodeBoot(start, l.partitionSectors, BootSector(l, volumeLabel, volumeId))
            == Some((DerivedLayout(l), volumeLabel))
  {
    hide LayoutOf, BootSector, GoodBoot, GetLe16, GetLe32, Wrap32, NextFat, Fixpoint, TwoCycle;
    var l := LayoutOf(size, start).value;
    LayoutFields(size, start);
    BootFieldsReadBack(l, volumeLabel, volumeId);
    FixpointOrTwoCycle(size, start);
    RecordedLayoutFits(size, start);
    NoWrap(2 * l.sectorsPerFat);
    NoWrap(32 + 2 * l.sectorsPerFat);
    NoWrap(l.partitionSectors - 32 - 2 * l.sectorsPerFat);
    NoWrap(DerivedClusters(l));
  }

  /** The j-th byte of the k-th metadata sector. */
  lemma MetadataByte(l: Layout, volumeLabel: Label, volumeId: U32, k: nat, j: nat)
    requires k < MetadataSectors(l) && j < SECTOR
    ensures k * SECTOR + j < MetadataSectors(l) * SECTOR
    ensures Metadata(l, volumeLabel, volumeId)[k * SECTOR + j] == MetaSector(l, volumeLabel, volumeId, k)[j]
  {
    hide MetaSector, MetadataSectors;
    assert (k * SECTOR + j) / SECTOR == k && (k * SECTOR + j) % SECTOR == j;
  }

  lemma MetadataWindow(l: Layout, volumeLabel: Label, volumeId: U32, k: nat)
    requires k < MetadataSectors(l)
    ensures k * SECTOR + SECTOR <= MetadataSectors(l) * SECTOR
    ensures Window(Metadata(l, volumeLabel, volumeId), k * SECTOR, SECTOR) == MetaSector(l, volumeLabel, volumeId, k)
  {
    hide MetaSector, Metadata, MetadataSectors;
    var meta := Metadata(l, volumeLabel, volumeId);
    MetadataByte(l, volumeLabel, volumeId, k, SECTOR - 1);
    forall j | 0 <= j < SECTOR
      ensures Window(meta, k * SECTOR, SECTOR)[j] == MetaSector(l, volumeLabel, volumeId, k)[j]
    {
      MetadataByte(l, volumeLabel, volumeId, k, j);
    }
  }

  lemma OverlayWindow(base: seq<Byte>, start: nat, data: seq<Byte>, at: nat, n: nat)
    requires at + n <= |data|
    ensures Window(Overlay(base, start, data), start + at, n) == Window(data, at, n)
  {
  }

  /** The k-th metadata sector of a formatted image. */
  lemma ImageSector(base: seq<Byte>, l: Layout, volumeLabel: Label, volumeId: U32, createMbr: bool, k: nat)
    requires SoundLayout(l) && k < MetadataSectors(l)
    ensures Window(FormattedImage(base, l, volumeLabel, volumeId, createMbr), MetadataStart(l) + k * SECTOR, SECTOR)
            == MetaSector(l, volumeLabel, volumeId, k)
  {
    hide MetaSector, MbrSector, Metadata, MetadataSectors, Window, Overlay;
    MetadataWindow(l, volumeLabel, volumeId, k);
    OverlayWindow(if createMbr then Overlay(base, 0, MbrSector(l)) else base, MetadataStart(l),
                  Metadata(l, volumeLabel, volumeId), k * SECTOR, SECTOR);
  }

  lemma ImageMbr(base: seq<Byte>, l: Layout, volumeLabel: Label, volumeId: U32)
    requires SoundLayout(l)
    ensures Window(FormattedImage(base, l, volumeLabel, volumeId, true), 0, SECTOR) == MbrSector(l)
  {
    hide Metadata, MbrSector;
  }

  /**
   Format then verify: over an honest medium the reader accepts every completed format and returns
   its start, size, cluster size, reserved area, FAT size, root cluster and label. The cluster count
   it returns is the recorded one exactly when sizing reached a fixpoint.
   */
  lemma FormatThenVerify(env: Environment, clock: nat, base: seq<Byte>, size: U64, start: U32,
                         volumeLabel: Label, volumeId: U32)
    requires start > 0 && LayoutOf(size, start).Success?
    requires env.inspect(clock).Success? && env.openReadback(clock + 1).Success?
    requires var image := FormattedImage(base, LayoutOf(size, start).value, volumeLabel, volumeId, true);
             forall t :: t == clock + 2 || t == clock + 3 ==>
               env.readback(t, image) == image && env.transfer(t).Moved? && env.transfer(t).limit >= SECTOR
    ensures var l := LayoutOf(size, start).value;
            var r := VerifyResult(env, clock, FormattedImage(base, l, volumeLabel, volumeId, true));
            && r == Success((DerivedLayout(l), volumeLabel))
            && (r == Success((l, volumeLabel)) <==> Fixpoint(l.partitionSectors, l.sectorsPerCluster, l.sectorsPerFat))
  {
    hide Iterate, BootSector, MbrSector, FormattedImage, DecodeBoot, GoodBoot;
    var l := LayoutOf(size, start).value;
    LayoutSane(size, start);
    ImageMbr(base, l, volumeLabel, volumeId);
    ImageSector(base, l, volumeLabel, volumeId, true, 0);
    MbrReadsBack(l);
    BootReadsBack(size, start, volumeLabel, volumeId);
    FixpointOrTwoCycle(size, start);
  }

  /** The medium reads back as written, sector by sector, and the target opens; writes may still fail. */
  ghost predicate Honest(env: Environment) {
    forall t: nat ::
      && env.inspect(t).Success? && env.openReadback(t).Success?
      && env.transfer(t).Moved? && env.transfer(t).limit >= SECTOR
      && forall bytes :: env.readback(t, bytes) == bytes
  }

  /** The reader's answer to a format: every field, the label, and the recorded count exactly in a fixpoint. */
  ghost predicate ReadsBack(l: Layout, volumeLabel: Label, read: Result<(Layout, Label)>) {
    && ClusterClass(l.sectorsPerCluster) && read == Success((DerivedLayout(l), volumeLabel))
    && (read == Success((l, volumeLabel)) <==> Fixpoint(l.partitionSectors, l.sectorsPerCluster, l.sectorsPerFat))
  }

  /** Formats, and reads the volume back when that completed. */
  method FormatAndVerify(w: World, options: FormatOptions, volumeId: U32)
    returns (formatted: Result<Layout>, read: Result<(Layout, Label)>)
    requires Honest(w.env) && options.createMbr
    modifies w
    ensures formatted.Success? ==> ReadsBack(formatted.value, NormalizedLabel(options.volumeLabel), read)
    ensures formatted.Failure? ==> read == Failure(formatted.error)
  {
    hide FormatPlan, LayoutOf, FormattedImage, VerifyResult, NormalizedLabel, DerivedLayout, PartitionStart;
    var planned := w.clock;
    ghost var before := w.bytes;
    formatted := FormatFat32(w, options, volumeId);
    if formatted.Failure? {
      return formatted, Failure(formatted.error);
    }
    ghost var plan, clock := FormatPlan(w.env, planned, options).value, w.clock;
    PlannedLayout(w.env, planned, options);
    StartIsPositive(options.start);
    assert w.env.inspect(clock).Success? && w.env.openReadback(clock + 1).Success?;
    forall t | t == clock + 2 || t == clock + 3
      ensures w.env.readback(t, w.bytes) == w.bytes && w.env.transfer(t).Moved? && w.env.transfer(t).limit >= SECTOR
    {
      assert w.env.inspect(t).Success?;
    }
    FormatThenVerify(w.env, clock, PlannedBase(plan, before), plan.size, PartitionStart(Some(options.start)),
                     NormalizedLabel(options.volumeLabel), volumeId);
    read := VerifyFat32(w);
  }

  lemma StartIsPositive(start: U32)
    ensures PartitionStart(Some(start)) > 0
  {
  }

  /**
   The structure on the medium: boot sector and FSInfo equal their backups, the two FATs are equal
   and all zero past their first sector, and that sector holds entries 0 to 2 only.
   */
  lemma FormattedStructure(base: seq<Byte>, l: Layout, volumeLabel: Label, volumeId: U32, createMbr: bool, k: nat)
    requires SoundLayout(l) && k < l.sectorsPerFat
    ensures var image := FormattedImage(base, l, volumeLabel, volumeId, createMbr);
            var sector := (j: nat) => Window(image, MetadataStart(l) + j * SECTOR, SECTOR);
            && sector(0) == sector(6) && sector(1) == sector(7)
            && sector(32 + k) == sector(32 + l.sectorsPerFat + k)
            && (k > 0 ==> sector(32 + k) == Zeros(SECTOR))
            && sector(32)[12..] == Zeros(500)
            && sector(32 + 2 * l.sectorsPerFat)[..11] == volumeLabel
  {
    hide FormattedImage, BootSector, FsInfoSector, Le32;
    ImageSector(base, l, volumeLabel, volumeId, createMbr, 0);
    ImageSector(base, l, volumeLabel, volumeId, createMbr, 6);
    ImageSector(base, l, volumeLabel, volumeId, createMbr, 1);
    ImageSector(base, l, volumeLabel, volumeId, createMbr, 7);
    ImageSector(base, l, volumeLabel, volumeId, createMbr, 32);
    ImageSector(base, l, volumeLabel, volumeId, createMbr, 32 + k);
    ImageSector(base, l, volumeLabel, volumeId, createMbr, 32 + l.sectorsPerFat + k);
    ImageSector(base, l, volumeLabel, volumeId, createMbr, 32 + 2 * l.sectorsPerFat);
  }
}
