/** The sectors of a FAT32 volume, field by field, and the image a completed format leaves. */
module Fat32Image {
  import opened Bytes
  import opened Device
  import opened Fat32Layout

  const SECTOR := 512

  /** An 11-byte volume label. */
  type Label = l: seq<Byte> | |l| == 11 witness Zeros(11)

  /** A 512-byte sector. */
  type Sector = s: seq<Byte> | |s| == SECTOR witness Zeros(SECTOR)

  function Le16(v: int): (b: seq<Byte>)
    ensures |b| == 2
  {
    [v % 256, v / 256 % 256]
  }

  function Le32(v: int): (b: seq<Byte>)
    ensures |b| == 4
  {
    [v % 256, v / 256 % 256, v / 65536 % 256, v / 16777216 % 256]
  }

  function GetLe16(p: seq<Byte>, at: nat): U32
    requires at + 2 <= |p|
  {
    var b0: int, b1: int := p[at], p[at + 1];
    b0 + b1 * 256
  }

  function GetLe32(p: seq<Byte>, at: nat): U32
    requires at + 4 <= |p|
  {
    var b0: int, b1: int, b2: int, b3: int := p[at], p[at + 1], p[at + 2], p[at + 3];
    b0 + b1 * 256 + b2 * 65536 + b3 * 16777216
  }

  lemma Le32Joins(v: U32)
    ensures v % 256 + (v / 256 % 256) * 256 + (v / 65536 % 256) * 65536 + (v / 16777216 % 256) * 16777216 == v
  {
    var a := v / 256;
    var b := a / 256;
    var c := b / 256;
    assert v / 65536 == b && v / 16777216 == c;
    assert v == 256 * a + v % 256 && a == 256 * b + a % 256 && b == 256 * c + b % 256;
    assert c % 256 == c;
  }

  /** A 32-bit little-endian field reads back as the value stored. */
  lemma Le32RoundTrip(p: seq<Byte>, at: nat, v: U32)
    requires at + 4 <= |p| && p[at..at + 4] == Le32(v)
    ensures GetLe32(p, at) == v
  {
    var q := p[at..at + 4];
    assert p[at] == q[0] && p[at + 1] == q[1] && p[at + 2] == q[2] && p[at + 3] == q[3];
    Le32Joins(v);
  }

  /** A 16-bit little-endian field reads back as the value stored. */
  lemma Le16RoundTrip(p: seq<Byte>, at: nat, v: U32)
    requires v < 65536 && at + 2 <= |p| && p[at..at + 2] == Le16(v)
    ensures GetLe16(p, at) == v
  {
    var q := p[at..at + 2];
    assert p[at] == q[0] && p[at + 1] == q[1];
  }

  // The partition table: one entry of type 0x0c.

  function MbrSector(l: Layout): Sector {
    Zeros(446)
    + [0x00, 0xfe, 0xff, 0xff, 0x0c, 0xfe, 0xff, 0xff]
    + Le32(l.partitionStartLba) + Le32(l.partitionSectors)
    + Zeros(48) + [0x55, 0xaa]
  }

  /** The boot sector, in the field order of the FAT32 specification. */
  function BootSector(l: Layout, volumeLabel: Label, volumeId: U32): Sector {
    BootGeometry(l) + BootIdentity(volumeLabel, volumeId) + Zeros(420) + [0x55, 0xaa]
  }

  /** Bytes 0 to 63: jump, OEM name, BIOS parameter block. */
  function BootGeometry(l: Layout): (b: seq<Byte>)
    ensures |b| == 64
  {
    BootParameters(l) + BootExtents(l) + Zeros(12)
  }

  /** Bytes 0 to 27, of the parameters that all FAT types share. */
  function BootParameters(l: Layout): (b: seq<Byte>)
    ensures |b| == 28
  {
    [0xeb, 0x58, 0x90] + Ascii("DEADBYTE") + Le16(512) + [l.sectorsPerCluster % 256]
    + Le16(l.reservedSectors) + [l.fatCount % 256] + Le16(0) + Le16(0) + [0xf8] + Le16(0) + Le16(63) + Le16(255)
  }

  /** Bytes 28 to 51: where the volume, its FATs and its root directory are. */
  function BootExtents(l: Layout): (b: seq<Byte>)
    ensures |b| == 24
  {
    Le32(l.partitionStartLba) + Le32(l.partitionSectors) + Le32(l.sectorsPerFat) + Le16(0) + Le16(0)
    + Le32(l.rootCluster) + Le16(1) + Le16(6)
  }

  /** Bytes 64 to 89: drive number, signature, volume id, label, file system type. */
  function BootIdentity(volumeLabel: Label, volumeId: U32): (b: seq<Byte>)
    ensures |b| == 26
  {
    [0x80, 0x00, 0x29] + Le32(volumeId) + volumeLabel + Ascii("FAT32   ")
  }

  function FsInfoSector(): Sector {
    Le32(0x41615252) + Zeros(480) + Le32(0x61417272) + Le32(0xffffffff) + Le32(3) + Zeros(12) + Le32(0xaa550000)
  }

  /** The first FAT sector: media descriptor, end-of-chain, and the root cluster's end-of-chain. */
  function FatHead(): Sector {
    Le32(0x0ffffff8) + Le32(0x0fffffff) + Le32(0x0fffffff) + Zeros(500)
  }

  /** The first root directory sector: one volume-label entry. */
  function RootSector(volumeLabel: Label): Sector {
    volumeLabel + [0x08] + Zeros(500)
  }

  /** Sectors of metadata: reserved area, both FATs, the root cluster. */
  function MetadataSectors(l: Layout): nat {
    l.reservedSectors + l.fatCount * l.sectorsPerFat + l.sectorsPerCluster
  }

  /** The k-th metadata sector of the partition. */
  function MetaSector(l: Layout, volumeLabel: Label, volumeId: U32, k: nat): Sector {
    if k == 0 || k == 6 then BootSector(l, volumeLabel, volumeId)
    else if k == 1 || k == 7 then FsInfoSector()
    else if k == l.reservedSectors || k == l.reservedSectors + l.sectorsPerFat then FatHead()
    else if k == l.reservedSectors + 2 * l.sectorsPerFat then RootSector(volumeLabel)
    else Zeros(SECTOR)
  }

  function Metadata(l: Layout, volumeLabel: Label, volumeId: U32): (m: seq<Byte>)
    ensures |m| == MetadataSectors(l) * SECTOR
  {
    seq(MetadataSectors(l) * SECTOR, i requires i >= 0 => MetaSector(l, volumeLabel, volumeId, i / SECTOR)[i % SECTOR])
  }

  /** `base` after a completed format. */
  function FormattedImage(base: seq<Byte>, l: Layout, volumeLabel: Label, volumeId: U32, createMbr: bool): seq<Byte> {
    Overlay(if createMbr then Overlay(base, 0, MbrSector(l)) else base,
            l.partitionStartLba * SECTOR, Metadata(l, volumeLabel, volumeId))
  }

  // Labels.

  predicate Forbidden(c: Byte) {
    c < 0x20 || c in Ascii("\"*+,./:;<=>?[\\]|")
  }

  function ToUpper(c: Byte): Byte {
    if 97 <= c <= 122 then c - 32 else c
  }

  function LabelChar(c: Byte): Byte {
    if Forbidden(c) then 95 else ToUpper(c)
  }

  /** Up to 11 characters, upper-cased, forbidden ones replaced, padded with spaces; empty means DEADFLASH. */
  function NormalizedLabel(input: CText): (volumeLabel: Label)
    ensures forall i :: 0 <= i < 11 ==>
      var text := if input == [] then Ascii("DEADFLASH") else input;
      volumeLabel[i] == if i < |text| then LabelChar(text[i]) else 32
  {
    var text := if input == [] then Ascii("DEADFLASH") else input;
    seq(11, i requires i >= 0 => if i < |text| then LabelChar(text[i]) else 32)
  }

  method NormalizeLabel(input: CText) returns (volumeLabel: Label)
    ensures volumeLabel == NormalizedLabel(input)
  {
    hide LabelChar;
    var output := new Byte[11](_ => 32);
    var text := if input == [] then Ascii("DEADFLASH") else input;
    var i := 0;
    while i < 11 && i < |text|
      invariant 0 <= i <= 11
      invariant forall j :: 0 <= j < 11 ==> output[j] == if j < i && j < |text| then LabelChar(text[j]) else 32
    {
      output[i] := LabelChar(text[i]);
      i := i + 1;
    }
    volumeLabel := output[..];
  }

  /** A normalized label holds no forbidden and no lower-case character, and normalizing it again keeps it. */
  lemma NormalizingIsIdempotent(input: CText)
    ensures var volumeLabel := NormalizedLabel(input);
            && (forall i :: 0 <= i < 11 ==> !Forbidden(volumeLabel[i]) && !(97 <= volumeLabel[i] <= 122))
            && 0 !in volumeLabel && NormalizedLabel(volumeLabel) == volumeLabel
  {
    var volumeLabel := NormalizedLabel(input);
    forall i | 0 <= i < 11
      ensures !Forbidden(volumeLabel[i]) && !(97 <= volumeLabel[i] <= 122)
    {
    }
  }
}
