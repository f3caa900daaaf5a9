/** The sector builders and the formatter, writing through a medium that may fail at any write. */
module Fat32Format {
  import opened Bytes
  import opened Status
  import opened Device
  import opened Io
  import opened Targets
  import opened Fat32Sizing
  import opened Fat32Layout
  import opened Fat32Image

  /** The sector holds `done`, the rest is still zero. */
  ghost predicate Built(sector: array<Byte>, done: seq<Byte>)
    reads sector
  {
    sector.Length == SECTOR && |done| <= SECTOR && sector[..] == done + Zeros(SECTOR - |done|)
  }

  method Clear(sector: array<Byte>)
    requires sector.Length == SECTOR
    modifies sector
    ensures Built(sector, [])
  {
    forall i | 0 <= i < SECTOR {
      sector[i] := 0;
    }
  }

  /** Stores one field at its offset; offsets only move forward. */
  method Put(sector: array<Byte>, at: nat, field: seq<Byte>, ghost before: seq<Byte>) returns (ghost done: seq<Byte>)
    requires Built(sector, before) && |before| <= at && at + |field| <= SECTOR
    modifies sector
    ensures done == (if at == |before| then before else before + Zeros(at - |before|)) + field
    ensures Built(sector, done)
  {
    forall i | 0 <= i < |field| {
      sector[at + i] := field[i];
    }
    done := (if at == |before| then before else before + Zeros(at - |before|)) + field;
    assert sector[..] == done + Zeros(SECTOR - |done|);
  }

  method BuildMbr(sector: array<Byte>, l: Layout)
    requires sector.Length == SECTOR
    modifies sector
    ensures sector[..] == MbrSector(l)
  {
    hide Built, Le32;
    Clear(sector);
    ghost var done := Put(sector, 446, [0x00, 0xfe, 0xff, 0xff, 0x0c, 0xfe, 0xff, 0xff], []);
    done := Put(sector, 454, Le32(l.partitionStartLba), done);
    done := Put(sector, 458, Le32(l.partitionSectors), done);
    done := Put(sector, 510, [0x55, 0xaa], done);
    Full(sector, done);
  }

  lemma Full(sector: array<Byte>, done: seq<Byte>)
    requires Built(sector, done) && |done| == SECTOR
    ensures sector[..] == done
  {
  }

  method PutParameters(sector: array<Byte>, l: Layout) returns (ghost done: seq<Byte>)
    requires Built(sector, [])
    modifies sector
    ensures done == BootParameters(l) && Built(sector, done)
  {
    hide Built, Le32, Le16, Ascii;
    done := Put(sector, 0, [0xeb, 0x58, 0x90], []);
    done := Put(sector, 3, Ascii("DEADBYTE"), done);
    done := Put(sector, 11, Le16(512), done);
    done := Put(sector, 13, [l.sectorsPerCluster % 256], done);
    done := Put(sector, 14, Le16(l.reservedSectors), done);
    done := Put(sector, 16, [l.fatCount % 256], done);
    done := Put(sector, 17, Le16(0), done);
    done := Put(sector, 19, Le16(0), done);
    done := Put(sector, 21, [0xf8], done);
    done := Put(sector, 22, Le16(0), done);
    done := Put(sector, 24, Le16(63), done);
    done := Put(sector, 26, Le16(255), done);
  }

  method PutExtents(sector: array<Byte>, l: Layout, ghost before: seq<Byte>) returns (ghost done: seq<Byte>)
    requires Built(sector, before) && |before| == 28
    modifies sector
    ensures done == before + BootExtents(l) && Built(sector, done)
  {
    hide Built, Le32, Le16;
    done := Put(sector, 28, Le32(l.partitionStartLba), before);
    done := Put(sector, 32, Le32(l.partitionSectors), done);
    done := Put(sector, 36, Le32(l.sectorsPerFat), done);
    done := Put(sector, 40, Le16(0), done);
    done := Put(sector, 42, Le16(0), done);
    done := Put(sector, 44, Le32(l.rootCluster), done);
    done := Put(sector, 48, Le16(1), done);
    done := Put(sector, 50, Le16(6), done);
  }

  method BuildBootSector(sector: array<Byte>, l: Layout, volumeLabel: Label, volumeId: U32)
    requires sector.Length == SECTOR
    modifies sector
    ensures sector[..] == BootSector(l, volumeLabel, volumeId)
  {
    hide Built, Le32, BootParameters, BootExtents, Ascii;
    Clear(sector);
    ghost var done := PutParameters(sector, l);
    done := PutExtents(sector, l, done);
    done := Put(sector, 64, [0x80], done);
    done := Put(sector, 66, [0x29], done);
    done := Put(sector, 67, Le32(volumeId), done);
    done := Put(sector, 71, volumeLabel, done);
    done := Put(sector, 82, Ascii("FAT32   "), done);
    done := Put(sector, 510, [0x55, 0xaa], done);
    Full(sector, done);
  }

  method BuildFsInfo(sector: array<Byte>)
    requires sector.Length == SECTOR
    modifies sector
    ensures sector[..] == FsInfoSector()
  {
    hide Built, Le32, Zeros;
    Clear(sector);
    ghost var done := Put(sector, 0, Le32(0x41615252), []);
    assert |done| == 4;
    done := Put(sector, 484, Le32(0x61417272), done);
    assert |done| == 488;
    done := Put(sector, 488, Le32(0xffffffff), done);
    assert |done| == 492;
    done := Put(sector, 492, Le32(3), done);
    assert |done| == 496;
    done := Put(sector, 508, Le32(0xaa550000), done);
    assert |done| == SECTOR;
    Full(sector, done);
  }

  method BuildFatHead(sector: array<Byte>)
    requires sector.Length == SECTOR
    modifies sector
    ensures sector[..] == FatHead()
  {
    hide Le32;
    Clear(sector);
    ghost var done := Put(sector, 0, Le32(0x0ffffff8), []);
    done := Put(sector, 4, Le32(0x0fffffff), done);
    done := Put(sector, 8, Le32(0x0fffffff), done);
  }

  method BuildRootSector(sector: array<Byte>, volumeLabel: Label)
    requires sector.Length == SECTOR
    modifies sector
    ensures sector[..] == RootSector(volumeLabel)
  {
    Clear(sector);
    ghost var done := Put(sector, 0, volumeLabel, []);
    done := Put(sector, 11, [0x08], done);
  }

  datatype FormatOptions = FormatOptions(
    volumeLabel: CText,
    start: U32,
    createMbr: bool,
    regularFileSize: U64,
    gate: WriteOptions)

  /** What is settled before the first byte is written. */
  datatype Plan = Plan(layout: Layout, file: OpenFile, size: U64)

  function TargetSize(info: TargetInfo, options: FormatOptions): U64 {
    if info.kind == RegularFile && options.regularFileSize != 0 then options.regularFileSize else info.sizeBytes
  }

  /** Inspection, layout and gated open, in the order the formatter makes them. */
  function FormatPlan(env: Environment, clock: nat, options: FormatOptions): Result<Plan> {
    match env.inspect(clock)
    case Failure(e) => Failure(e)
    case Success(info) =>
      var size := TargetSize(info, options);
      match LayoutOf(size, PartitionStart(Some(options.start)))
      case Failure(e) => Failure(e)
      case Success(layout) =>
        match OpenResult(env, clock + 1, Token(info), options.gate)
        case Failure(e) => Failure(e)
        case Success(file) => Success(Plan(layout, file, size))
  }

  /** A regular file of another size is resized first. */
  function PlannedBase(plan: Plan, bytes: seq<Byte>): seq<Byte> {
    if !plan.file.device && plan.file.sizeBytes != plan.size then Resized(bytes, plan.size) else bytes
  }

  /** From tick `clock` on, memory, resize and flush succeed and transfers are complete. */
  ghost predicate Quiet(env: Environment, clock: nat) {
    forall t :: t >= clock ==>
      env.memory(t) && env.resize(t) == Ok && env.flush(t) == Ok
      && env.transfer(t).Moved? && env.transfer(t).limit >= 0x1_0000_0000
  }

  function MetadataStart(l: Layout): nat {
    l.partitionStartLba * SECTOR
  }

  /** The shape every computed layout has. */
  predicate SoundLayout(l: Layout) {
    && l.reservedSectors == 32 && l.fatCount == 2
    && 1 <= l.sectorsPerFat && 1 <= l.sectorsPerCluster && 1 <= l.partitionStartLba
  }

  function MetadataEnd(l: Layout): nat {
    MetadataStart(l) + MetadataSectors(l) * SECTOR
  }

  /** Only sector 0 (with a partition table) and the metadata extent may differ. */
  ghost predicate FormatFrame(before: seq<Byte>, after: seq<Byte>, l: Layout, createMbr: bool) {
    && |before| <= |after| <= Max(|before|, MetadataEnd(l))
    && forall i :: 0 <= i < |before| && !(createMbr && i < SECTOR) && !(MetadataStart(l) <= i < MetadataEnd(l)) ==>
         after[i] == before[i]
  }

  method WriteExact(w: World, device: bool, data: seq<Byte>, offset: nat) returns (status: Status)
    modifies w
    ensures status == Ok ==> w.bytes == Overlay(old(w.bytes), offset, data)
    ensures status != Ok ==> ChangedOnlyIn(old(w.bytes), w.bytes, offset, offset + |data|)
    ensures status == Ok || status == IoFailed
    ensures w.clock == old(w.clock) + 1
    ensures w.env.transfer(old(w.clock)).Fault? ==> status == IoFailed
    ensures Quiet(w.env, old(w.clock)) && |data| < 0x1_0000_0000 && (device ==> offset + |data| <= |old(w.bytes)|) ==>
              status == Ok
  {
    var written: nat;
    status, written := w.WriteAt(device, data, offset);
    if status == Ok && written != |data| {
      status := IoFailed;
    }
    assert data[..|data|] == data;
  }

  lemma ZeroRuns(base: seq<Byte>, offset: nat, n: nat, more: nat)
    ensures Overlay(Overlay(base, offset, Zeros(n)), offset + n, Zeros(more)) == Overlay(base, offset, Zeros(n + more))
  {
  }

  /** Zeroes an extent in chunks of one mebibyte. */
  method ZeroRegion(w: World, device: bool, offset: nat, length: nat) returns (status: Status)
    modifies w
    ensures status == Ok ==> w.bytes == Overlay(old(w.bytes), offset, Zeros(length))
    ensures status != Ok ==> ChangedOnlyIn(old(w.bytes), w.bytes, offset, offset + length)
    ensures status == Ok || status == IoFailed || (status == NoMemory && !w.env.memory(old(w.clock)))
    ensures w.clock >= old(w.clock)
    ensures length > 0 && (forall t: nat :: w.env.transfer(t).Fault?) ==> status != Ok
    ensures Quiet(w.env, old(w.clock)) && (device ==> offset + length <= |old(w.bytes)|) ==> status == Ok
  {
    var chunkSize := 1024 * 1024;
    var ok := w.Allocate();
    if !ok {
      return NoMemory;
    }
    var done := 0;
    status := Ok;
    while done < length
      invariant 0 <= done <= length && w.clock > old(w.clock)
      invariant w.bytes == Overlay(old(w.bytes), offset, Zeros(done))
      invariant done > 0 ==> exists t: nat :: !w.env.transfer(t).Fault?
    {
      var chunk := Min(length - done, chunkSize);
      status := WriteExact(w, device, Zeros(chunk), offset + done);
      if status != Ok {
        return;
      }
      ZeroRuns(old(w.bytes), offset, done, chunk);
      done := done + chunk;
    }
    status := Ok;
  }

  /** A write inside an extent already laid over the medium lands in that extent. */
  lemma OverlayInside(base: seq<Byte>, start: nat, extent: seq<Byte>, at: nat, data: seq<Byte>)
    requires at + |data| <= |extent|
    ensures Overlay(Overlay(base, start, extent), start + at, data) == Overlay(base, start, Overlay(extent, at, data))
  {
  }

  /** The partition table and the partition do not overlap, so their writes commute. */
  lemma OverlaysCommute(base: seq<Byte>, start: nat, extent: seq<Byte>, data: seq<Byte>)
    requires |data| <= start
    ensures Overlay(Overlay(base, start, extent), 0, data) == Overlay(Overlay(base, 0, data), start, extent)
  {
  }

  lemma InsideExtent(base: seq<Byte>, start: nat, extent: seq<Byte>, after: seq<Byte>, at: nat, n: nat)
    requires at + n <= |extent|
    requires ChangedOnlyIn(Overlay(base, start, extent), after, start + at, start + at + n)
    ensures ChangedOnlyIn(base, after, start, start + |extent|)
  {
  }

  /** Writes one metadata sector at sector number k of the partition. */
  method WriteMeta(w: World, device: bool, sector: array<Byte>, k: nat,
                   ghost base: seq<Byte>, start: nat, ghost extent: seq<Byte>)
    returns (status: Status, ghost grown: seq<Byte>)
    requires sector.Length == SECTOR && (k + 1) * SECTOR <= |extent|
    requires w.bytes == Overlay(base, start, extent)
    modifies w
    ensures status == Ok || status == IoFailed
    ensures w.clock >= old(w.clock)
    ensures grown == Overlay(extent, k * SECTOR, sector[..]) && |grown| == |extent|
    ensures status == Ok ==> w.bytes == Overlay(base, start, grown)
    ensures status != Ok ==> ChangedOnlyIn(base, w.bytes, start, start + |extent|)
    ensures Quiet(w.env, old(w.clock)) && (device ==> start + |extent| <= |base|) ==> status == Ok
  {
    grown := Overlay(extent, k * SECTOR, sector[..]);
    status := WriteExact(w, device, sector[..], start + k * SECTOR);
    if status == Ok {
      OverlayInside(base, start, extent, k * SECTOR, sector[..]);
    } else {
      InsideExtent(base, start, extent, w.bytes, k * SECTOR, SECTOR);
    }
  }

  /** The seven sectors written over zeros are the metadata: none of them overlaps another. */
  lemma MetadataAssembled(l: Layout, volumeLabel: Label, volumeId: U32)
    requires SoundLayout(l)
    ensures var boot, info := BootSector(l, volumeLabel, volumeId), FsInfoSector();
            var m0 := Zeros(MetadataSectors(l) * SECTOR);
            var m1 := Overlay(Overlay(m0, 0, boot), 6 * SECTOR, boot);
            var m2 := Overlay(Overlay(m1, 1 * SECTOR, info), 7 * SECTOR, info);
            var m3 := Overlay(Overlay(m2, 32 * SECTOR, FatHead()), (32 + l.sectorsPerFat) * SECTOR, FatHead());
            Overlay(m3, (32 + 2 * l.sectorsPerFat) * SECTOR, RootSector(volumeLabel))
            == Metadata(l, volumeLabel, volumeId)
  {
    hide BootSector, FsInfoSector, FatHead, RootSector;
  }

  /** Writes one sector and its copy. */
  method WriteTwice(w: World, device: bool, sector: array<Byte>, k: nat, copy: nat,
                    ghost base: seq<Byte>, start: nat, ghost extent: seq<Byte>)
    returns (status: Status, ghost grown: seq<Byte>)
    requires sector.Length == SECTOR && (k + 1) * SECTOR <= |extent| && (copy + 1) * SECTOR <= |extent|
    requires w.bytes == Overlay(base, start, extent)
    modifies w
    ensures status == Ok || status == IoFailed
    ensures w.clock >= old(w.clock)
    ensures grown == Overlay(Overlay(extent, k * SECTOR, sector[..]), copy * SECTOR, sector[..])
    ensures |grown| == |extent|
    ensures status == Ok ==> w.bytes == Overlay(base, start, grown)
    ensures status != Ok ==> ChangedOnlyIn(base, w.bytes, start, start + |extent|)
    ensures Quiet(w.env, old(w.clock)) && (device ==> start + |extent| <= |base|) ==> status == Ok
  {
    hide Overlay, ChangedOnlyIn;
    grown := Overlay(Overlay(extent, k * SECTOR, sector[..]), copy * SECTOR, sector[..]);
    ghost var half;
    status, half := WriteMeta(w, device, sector, k, base, start, extent);
    if status == Ok {
      status, half := WriteMeta(w, device, sector, copy, base, start, half);
    }
  }

  /** The metadata writes after zeroing and the partition table, in the order of the source. */
  method WriteMetadata(w: World, device: bool, l: Layout, volumeLabel: Label, volumeId: U32, ghost base: seq<Byte>)
    returns (status: Status)
    requires SoundLayout(l)
    requires w.bytes == Overlay(base, MetadataStart(l), Zeros(MetadataSectors(l) * SECTOR))
    modifies w
    ensures status == Ok || status == IoFailed
    ensures w.clock >= old(w.clock)
    ensures status == Ok ==> w.bytes == Overlay(base, MetadataStart(l), Metadata(l, volumeLabel, volumeId))
    ensures status != Ok ==> ChangedOnlyIn(base, w.bytes, MetadataStart(l), MetadataEnd(l))
    ensures Quiet(w.env, old(w.clock)) && (device ==> MetadataEnd(l) <= |base|) ==> status == Ok
  {
    hide BootSector, FsInfoSector, FatHead, RootSector, Overlay, ChangedOnlyIn, Metadata;
    var start := MetadataStart(l);
    var sector := new Byte[SECTOR];
    ghost var m := Zeros(MetadataSectors(l) * SECTOR);
    BuildBootSector(sector, l, volumeLabel, volumeId);
    status, m := WriteTwice(w, device, sector, 0, 6, base, start, m);
    if status != Ok {
      return;
    }
    BuildFsInfo(sector);
    status, m := WriteTwice(w, device, sector, 1, 7, base, start, m);
    if status != Ok {
      return;
    }
    BuildFatHead(sector);
    status, m := WriteTwice(w, device, sector, 32, 32 + l.sectorsPerFat, base, start, m);
    if status != Ok {
      return;
    }
    BuildRootSector(sector, volumeLabel);
    status, m := WriteMeta(w, device, sector, 32 + 2 * l.sectorsPerFat, base, start, m);
    MetadataAssembled(l, volumeLabel, volumeId);
  }

  lemma FrameFromExtent(base: seq<Byte>, mid: seq<Byte>, after: seq<Byte>, l: Layout, createMbr: bool)
    requires SoundLayout(l)
    requires mid == base || (createMbr && mid == Overlay(base, 0, MbrSector(l)))
    requires ChangedOnlyIn(mid, after, MetadataStart(l), MetadataEnd(l))
    ensures FormatFrame(base, after, l, createMbr)
  {
  }

  lemma FrameFromMbr(base: seq<Byte>, mid: seq<Byte>, after: seq<Byte>, l: Layout)
    requires SoundLayout(l)
    requires mid == Overlay(base, MetadataStart(l), Zeros(MetadataSectors(l) * SECTOR))
    requires ChangedOnlyIn(mid, after, 0, SECTOR)
    ensures FormatFrame(base, after, l, true)
  {
  }

  /** A completed format changes no more than an interrupted one may. */
  lemma CompleteFrame(base: seq<Byte>, l: Layout, volumeLabel: Label, volumeId: U32, createMbr: bool)
    requires SoundLayout(l)
    ensures FormatFrame(base, FormattedImage(base, l, volumeLabel, volumeId, createMbr), l, createMbr)
  {
    hide MbrSector, MetaSector;
  }

  lemma PlannedLayout(env: Environment, clock: nat, options: FormatOptions)
    requires FormatPlan(env, clock, options).Success?
    ensures var plan := FormatPlan(env, clock, options).value;
            LayoutOf(plan.size, PartitionStart(Some(options.start))) == Success(plan.layout)
  {
    hide LayoutOf, OpenResult, Token;
  }

  /** Inspects, lays out and opens the target; nothing is written yet. */
  method PlanFormat(w: World, options: FormatOptions) returns (r: Result<Plan>)
    modifies w
    ensures r == FormatPlan(w.env, old(w.clock), options)
    ensures w.clock >= old(w.clock) && w.bytes == old(w.bytes) && w.mutations == old(w.mutations)
    ensures r.Success? ==>
              LayoutOf(r.value.size, PartitionStart(Some(options.start))) == Success(r.value.layout)
              && SoundLayout(r.value.layout) && MetadataEnd(r.value.layout) <= r.value.size
  {
    hide Token, Iterate, OpenResult;
    var now := w.Tick();
    var inspected := w.env.inspect(now);
    if inspected.Failure? {
      return Failure(inspected.error);
    }
    var info := inspected.value;
    var size := TargetSize(info, options);
    var laidOut := ComputeLayout(size, Some(options.start));
    if laidOut.Failure? {
      return Failure(laidOut.error);
    }
    var token := ComputeTargetToken(info);
    var opening := OpenTarget(w, token, options.gate);
    if opening.Failure? {
      return Failure(opening.error);
    }
    LayoutSane(size, PartitionStart(Some(options.start)));
    r := Success(Plan(laidOut.value, opening.value, size));
  }

  /** What a format that got past its plan may fail with. */
  ghost predicate FaultOf(env: Environment, status: Status) {
    || status == IoFailed
    || (status == NoMemory && exists t: nat :: !env.memory(t))
    || (status != Ok && exists t: nat :: status == env.resize(t) || status == env.flush(t))
  }

  /**
   Formats the target. Success means the medium holds exactly the formatted image; a failure before
   the plan stands touches nothing, and a later one stays inside sector 0 and the metadata extent.
   */
  method FormatFat32(w: World, options: FormatOptions, volumeId: U32) returns (r: Result<Layout>)
    modifies w
    ensures var plan := FormatPlan(w.env, old(w.clock), options);
            && (plan.Failure? ==> r == Failure(plan.error) && w.bytes == old(w.bytes)
                                  && w.mutations == old(w.mutations))
            && (plan.Success? ==>
                  var l, base := plan.value.layout, PlannedBase(plan.value, old(w.bytes));
                  && (r.Success? ==> r.value == l)
                  && (r.Failure? ==> FaultOf(w.env, r.error))
                  && (r.Success? ==> w.bytes == FormattedImage(base, l, NormalizedLabel(options.volumeLabel),
                                                               volumeId, options.createMbr))
                  && (r.Failure? ==> w.bytes == old(w.bytes) || FormatFrame(base, w.bytes, l, options.createMbr))
                  && (Quiet(w.env, old(w.clock)) && (plan.value.file.device ==> plan.value.size <= |base|)
                      ==> r.Success?)
                  && (r.Success? && !plan.value.file.device && plan.value.file.sizeBytes == |old(w.bytes)| ==>
                        |w.bytes| == plan.value.size))
    ensures (forall t: nat :: w.env.flush(t) != Ok) || (forall t: nat :: w.env.transfer(t).Fault?) ==> r.Failure?
  {
    hide FormatPlan, FormattedImage, FormatFrame, NormalizedLabel, LayoutOf;
    var volumeLabel := NormalizeLabel(options.volumeLabel);
    var planned := PlanFormat(w, options);
    if planned.Failure? {
      return Failure(planned.error);
    }
    var Plan(l, file, size) := planned.value;
    if !file.device && file.sizeBytes != size {
      var resized := w.Resize(size);
      if resized != Ok {
        return Failure(resized);
      }
    }
    ghost var base := w.bytes;
    assert base == PlannedBase(planned.value, old(w.bytes));
    var status := WriteVolume(w, file.device, l, volumeLabel, volumeId, options.createMbr);
    if status != Ok {
      return Failure(status);
    }
    var flushed := w.FlushTarget();
    if flushed != Ok {
      CompleteFrame(base, l, volumeLabel, volumeId, options.createMbr);
      return Failure(flushed);
    }
    CompleteFrame(base, l, volumeLabel, volumeId, options.createMbr);
    FrameLength(base, w.bytes, l, options.createMbr);
    r := Success(l);
  }

  lemma FrameLength(before: seq<Byte>, after: seq<Byte>, l: Layout, createMbr: bool)
    ensures FormatFrame(before, after, l, createMbr) && MetadataEnd(l) <= |before| ==> |after| == |before|
  {
  }

  lemma LayoutSane(size: U64, start: U32)
    requires 0 < start && LayoutOf(size, start).Success?
    ensures var l := LayoutOf(size, start).value;
            SoundLayout(l) && MetadataEnd(l) <= size
  {
    hide Iterate;
    RecordedLayoutFits(size, start);
  }

  /** Zeroing, partition table and metadata over the opened target. */
  method WriteVolume(w: World, device: bool, l: Layout, volumeLabel: Label, volumeId: U32, createMbr: bool)
    returns (status: Status)
    requires SoundLayout(l)
    modifies w
    ensures status == Ok || status == IoFailed || (status == NoMemory && exists t: nat :: !w.env.memory(t))
    ensures w.clock >= old(w.clock)
    ensures status == Ok ==> w.bytes == FormattedImage(old(w.bytes), l, volumeLabel, volumeId, createMbr)
    ensures status != Ok ==> FormatFrame(old(w.bytes), w.bytes, l, createMbr)
    ensures (forall t: nat :: w.env.transfer(t).Fault?) ==> status != Ok
    ensures Quiet(w.env, old(w.clock)) && (device ==> MetadataEnd(l) <= |old(w.bytes)|) ==> status == Ok
  {
    hide Metadata, MbrSector, FormatFrame, ChangedOnlyIn;
    ghost var base, mid := w.bytes, w.bytes;
    var start, length := MetadataStart(l), MetadataSectors(l) * SECTOR;
    status := ZeroRegion(w, device, start, length);
    if status != Ok {
      FrameFromExtent(base, base, w.bytes, l, createMbr);
      return;
    }
    if createMbr {
      ghost var zeroed := w.bytes;
      var sector := new Byte[SECTOR];
      BuildMbr(sector, l);
      status := WriteExact(w, device, sector[..], 0);
      if status != Ok {
        FrameFromMbr(base, zeroed, w.bytes, l);
        return;
      }
      OverlaysCommute(base, start, Zeros(length), MbrSector(l));
      mid := Overlay(base, 0, MbrSector(l));
    }
    status := WriteMetadata(w, device, l, volumeLabel, volumeId, mid);
    if status != Ok {
      FrameFromExtent(base, mid, w.bytes, l, createMbr);
    }
  }
}
