/** Layout computation: the sizing loop with its gates, and what an accepted layout guarantees. */
module Fat32Layout {
  import opened Bytes
  import opened Status
  import opened Fat32Sizing

  const DEFAULT_START: U32 := 2048
  const MIN_PARTITION := 131072
  const ROUNDS := 64

  /** The fewest partition sectors whose cluster count reaches the FAT32 minimum. */
  const LEAST_PARTITION := 66581

  datatype Layout = Layout(
    bytesPerSector: U32,
    sectorsPerCluster: U32,
    reservedSectors: U32,
    fatCount: U32,
    sectorsPerFat: U32,
    partitionStartLba: U32,
    partitionSectors: U32,
    dataClusters: U32,
    rootCluster: U32)

  /** An absent or zero start means sector 2048. */
  function PartitionStart(requested: Option<U32>): U32 {
    if requested.Some? && requested.value != 0 then requested.value else DEFAULT_START
  }

  function PartitionClass(sectors: U32): (c: U32)
    ensures ClusterClass(c)
  {
    ChooseSectorsPerCluster(sectors * 512)
  }

  /** The gate on the target size; the sum start + 131072 wraps at 32 bits. */
  predicate PassesSizeGate(size: U64, start: U32) {
    size >= Wrap32(start + MIN_PARTITION) * 512
  }

  predicate FitsMbr(size: U64, start: U32) {
    start < size / 512 && size / 512 - start <= U32_MAX
  }

  /** The FAT size the 64 rounds end with. */
  function SettledFat(sectors: U32): int {
    Iterate(sectors, PartitionClass(sectors), ROUNDS)
  }

  /** The cluster count the formatter records: that of the round before the last. */
  function RecordedClusters(sectors: U32): int {
    Clusters(sectors, PartitionClass(sectors), Iterate(sectors, PartitionClass(sectors), ROUNDS - 1))
  }

  lemma LayoutRanges(sectors: U32)
    requires LEAST_PARTITION <= sectors
    ensures 1 <= SettledFat(sectors) <= U32_MAX
    ensures 0 <= RecordedClusters(sectors) <= U32_MAX
  {
    IterateBounds(sectors, PartitionClass(sectors), ROUNDS);
    IterateBounds(sectors, PartitionClass(sectors), ROUNDS - 1);
  }

  /** The layout, or the exact reason there is none. */
  function LayoutOf(size: U64, start: U32): (r: Result<Layout>)
    ensures r.Success? ==> ClusterClass(r.value.sectorsPerCluster)
  {
    if !PassesSizeGate(size, start) then Failure(TooSmall)
    else if !FitsMbr(size, start) then Failure(TooLarge)
    else if size / 512 - start < LEAST_PARTITION then Failure(TooSmall)
    else
      var sectors: U32 := size / 512 - start;
      LayoutRanges(sectors);
      Success(Layout(512, PartitionClass(sectors), 32, 2, SettledFat(sectors), start, sectors,
                     RecordedClusters(sectors), 2))
  }

  /** Below 66581 sectors the recorded count misses the FAT32 minimum; from there on it never leaves the range. */
  lemma ClusterCountRange(sectors: U32)
    requires 35 <= sectors
    ensures RecordedClusters(sectors) < MIN_CLUSTERS <==> sectors < LEAST_PARTITION
    ensures RecordedClusters(sectors) < MAX_CLUSTERS
  {
    hide Iterate;
    var c := PartitionClass(sectors);
    OutcomeAt(sectors, c, ROUNDS);
    IterateBounds(sectors, c, ROUNDS);
    IterateBounds(sectors, c, ROUNDS - 1);
  }

  /** One round in 32- and 64-bit unsigned arithmetic; none of it wraps while the FATs leave room for data. */
  method SizingRound(sectors: U32, c: U32, fat: U32) returns (clusters: U32, next: U32)
    requires ClusterClass(c) && 1 <= fat && RESERVED_SECTORS + FAT_COUNT * fat < sectors
    ensures clusters == Clusters(sectors, c, fat) && next == NextFat(sectors, c, fat)
  {
    hide Wrap32, Wrap64;
    NoWrap(sectors - RESERVED_SECTORS - FAT_COUNT * fat);
    var dataSectors := Wrap32(sectors - RESERVED_SECTORS - FAT_COUNT * fat);
    clusters := dataSectors / c;
    NoWrap((clusters + 2) * 4);
    var fatBytes := Wrap64((clusters + 2) * 4);
    NoWrap(fatBytes + 511);
    NoWrap((fatBytes + 511) / 512);
    next := Wrap32(Wrap64(fatBytes + 511) / 512);
  }

  /** The sizing loop with its early exit; None is the in-loop "too small" error. */
  method SolveSizes(sectors: U32, c: U32) returns (r: Option<(U32, U32)>)
    requires ClusterClass(c)
    ensures r == if sectors < 35 then None
                 else Some((Iterate(sectors, c, ROUNDS), Clusters(sectors, c, Iterate(sectors, c, ROUNDS - 1))))
  {
    hide NextFat, Clusters;
    var fat: U32, previous: U32, clusters: U32 := 1, 0, 0;
    var round := 0;
    while round < ROUNDS
      invariant 0 <= round <= ROUNDS
      invariant fat == Iterate(sectors, c, round)
      invariant round > 0 ==> 35 <= sectors && clusters == Clusters(sectors, c, Iterate(sectors, c, round - 1))
    {
      if 35 <= sectors {
        IterateBounds(sectors, c, round);
      }
      if sectors <= Wrap32(RESERVED_SECTORS + Wrap32(FAT_COUNT * fat)) {
        return None;
      }
      previous := fat;
      clusters, fat := SizingRound(sectors, c, fat);
      round := round + 1;
      if fat == previous {
        Settles(sectors, c, round - 1, ROUNDS - 1);
        Settles(sectors, c, round - 1, ROUNDS);
        break;
      }
    }
    r := Some((fat, clusters));
  }

  method ComputeLayout(size: U64, requested: Option<U32>) returns (r: Result<Layout>)
    ensures r == LayoutOf(size, PartitionStart(requested))
    ensures r.Success? ==>
              && r.value.partitionStartLba == (if requested.None? || requested.value == 0 then 2048 else requested.value)
              && r.value.partitionSectors == size / 512 - r.value.partitionStartLba
  {
    hide Iterate, Clusters, NextFat, Wrap32, ChooseSectorsPerCluster;
    var start: U32 := if requested.Some? && requested.value != 0 then requested.value else DEFAULT_START;
    if size < Wrap32(start + MIN_PARTITION) * 512 {
      return Failure(TooSmall);
    }
    var sectors64: U64 := size / 512;
    var tooLarge: Result<Layout> := Failure(TooLarge);
    if sectors64 <= start || sectors64 - start > U32_MAX {
      return tooLarge;
    }
    NoWrap(sectors64 - start);
    var sectors: int := Wrap32(sectors64 - start);
    var c := ChooseSectorsPerCluster(sectors * 512);
    assert c == PartitionClass(sectors);
    var sizes := SolveSizes(sectors, c);
    if sizes.None? {
      return Failure(TooSmall);
    }
    var (fat, clusters) := sizes.value;
    ClusterCountRange(sectors);
    if clusters < MIN_CLUSTERS {
      return Failure(TooSmall);
    }
    if clusters >= MAX_CLUSTERS {
      return tooLarge;
    }
    r := Success(Layout(512, c, RESERVED_SECTORS, FAT_COUNT, fat, start, sectors, clusters, 2));
  }

  /**
   Every partition of at least 131072 sectors with a start that does not wrap gets a layout: the
   in-loop error and both cluster-count errors are unreachable. The cluster size grows with the
   partition: up to 260 MiB, 8 GiB, 16 GiB, 32 GiB and beyond.
   */
  lemma AcceptedSizesSucceed(size: U64, start: U32)
    requires 0 < start && start + MIN_PARTITION <= U32_MAX
    ensures LayoutOf(size, start).Success? <==>
            (start + MIN_PARTITION) * 512 <= size < (start + U32_MAX + 1) * 512
    ensures LayoutOf(size, start).Success? ==>
              var n, c := LayoutOf(size, start).value.partitionSectors, LayoutOf(size, start).value.sectorsPerCluster;
              && MIN_PARTITION <= n == size / 512 - start
              && (c == 1 <==> n <= 532480)
              && (c == 8 <==> 532480 < n <= 0x100_0000)
              && (c == 16 <==> 0x100_0000 < n <= 0x200_0000)
              && (c == 32 <==> 0x200_0000 < n <= 0x400_0000)
              && (c == 64 <==> 0x400_0000 < n)
  {
    hide Iterate;
  }

  /** The statuses of a refused size, for every size and start. */
  lemma LayoutStatuses(size: U64, start: U32)
    ensures var least, sectors, r := (start + 131072) % 0x1_0000_0000 * 512, size / 512, LayoutOf(size, start);
            && (r == Failure(TooLarge) <==> least <= size && (sectors <= start || sectors - start > 0xffff_ffff))
            && (r == Failure(TooSmall) <==>
                size < least || (start < sectors && sectors - start <= 0xffff_ffff && sectors - start < 66581))
            && (r.Failure? ==> r.error == TooSmall || r.error == TooLarge)
  {
    hide Iterate;
  }

  /**
   Targets below the minimum of the size gate's message are accepted exactly when the sum in the gate
   wraps and their partition still has room for the fewest FAT32 clusters.
   */
  lemma SmallTargetsPassExactly(size: U64, start: U32)
    requires 0 < start
    ensures LayoutOf(size, start).Success? && LayoutOf(size, start).value.partitionSectors < MIN_PARTITION <==>
            start + MIN_PARTITION > U32_MAX && LEAST_PARTITION <= size / 512 - start < MIN_PARTITION
  {
    hide Iterate;
  }

  /** Such a target: the last possible start, and 66581 sectors behind it. */
  lemma SmallTargetPasses()
    ensures var r := LayoutOf((U32_MAX + LEAST_PARTITION) * 512, U32_MAX);
            r.Success? && r.value.partitionSectors == LEAST_PARTITION < MIN_PARTITION
  {
    hide Iterate;
    SmallTargetsPassExactly((U32_MAX + LEAST_PARTITION) * 512, U32_MAX);
  }

  /** Every cluster size occurs. */
  lemma EveryClassOccurs(c: int)
    requires ClusterClass(c)
    ensures exists size: U64 ::
              LayoutOf(size, DEFAULT_START).Success? && LayoutOf(size, DEFAULT_START).value.sectorsPerCluster == c
  {
    hide Iterate;
    var gib := 1024 * 1024 * 1024;
    var size := if c == 1 then gib / 8 else if c == 8 then gib else if c == 16 then 16 * gib
                else if c == 32 then 32 * gib else 64 * gib;
    AcceptedSizesSucceed(size, DEFAULT_START);
    assert LayoutOf(size, DEFAULT_START).Success?;
  }

  /** The count of one round beside the FAT it asks for, when that FAT is not larger than the round's own. */
  lemma RoundFits(t: int, c: int, previous: int)
    requires ClusterClass(c) && NextFat(t, c, previous) <= previous
    ensures RESERVED_SECTORS + FAT_COUNT * NextFat(t, c, previous) + Clusters(t, c, previous) * c <= t
    ensures Clusters(t, c, previous) + 2 <= 128 * NextFat(t, c, previous)
  {
    var rest := t - RESERVED_SECTORS - FAT_COUNT * previous;
    assert Clusters(t, c, previous) == rest / c;
    assert (rest / c) * c <= rest;
  }

  /**
   What a recorded layout guarantees: the metadata and the recorded clusters fit in the partition,
   the partition in the target, and each FAT has an entry for every recorded cluster and the two
   reserved ones.
   */
  lemma RecordedLayoutFits(size: U64, start: U32)
    requires LayoutOf(size, start).Success?
    ensures var l := LayoutOf(size, start).value;
            && l.reservedSectors + l.fatCount * l.sectorsPerFat + l.dataClusters * l.sectorsPerCluster
               <= l.partitionSectors
            && (l.partitionStartLba + l.partitionSectors) * 512 <= size
            && l.dataClusters + 2 <= 128 * l.sectorsPerFat
            && MIN_CLUSTERS <= l.dataClusters < MAX_CLUSTERS
  {
    hide Iterate, NextFat, Clusters;
    var l := LayoutOf(size, start).value;
    var t, c := l.partitionSectors, l.sectorsPerCluster;
    OutcomeAt(t, c, ROUNDS);
    LastRound(t, c);
    RoundFits(t, c, Iterate(t, c, ROUNDS - 1));
    ClusterCountRange(t);
  }

  lemma LastRound(t: int, c: int)
    requires ClusterClass(c)
    ensures Iterate(t, c, ROUNDS) == NextFat(t, c, Iterate(t, c, ROUNDS - 1))
  {
    hide NextFat;
  }

  /** The cluster count a reader derives from the FAT size on disk. */
  function DerivedClusters(l: Layout): int
    requires ClusterClass(l.sectorsPerCluster)
  {
    Clusters(l.partitionSectors, l.sectorsPerCluster, l.sectorsPerFat)
  }

  /** The layout a reader derives: every field but the cluster count is on disk. */
  function DerivedLayout(l: Layout): Layout
    requires ClusterClass(l.sectorsPerCluster)
  {
    l.(dataClusters := Wrap32(DerivedClusters(l)))
  }

  /** The derived count against the FAT size, in either outcome. */
  lemma DerivedCount(sectors: U32, fat: U32)
    requires 35 <= sectors
    ensures var c := PartitionClass(sectors);
            && (Fixpoint(sectors, c, fat) ==>
                  Clusters(sectors, c, fat) + 2 <= 128 * fat && 0 <= Clusters(sectors, c, fat))
            && (TwoCycle(sectors, c, fat) ==>
                  && Clusters(sectors, c, fat + 1) < Clusters(sectors, c, fat) < MAX_CLUSTERS
                  && Clusters(sectors, c, fat) + 2 > 128 * fat)
  {
    hide Iterate;
  }

  /**
   The recorded FAT size is the unique fixpoint, or sizing has no fixpoint and ends in a two-cycle.
   The count derived from the FAT size equals the recorded one exactly in the first case; in the
   second it is too large for the FAT, which then lacks entries for the last clusters.
   */
  lemma FixpointOrTwoCycle(size: U64, start: U32)
    requires LayoutOf(size, start).Success?
    ensures var l := LayoutOf(size, start).value;
            var rest := l.partitionSectors - 32 - 2 * l.sectorsPerFat;
            var bound := l.sectorsPerCluster * (128 * l.sectorsPerFat - 1);
            var cycle := rest == bound || rest == bound + 1;
            && (cycle <==> TwoCycle(l.partitionSectors, l.sectorsPerCluster, l.sectorsPerFat))
            && (!cycle <==> Fixpoint(l.partitionSectors, l.sectorsPerCluster, l.sectorsPerFat))
            && (cycle <==> forall fat :: !Fixpoint(l.partitionSectors, l.sectorsPerCluster, fat))
            && (!cycle <==> DerivedClusters(l) == l.dataClusters)
            && (!cycle <==> DerivedLayout(l) == l)
            && (!cycle <==> DerivedClusters(l) + 2 <= 128 * l.sectorsPerFat)
            && MIN_CLUSTERS <= DerivedClusters(l) < MAX_CLUSTERS
  {
    hide Iterate, NextFat, Clusters;
    var l := LayoutOf(size, start).value;
    var t, c, fat := l.partitionSectors, l.sectorsPerCluster, l.sectorsPerFat;
    OutcomeAt(t, c, ROUNDS);
    ClusterCountRange(t);
    DerivedCount(t, fat);
    TwoCycleArithmetic(t, c, fat);
    forall other | Fixpoint(t, c, other)
      ensures other == fat && Fixpoint(t, c, fat)
    {
      AnswerIsUnique(t, c, fat, other);
    }
  }

  /** The smallest accepted target, 65 MiB: sizing alternates between 1008 and 1009 sectors. */
  lemma SmallestTargetHasNoFixpoint()
    ensures var r := LayoutOf(65 * 1024 * 1024, DEFAULT_START);
            r.Success? && r.value.partitionSectors == 131072
            && r.value.sectorsPerFat == 1008 && r.value.dataClusters == 129022
            && DerivedClusters(r.value) == 129024
            && TwoCycle(131072, 1, 1008)
  {
    hide Iterate, NextFat;
    TwoCycleArithmetic(131072, 1, 1008);
    OutcomeAt(131072, 1, ROUNDS);
    AnswerIsUnique(131072, 1, 1008, SettledFat(131072));
  }
}
