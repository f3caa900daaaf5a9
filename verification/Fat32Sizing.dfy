/**
 The FAT size and the cluster count depend on each other. The formatter iterates one from the
 other, starting at one sector per FAT. This module follows those iterates and says where they end.
 Throughout, `t` is the partition's sector count and `c` the sectors per cluster.
 */
module Fat32Sizing {
  import opened Bytes

  const MIN_CLUSTERS := 65525
  const MAX_CLUSTERS := 0x0fff_fff5
  const RESERVED_SECTORS := 32
  const FAT_COUNT := 2

  function ChooseSectorsPerCluster(partitionBytes: U64): U32 {
    if partitionBytes <= 260 * 1024 * 1024 then 1
    else if partitionBytes <= 8 * 1024 * 1024 * 1024 then 8
    else if partitionBytes <= 16 * 1024 * 1024 * 1024 then 16
    else if partitionBytes <= 32 * 1024 * 1024 * 1024 then 32
    else 64
  }

  predicate ClusterClass(c: int) {
    c == 1 || c == 8 || c == 16 || c == 32 || c == 64
  }

  /** Sectors left for data beside two FATs of `fat` sectors, in whole clusters. */
  function Clusters(t: int, c: int, fat: int): int
    requires ClusterClass(c)
  {
    (t - RESERVED_SECTORS - FAT_COUNT * fat) / c
  }

  /** The FAT size, in sectors, that the cluster count beside FATs of size `fat` asks for. */
  function NextFat(t: int, c: int, fat: int): int
    requires ClusterClass(c)
  {
    ((Clusters(t, c, fat) + 2) * 4 + 511) / 512
  }

  /** The FAT size after n rounds. */
  function Iterate(t: int, c: int, n: nat): int
    requires ClusterClass(c)
    decreases n, t
  {
    if n == 0 then 1 else NextFat(t, c, Iterate(t, c, n - 1))
  }

  predicate Fixpoint(t: int, c: int, fat: int)
    requires ClusterClass(c)
  {
    NextFat(t, c, fat) == fat
  }

  predicate TwoCycle(t: int, c: int, fat: int)
    requires ClusterClass(c)
  {
    NextFat(t, c, fat) == fat + 1 && NextFat(t, c, fat + 1) == fat
  }

  /** A larger FAT asks for a smaller one, and one round shrinks a gap about 64 times. */
  lemma Contraction(t: int, c: int, low: int, high: int)
    requires ClusterClass(c) && low <= high
    ensures 0 <= NextFat(t, c, low) - NextFat(t, c, high) <= (high - low + 63) / 64
  {
    assert 0 <= Clusters(t, c, low) - Clusters(t, c, high) <= 2 * (high - low);
  }

  /** Every iterate is at least one sector and leaves room for data. */
  lemma {:induction false} IterateBounds(t: int, c: int, n: nat)
    requires ClusterClass(c) && 35 <= t
    ensures 1 <= Iterate(t, c, n)
    ensures RESERVED_SECTORS + FAT_COUNT * Iterate(t, c, n) < t
    ensures n > 0 ==> Iterate(t, c, n) <= (t + 95) / 128
  {
    if n > 0 {
      IterateBounds(t, c, n - 1);
    }
  }

  /** Even iterates never exceed their odd successor, odd iterates never fall below their even one. */
  lemma {:induction false} Alternates(t: int, c: int, n: nat)
    requires ClusterClass(c) && 35 <= t
    ensures n % 2 == 0 ==> Iterate(t, c, n) <= Iterate(t, c, n + 1)
    ensures n % 2 == 1 ==> Iterate(t, c, n) >= Iterate(t, c, n + 1)
  {
    hide NextFat;
    if n == 0 {
      IterateBounds(t, c, 1);
    } else {
      Alternates(t, c, n - 1);
      if n % 2 == 1 {
        Contraction(t, c, Iterate(t, c, n - 1), Iterate(t, c, n));
      } else {
        Contraction(t, c, Iterate(t, c, n), Iterate(t, c, n - 1));
      }
    }
  }

  /** Even iterates rise, odd iterates fall, and the even ones stay below. */
  lemma {:induction false} Brackets(t: int, c: int, n: nat)
    requires ClusterClass(c) && 35 <= t && n % 2 == 0
    ensures Iterate(t, c, n) <= Iterate(t, c, n + 2) <= Iterate(t, c, n + 3) <= Iterate(t, c, n + 1)
    decreases n
  {
    hide NextFat;
    Alternates(t, c, n + 2);
    if n == 0 {
      IterateBounds(t, c, 2);
    } else {
      Brackets(t, c, n - 2);
      Contraction(t, c, Iterate(t, c, n + 1), Iterate(t, c, n - 1));
    }
    Contraction(t, c, Iterate(t, c, n), Iterate(t, c, n + 2));
  }

  function Gap(t: int, c: int, n: nat): int
    requires ClusterClass(c)
  {
    Max(Iterate(t, c, n), Iterate(t, c, n + 1)) - Min(Iterate(t, c, n), Iterate(t, c, n + 1))
  }

  lemma GapShrinks(t: int, c: int, n: nat)
    requires ClusterClass(c)
    ensures 0 <= Gap(t, c, n + 1) <= (Gap(t, c, n) + 63) / 64
  {
    hide NextFat;
    Contraction(t, c, Min(Iterate(t, c, n), Iterate(t, c, n + 1)), Max(Iterate(t, c, n), Iterate(t, c, n + 1)));
  }

  lemma FirstGap(t: int, c: int)
    requires ClusterClass(c) && 35 <= t <= U32_MAX
    ensures 0 <= Gap(t, c, 0) <= 0x200_0000
  {
    hide NextFat;
    IterateBounds(t, c, 1);
  }

  /** From the sixth round on, consecutive iterates differ by at most one sector. */
  lemma {:induction false} GapCloses(t: int, c: int, n: nat)
    requires ClusterClass(c) && 35 <= t <= U32_MAX && 6 <= n
    ensures Gap(t, c, n) <= 1
  {
    hide NextFat, Iterate;
    if n == 6 {
      FirstGap(t, c);
      GapShrinks(t, c, 0);
      GapShrinks(t, c, 1);
      GapShrinks(t, c, 2);
      GapShrinks(t, c, 3);
      GapShrinks(t, c, 4);
      GapShrinks(t, c, 5);
    } else {
      GapCloses(t, c, n - 1);
      GapShrinks(t, c, n - 1);
    }
  }

  /** Once two consecutive iterates agree, all later ones do. */
  lemma {:induction false} Settles(t: int, c: int, m: nat, n: nat)
    requires ClusterClass(c) && m <= n && Iterate(t, c, m) == Iterate(t, c, m + 1)
    ensures Iterate(t, c, n) == Iterate(t, c, m)
  {
    hide NextFat;
    if m < n {
      Settles(t, c, m, n - 1);
    }
  }

  /** Once the iterates alternate between two sizes, they do so for ever. */
  lemma {:induction false} Oscillates(t: int, c: int, m: nat, n: nat)
    requires ClusterClass(c) && m <= n && Iterate(t, c, m) == Iterate(t, c, m + 2)
    ensures Iterate(t, c, n) == Iterate(t, c, if (n - m) % 2 == 0 then m else m + 1)
  {
    hide NextFat;
    if m < n {
      Oscillates(t, c, m, n - 1);
    }
  }

  /** The exact arithmetic of the case without a fixpoint. */
  lemma TwoCycleArithmetic(t: int, c: int, fat: int)
    requires ClusterClass(c)
    ensures TwoCycle(t, c, fat) <==>
            var rest := t - RESERVED_SECTORS - FAT_COUNT * fat;
            rest == c * (128 * fat - 1) || rest == c * (128 * fat - 1) + 1
  {
    AsksFor(t, c, fat, fat + 1);
    AsksFor(t, c, fat + 1, fat);
    hide NextFat, Clusters;
    QuotientsBetween(t - RESERVED_SECTORS - FAT_COUNT * fat, c, 128 * fat - 1);
  }

  /** A FAT of `fat` sectors asks for one of `next` exactly when its clusters and the two reserved entries fill the last. */
  lemma AsksFor(t: int, c: int, fat: int, next: int)
    requires ClusterClass(c)
    ensures NextFat(t, c, fat) == next <==> 128 * next - 129 <= (t - RESERVED_SECTORS - FAT_COUNT * fat) / c < 128 * next - 1
  {
  }

  /** Taking two sectors away crosses a cluster boundary exactly in the two sectors behind it. */
  lemma QuotientsBetween(rest: int, c: int, n: int)
    requires ClusterClass(c)
    ensures n <= rest / c < n + 128 && n - 128 <= (rest - 2) / c < n <==> rest == c * n || rest == c * n + 1
  {
  }

  /** A sizing problem has one answer: a fixpoint or a two-cycle, never two of either, never both. */
  lemma AnswerIsUnique(t: int, c: int, x: int, y: int)
    requires ClusterClass(c)
    requires Fixpoint(t, c, x) || TwoCycle(t, c, x)
    requires Fixpoint(t, c, y) || TwoCycle(t, c, y)
    ensures x == y && (Fixpoint(t, c, x) <==> Fixpoint(t, c, y))
  {
    Contraction(t, c, Min(x, y), Max(x, y));
    Contraction(t, c, Min(x, y) + 1, Max(x, y) + 1);
  }

  /** From round eight on, an even round sits on the fixpoint or on the lower end of the two-cycle. */
  lemma OutcomeAt(t: int, c: int, n: nat)
    requires ClusterClass(c) && 35 <= t <= U32_MAX && 8 <= n && n % 2 == 0
    ensures var fat, previous := Iterate(t, c, n), Iterate(t, c, n - 1);
            || (previous == fat && Fixpoint(t, c, fat))
            || (previous == fat + 1 && TwoCycle(t, c, fat))
  {
    hide NextFat;
    Alternates(t, c, 6);
    Alternates(t, c, 7);
    GapCloses(t, c, 6);
    GapCloses(t, c, 7);
    if Iterate(t, c, 7) == Iterate(t, c, 6) {
      Settles(t, c, 6, n - 1);
      Settles(t, c, 6, n);
    } else if Iterate(t, c, 8) == Iterate(t, c, 7) {
      Settles(t, c, 7, n - 1);
      Settles(t, c, 7, n);
    } else {
      Oscillates(t, c, 6, n - 1);
      Oscillates(t, c, 6, n);
      assert Iterate(t, c, 7) == NextFat(t, c, Iterate(t, c, 6));
      assert Iterate(t, c, 8) == NextFat(t, c, Iterate(t, c, 7));
    }
  }
}
