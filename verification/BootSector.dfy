/** Volume geometry, fs/fat/boot_sector.rs. */
module BootSectors {
  import opened Bytes
  import opened Remainders

  lemma {:induction false} QuotientBelow(a: nat, d: nat, f: nat)
    requires d > 0 && a < f * d
    ensures a / d < f
  {
    var q := a / d;
    assert a == q * d + a % d;
    assert f <= q ==> f * d <= q * d;
  }

  lemma {:induction false} QuotientTimes(a: nat, d: nat)
    requires d > 0
    ensures a / d * d <= a
  {
  }

  lemma {:induction false} QuotientAtLeast(a: nat, d: nat, f: nat)
    requires d > 0
    ensures f <= a / d <==> f * d <= a
  {
    QuotientTimes(a, d);
    if a < f * d {
      QuotientBelow(a, d, f);
    } else if a / d < f {
      TimesMonotone(a / d + 1, f, d);
    }
  }

  lemma {:induction false} QuarterRemainder(n: nat, t: nat)
    requires t > 0
    ensures n * 4 % (4 * t) + 4 <= 4 * t
  {
    var q, r := n / t, n % t;
    assert n == q * t + r;
    assert q * (4 * t) == 4 * (q * t);
    RemainderOf(n * 4, q, 4 * r, 4 * t);
  }

  lemma {:induction false} ProductAtLeast(f: nat, k: nat)
    requires k > 0
    ensures f * k >= f
  {
  }

  datatype BootSector = BootSector(
    sectorSize: nat,       // bpb_byts_per_sec
    clusterSize: nat,      // bpb_sec_per_clus
    reservedCount: nat,    // bpb_rsvd_sec_cnt
    numFats: nat,          // bpb_num_fats
    totalSectors: nat,     // bpb_tot_sec_32
    fatSize: nat,          // bpb_fat_sz_32
    rootCluster: nat       // bpb_root_clus
  ) {

    function FatAreaSize(): nat {
      fatSize * numFats
    }

    function DataAreaStart(): nat {
      reservedCount + FatAreaSize()
    }

    function DataAreaSize(): nat
      requires DataAreaStart() <= totalSectors
    {
      totalSectors - DataAreaStart()
    }

    function ClusterCount(): nat
      requires DataAreaStart() <= totalSectors && clusterSize > 0
    {
      DataAreaSize() / clusterSize
    }

    /** What the parser accepts, together with a FAT that covers the data area. */
    predicate Consistent() {
      && sectorSize in {512, 1024, 2048, 4096}
      && clusterSize > 0
      && reservedCount > 0
      && numFats > 0
      && DataAreaStart() <= totalSectors
      && 4 * (ClusterCount() + 2) <= fatSize * sectorSize
      && ClusterCount() + 1 <= 0x0fff_fff6
    }

    predicate IsClusterAvailable(n: nat)
      requires Consistent()
    {
      2 <= n <= ClusterCount() + 1
    }

    function ClusterBytes(): nat {
      sectorSize * clusterSize
    }

    function FatEntrySector(n: nat): nat
      requires sectorSize > 0
    {
      reservedCount + n * 4 / sectorSize
    }

    function FatEntryOffset(n: nat): nat
      requires sectorSize > 0
    {
      n * 4 % sectorSize
    }

    function ClusterLocation(n: nat): nat
      requires n >= 2
    {
      DataAreaStart() + (n - 2) * clusterSize
    }

    /** The slot of cluster `n` is at byte `4 * n` of the first FAT. */
    lemma FatSlotPlace(n: nat)
      requires sectorSize > 0
      ensures (FatEntrySector(n) - reservedCount) * sectorSize + FatEntryOffset(n) == 4 * n
      ensures FatEntryOffset(n) < sectorSize && FatEntrySector(n) >= reservedCount
    {
      assert n * 4 == n * 4 / sectorSize * sectorSize + n * 4 % sectorSize;
    }

    /** Cluster 2 begins behind the reserved sectors and all FATs, and each other one where the one before it
        ends. A cluster is available exactly when its last sector is on the volume. */
    lemma ClusterPlace(n: nat)
      requires n >= 2
      ensures ClusterLocation(2) == reservedCount + numFats * fatSize
      ensures ClusterLocation(n + 1) == ClusterLocation(n) + clusterSize
      ensures ClusterBytes() == (ClusterLocation(n + 1) - ClusterLocation(n)) * sectorSize
      ensures Consistent() ==> (IsClusterAvailable(n) <==> ClusterLocation(n) + clusterSize <= totalSectors)
    {
      assert (n - 1) * clusterSize == (n - 2) * clusterSize + clusterSize;
      if Consistent() {
        QuotientAtLeast(DataAreaSize(), clusterSize, n - 1);
      }
    }

    /** The slot of every available cluster lies within one sector of the first FAT. */
    lemma FatSlotInFirstFat(n: nat)
      requires Consistent() && IsClusterAvailable(n)
      ensures reservedCount <= FatEntrySector(n) < reservedCount + fatSize <= DataAreaStart()
      ensures FatEntryOffset(n) + 4 <= sectorSize
    {
      QuotientBelow(n * 4, sectorSize, fatSize);
      ProductAtLeast(fatSize, numFats);
      SlotFits(n);
    }

    lemma SlotFits(n: nat)
      requires sectorSize in {512, 1024, 2048, 4096}
      ensures n * 4 % sectorSize + 4 <= sectorSize
    {
      var t := sectorSize / 4;
      QuarterRemainder(n, t);
    }

    /** Slots of different clusters share no byte. */
    lemma FatSlotsDisjoint(n: nat, m: nat)
      requires Consistent() && n < m
      ensures FatEntrySector(n) != FatEntrySector(m) || FatEntryOffset(n) + 4 <= FatEntryOffset(m)
    {
      assert n * 4 == n * 4 / sectorSize * sectorSize + n * 4 % sectorSize;
      assert m * 4 == m * 4 / sectorSize * sectorSize + m * 4 % sectorSize;
    }

    /** The sectors of every available cluster lie in the data area. */
    lemma ClusterInDataArea(n: nat)
      requires Consistent() && IsClusterAvailable(n)
      ensures DataAreaStart() <= ClusterLocation(n)
      ensures ClusterLocation(n) + clusterSize <= totalSectors
    {
      hide DataAreaStart;
      QuotientTimes(DataAreaSize(), clusterSize);
      TimesMonotone(n - 1, ClusterCount(), clusterSize);
      assert (n - 2) * clusterSize + clusterSize == (n - 1) * clusterSize;
    }

    /** Different clusters share no sector. */
    lemma ClustersDisjoint(n: nat, m: nat)
      requires 2 <= n < m
      ensures ClusterLocation(n) + clusterSize <= ClusterLocation(m)
    {
      hide DataAreaStart;
      assert (n - 2) * clusterSize + clusterSize == (n - 1) * clusterSize;
      TimesMonotone(n - 1, m - 2, clusterSize);
    }
  }
}
