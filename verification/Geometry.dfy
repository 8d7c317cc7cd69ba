/** Where things are on the volume: the fields fat32_mount stores, and the sector arithmetic built on them. */
module Geometry {
  import opened Bytes

  const SECTOR: nat := 512
  const EOC_MIN: nat := 0x0FFF_FFF8
  const EOC: nat := 0x0FFF_FFFF
  const BAD: nat := 0x0FFF_FFF7
  const VALUE_MOD: nat := 0x1000_0000

  /** a * b, by recursion: the solver then meets no product of two variables. */
  function Times(a: nat, b: nat): (p: nat)
    ensures b <= p || a == 0
  {
    if a == 0 then 0 else Times(a - 1, b) + b
  }

  lemma {:induction false} TimesIsProduct(a: nat, b: nat)
    ensures Times(a, b) == a * b
  {
    if a > 0 {
      TimesIsProduct(a - 1, b);
      assert (a - 1) * b + b == a * b;
    }
  }

  lemma {:induction false} TimesLess(n: nat, a: nat, r: nat, b: nat)
    requires r < n && a < b
    ensures Times(a, n) + r < Times(b, n)
    ensures Times(a, n) + n <= Times(b, n)
    decreases b
  {
    if a < b - 1 {
      TimesLess(n, a, r, b - 1);
    }
  }

  /** a / n and a % n, again without a product or quotient of two variables. */
  function Quot(a: nat, n: nat): nat
    requires n > 0
  {
    if a < n then 0 else 1 + Quot(a - n, n)
  }

  function Rem(a: nat, n: nat): (r: nat)
    requires n > 0
    ensures r < n
  {
    if a < n then a else Rem(a - n, n)
  }

  lemma {:induction false} QuotRem(a: nat, n: nat)
    requires n > 0
    ensures a == Times(Quot(a, n), n) + Rem(a, n)
  {
    if a >= n {
      QuotRem(a - n, n);
    }
  }

  lemma QuotRemUnique(a: nat, n: nat, q: nat, r: nat)
    requires n > 0 && r < n && a == Times(q, n) + r
    ensures Quot(a, n) == q && Rem(a, n) == r
  {
    QuotRem(a, n);
    if Quot(a, n) < q {
      TimesLess(n, Quot(a, n), Rem(a, n), q);
    } else if q < Quot(a, n) {
      TimesLess(n, q, r, Quot(a, n));
    }
  }

  lemma QuotLess(a: nat, n: nat, m: nat)
    requires n > 0
    ensures a < Times(m, n) <==> Quot(a, n) < m
  {
    QuotRem(a, n);
    if Quot(a, n) < m {
      TimesLess(n, Quot(a, n), Rem(a, n), m);
    } else if m < Quot(a, n) {
      TimesLess(n, m, 0, Quot(a, n));
    }
  }

  lemma QuotIsDivision(a: nat, n: nat)
    requires n > 0
    ensures Quot(a, n) == a / n && Rem(a, n) == a % n
  {
    TimesIsProduct(a / n, n);
    QuotRemUnique(a, n, a / n, a % n);
  }

  /** Byte p of a run of clusters lies in its sector p / 512, at p % 512; that sector's cluster and place in the cluster
      are what dividing p by the cluster size gives. */
  lemma {:induction false} ByteSector(p: nat, spc: nat)
    requires spc > 0
    ensures Quot(p, 512 * spc) == Quot(p / 512, spc)
    ensures Rem(p, 512 * spc) == 512 * Rem(p / 512, spc) + p % 512
    ensures Rem(p, 512 * spc) / 512 == Rem(p / 512, spc) && Rem(p, 512 * spc) % 512 == p % 512
    decreases p
  {
    if p >= 512 * spc {
      ByteSector(p - 512 * spc, spc);
      assert (p - 512 * spc) / 512 == p / 512 - spc;
      assert (p - 512 * spc) % 512 == p % 512;
    } else {
      assert p / 512 < spc;
    }
  }

  type Sector = s: seq<byte> | |s| == 512 witness Zeros(512)
  type Disk = seq<Sector>

  /** The fields of fat32_t that vary between volumes; bytes_per_sector is always 512 after a successful mount. */
  datatype Geometry = Geometry(
    sectorsPerCluster: nat,
    numberOfFats: nat,
    fatSize: nat,
    totalSectors: nat,
    rootCluster: nat,
    fatStart: nat,
    dataStart: nat,
    totalClusters: nat)
  {
    function MaxCluster(): nat {
      totalClusters + 1
    }

    predicate InRange(c: int) {
      2 <= c <= MaxCluster()
    }

    function DataSectors(): nat {
      Times(totalClusters, sectorsPerCluster)
    }

    function ClusterSize(): nat {
      SECTOR * sectorsPerCluster
    }

    /** What fat32_mount checks. */
    ghost predicate Mounted() {
      && 0 < sectorsPerCluster < 256
      && 0 < numberOfFats < 256
      && 0 < fatSize < U32
      && totalSectors < U32
      && 0 < fatStart < 0x1_0000
      && dataStart == (fatStart + (numberOfFats * fatSize) % U32) % U32
      && dataStart < totalSectors
      && totalClusters == (totalSectors - dataStart) / sectorsPerCluster
      && 65525 <= totalClusters
      && 2 <= rootCluster < U32
    }

    /** What fat32_mount leaves unchecked and every other operation relies on. */
    ghost predicate Sound() {
      && fatStart + numberOfFats * fatSize < U32
      && totalClusters + 2 <= fatSize * 128
      && MaxCluster() < BAD
      && rootCluster <= MaxCluster()
    }

    /** The geometry the rest of the model works on. */
    ghost predicate Valid() {
      && 0 < sectorsPerCluster
      && 0 < numberOfFats
      && 0 < fatSize
      && dataStart == fatStart + Times(numberOfFats, fatSize)
      && dataStart + DataSectors() <= totalSectors < U32
      && 0 < totalClusters
      && totalClusters + 2 <= fatSize * 128
      && MaxCluster() < BAD
      && InRange(rootCluster)
      && sectorsPerCluster < 256
    }
  }

  /** A mounted volume is fit for use exactly when it meets the four conditions mount leaves unchecked. */
  lemma MountedValid(g: Geometry)
    requires g.Mounted()
    ensures g.Valid() <==> g.Sound()
  {
    TimesIsProduct(g.numberOfFats, g.fatSize);
    TimesIsProduct(g.totalClusters, g.sectorsPerCluster);
    DivMulLess(g.totalSectors - g.dataStart, g.sectorsPerCluster);
    UnwrapStart(g.numberOfFats * g.fatSize, g.fatStart);
  }

  lemma DivMulLess(a: nat, n: nat)
    requires n > 0
    ensures a / n * n <= a
  {
  }

  lemma UnwrapStart(p: nat, s: nat)
    requires s < 0x1_0000
    ensures s + p < U32 ==> (s + p % U32) % U32 == s + p
  {
  }

  // ---------------------------------------------------------------- sectors of the FAT copies

  /** Sector `off` of one FAT copy. */
  function FatSector(g: Geometry, copy: nat, off: nat): nat {
    g.fatStart + Times(copy, g.fatSize) + off
  }

  lemma FatSectorBound(g: Geometry, copy: nat, off: nat)
    requires g.Valid() && copy < g.numberOfFats && off < g.fatSize
    ensures g.fatStart <= FatSector(g, copy, off) < g.dataStart
  {
    TimesLess(g.fatSize, copy, off, g.numberOfFats);
  }

  lemma FatSectorInjective(g: Geometry, k1: nat, o1: nat, k2: nat, o2: nat)
    requires o1 < g.fatSize && o2 < g.fatSize
    requires FatSector(g, k1, o1) == FatSector(g, k2, o2)
    ensures k1 == k2 && o1 == o2
  {
    if k1 < k2 {
      TimesLess(g.fatSize, k1, o1, k2);
    } else if k2 < k1 {
      TimesLess(g.fatSize, k2, o2, k1);
    }
  }

  // ---------------------------------------------------------------- sectors of the data area

  /** Index, within the data area, of sector s of cluster c. */
  function DataIndex(g: Geometry, c: nat, s: nat): (i: nat)
    requires g.InRange(c) && s < g.sectorsPerCluster
    ensures i < g.DataSectors()
  {
    TimesLess(g.sectorsPerCluster, c - 2, s, g.totalClusters);
    Times(c - 2, g.sectorsPerCluster) + s
  }

  /** Distinct sectors of distinct clusters never share a place on the disk. */
  lemma DataIndexInjective(g: Geometry, c1: nat, s1: nat, c2: nat, s2: nat)
    requires g.InRange(c1) && g.InRange(c2) && s1 < g.sectorsPerCluster && s2 < g.sectorsPerCluster
    requires DataIndex(g, c1, s1) == DataIndex(g, c2, s2)
    ensures c1 == c2 && s1 == s2
  {
    if c1 < c2 {
      TimesLess(g.sectorsPerCluster, c1 - 2, s1, c2 - 2);
    } else if c2 < c1 {
      TimesLess(g.sectorsPerCluster, c2 - 2, s2, c1 - 2);
    }
  }

  /** fat32_cluster_to_lba: 0 for a cluster outside the volume. */
  function ClusterToLba(g: Geometry, cluster: nat): nat {
    if cluster < 2 || cluster > g.MaxCluster() then 0
    else g.dataStart + Times(cluster - 2, g.sectorsPerCluster)
  }

  /** The result is never 0 for a cluster on the volume, it does not wrap around, and it names the cluster's sectors. */
  lemma ClusterToLbaPlaces(g: Geometry, c: nat, s: nat)
    requires g.Valid() && g.InRange(c) && s < g.sectorsPerCluster
    ensures ClusterToLba(g, c) != 0
    ensures ClusterToLba(g, c) + s == g.dataStart + DataIndex(g, c, s) < g.totalSectors < U32
  {
    var i := DataIndex(g, c, s);
    assert g.dataStart + i < g.dataStart + g.DataSectors();
  }

  // ---------------------------------------------------------------- the same in ordinary arithmetic

  /** The first sector of a cluster: the clusters stand in order from the start of the data area, which lies behind the FATs. */
  lemma ClusterToLbaIs(g: Geometry, c: nat)
    requires g.Valid()
    ensures ClusterToLba(g, c) == if 2 <= c <= g.totalClusters + 1 then g.dataStart + (c - 2) * g.sectorsPerCluster else 0
    ensures g.dataStart == g.fatStart + g.numberOfFats * g.fatSize
  {
    TimesIsProduct(g.numberOfFats, g.fatSize);
    if 2 <= c {
      TimesIsProduct(c - 2, g.sectorsPerCluster);
    }
  }

  /** And its other sectors follow. */
  lemma DataIndexIs(g: Geometry, c: nat, s: nat)
    requires g.InRange(c) && s < g.sectorsPerCluster
    ensures DataIndex(g, c, s) == (c - 2) * g.sectorsPerCluster + s
    ensures g.DataSectors() == g.totalClusters * g.sectorsPerCluster
  {
    TimesIsProduct(c - 2, g.sectorsPerCluster);
    TimesIsProduct(g.totalClusters, g.sectorsPerCluster);
  }

  /** The FAT copies stand one behind the other. */
  lemma FatSectorIs(g: Geometry, copy: nat, off: nat)
    ensures FatSector(g, copy, off) == g.fatStart + copy * g.fatSize + off
  {
    TimesIsProduct(copy, g.fatSize);
  }
}
