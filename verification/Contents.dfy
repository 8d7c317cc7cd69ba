/** The byte string a cluster chain holds. */
module Contents {
  import opened Bytes
  import opened Geometry
  import opened Volumes
  import opened Chains
  import opened Allocation

  ghost predicate Placed(g: Geometry, ch: seq<nat>) {
    g.Valid() && forall i | 0 <= i < |ch| :: g.InRange(ch[i])
  }

  /** The number of sectors in m clusters. */
  function Sectors(g: Geometry, m: nat): nat {
    Times(m, g.sectorsPerCluster)
  }

  /** Where, in the data area, sector k of the chain is. */
  ghost function ChainSector(g: Geometry, ch: seq<nat>, k: nat): (i: nat)
    requires Placed(g, ch) && k < Sectors(g, |ch|)
    ensures i < g.DataSectors()
  {
    QuotLess(k, g.sectorsPerCluster, |ch|);
    DataIndex(g, ch[Quot(k, g.sectorsPerCluster)], Rem(k, g.sectorsPerCluster))
  }

  ghost function ChainByte(g: Geometry, v: View, ch: seq<nat>, p: nat): byte
    requires Placed(g, ch) && Fitted(g, v) && p < 512 * Sectors(g, |ch|)
  {
    v.data[ChainSector(g, ch, p / 512)][p % 512]
  }

  /** All the bytes of a chain, in order. */
  ghost function ChainBytes(g: Geometry, v: View, ch: seq<nat>): (b: seq<byte>)
    requires Placed(g, ch) && Fitted(g, v)
    ensures |b| == 512 * Sectors(g, |ch|)
  {
    seq(512 * Sectors(g, |ch|), p requires 0 <= p < 512 * Sectors(g, |ch|) => ChainByte(g, v, ch, p))
  }

  lemma ChainSectorOf(g: Geometry, ch: seq<nat>, k: nat)
    requires Placed(g, ch) && k < Sectors(g, |ch|)
    ensures Quot(k, g.sectorsPerCluster) < |ch|
    ensures ChainSector(g, ch, k) == DataIndex(g, ch[Quot(k, g.sectorsPerCluster)], Rem(k, g.sectorsPerCluster))
  {
    QuotLess(k, g.sectorsPerCluster, |ch|);
  }

  lemma ChainSectorInjective(g: Geometry, ch: seq<nat>, k1: nat, k2: nat)
    requires Placed(g, ch) && Distinct(ch) && k1 < Sectors(g, |ch|) && k2 < Sectors(g, |ch|)
    requires ChainSector(g, ch, k1) == ChainSector(g, ch, k2)
    ensures k1 == k2
  {
    var n := g.sectorsPerCluster;
    ChainSectorOf(g, ch, k1);
    ChainSectorOf(g, ch, k2);
    DataIndexInjective(g, ch[Quot(k1, n)], Rem(k1, n), ch[Quot(k2, n)], Rem(k2, n));
    QuotRem(k1, n);
    QuotRem(k2, n);
  }

  /** A run of 512 bytes of the chain is one sector of the disk. */
  lemma ChainBytesSector(g: Geometry, v: View, ch: seq<nat>, k: nat)
    requires Placed(g, ch) && Fitted(g, v) && k < Sectors(g, |ch|)
    ensures ChainBytes(g, v, ch)[512 * k..512 * k + 512] == v.data[ChainSector(g, ch, k)]
  {
    forall j | 0 <= j < 512
      ensures ChainBytes(g, v, ch)[512 * k + j] == v.data[ChainSector(g, ch, k)][j]
    {
      assert (512 * k + j) / 512 == k && (512 * k + j) % 512 == j;
      assert ChainByte(g, v, ch, 512 * k + j) == v.data[ChainSector(g, ch, k)][j];
    }
  }

  /** Overwriting sector k of a chain splices that sector into the chain's bytes. */
  lemma WriteChainSector(g: Geometry, v: View, ch: seq<nat>, k: nat, data: Sector)
    requires Placed(g, ch) && Distinct(ch) && Fitted(g, v) && k < Sectors(g, |ch|)
    ensures ChainBytes(g, v.(data := v.data[ChainSector(g, ch, k) := data]), ch)
         == Splice(ChainBytes(g, v, ch), 512 * k, data)
  {
    var v' := v.(data := v.data[ChainSector(g, ch, k) := data]);
    forall p | 0 <= p < 512 * Sectors(g, |ch|)
      ensures ChainByte(g, v', ch, p) == Splice(ChainBytes(g, v, ch), 512 * k, data)[p]
    {
      if p / 512 == k {
        assert p % 512 == p - 512 * k;
      } else {
        if ChainSector(g, ch, p / 512) == ChainSector(g, ch, k) {
          ChainSectorInjective(g, ch, p / 512, k);
        }
        assert !(512 * k <= p < 512 * k + 512);
        assert ChainByte(g, v', ch, p) == ChainByte(g, v, ch, p);
      }
    }
  }

  /** A chain none of whose clusters' sectors changed holds the same bytes. */
  lemma ChainBytesFrame(g: Geometry, v: View, w: View, ch: seq<nat>, entries: set<nat>, clusters: set<nat>)
    requires Placed(g, ch) && Confined(g, v, w, entries, clusters)
    requires forall c | c in ch :: c !in clusters
    ensures ChainBytes(g, w, ch) == ChainBytes(g, v, ch)
  {
    forall p | 0 <= p < 512 * Sectors(g, |ch|)
      ensures ChainByte(g, w, ch, p) == ChainByte(g, v, ch, p)
    {
      ChainSectorOf(g, ch, p / 512);
      assert ch[Quot(p / 512, g.sectorsPerCluster)] in ch;
    }
  }

  lemma TimesMonotone(a: nat, b: nat, n: nat)
    requires a <= b && n > 0
    ensures Times(a, n) <= Times(b, n)
  {
    if a < b {
      TimesLess(n, a, 0, b);
    }
  }

  /** The first m clusters hold the first bytes. */
  lemma ChainBytesPrefix(g: Geometry, v: View, ch: seq<nat>, m: nat)
    requires Placed(g, ch) && Fitted(g, v) && m <= |ch|
    ensures Placed(g, ch[..m]) && Sectors(g, m) <= Sectors(g, |ch|)
    ensures ChainBytes(g, v, ch[..m]) == ChainBytes(g, v, ch)[..512 * Sectors(g, m)]
  {
    TimesMonotone(m, |ch|, g.sectorsPerCluster);
    forall p | 0 <= p < 512 * Sectors(g, m)
      ensures ChainByte(g, v, ch[..m], p) == ChainByte(g, v, ch, p)
    {
      ChainSectorOf(g, ch[..m], p / 512);
      ChainSectorOf(g, ch, p / 512);
    }
  }

  /** A zeroed cluster at the end adds a cluster's worth of zero bytes. */
  lemma ChainBytesExtend(g: Geometry, v: View, ch: seq<nat>, c: nat)
    requires Placed(g, ch) && Fitted(g, v) && g.InRange(c) && Zeroed(g, v, c)
    ensures Placed(g, ch + [c]) && Sectors(g, |ch| + 1) == Sectors(g, |ch|) + g.sectorsPerCluster
    ensures ChainBytes(g, v, ch + [c]) == ChainBytes(g, v, ch) + Zeros(g.ClusterSize())
  {
    var longer := ch + [c];
    var n := g.sectorsPerCluster;
    ChainBytesPrefix(g, v, longer, |ch|);
    assert longer[..|ch|] == ch;
    forall p | 512 * Sectors(g, |ch|) <= p < 512 * Sectors(g, |longer|)
      ensures ChainByte(g, v, longer, p) == 0
    {
      ChainSectorOf(g, longer, p / 512);
      QuotLess(p / 512, n, |ch|);
      assert longer[Quot(p / 512, n)] == c;
      assert v.data[DataIndex(g, c, Rem(p / 512, n))] == Zeros(512);
    }
    assert ChainBytes(g, v, longer)[..512 * Sectors(g, |ch|)] + Zeros(g.ClusterSize()) == ChainBytes(g, v, longer);
  }
}
