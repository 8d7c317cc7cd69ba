/** The starting point of every run: a volume with nothing but an empty root directory. */
module Formatted {
  import opened Bytes
  import opened Geometry
  import opened Volumes
  import opened FatTable
  import opened Chains
  import opened Allocation
  import opened Contents
  import opened Slots
  import opened Trees
  import opened TreeSteps
  import opened NameMaps
  import opened EmptyDirs
  import opened FileTree

  /** One zeroed cluster for the root, marked last, and every other entry free. */
  ghost predicate Empty(g: Geometry, v: View) {
    && g.Valid() && Fitted(g, v)
    && v.fat[g.rootCluster] >= EOC_MIN
    && (forall c: nat | OnVolume(v.fat, c) && c != g.rootCluster :: v.fat[c] == 0)
    && Zeroed(g, v, g.rootCluster)
  }

  function RootOnly(g: Geometry): Tree {
    Tree(map[g.rootCluster := [g.rootCluster]], map[g.rootCluster := 0], map[], map[])
  }

  ghost predicate AllUnused(ss: seq<Slot>) {
    forall i | 0 <= i < |ss| :: ss[i] == Zeros(32)
  }

  lemma UnusedFacts(ss: seq<Slot>)
    requires AllUnused(ss)
    ensures MapLike(ss) && NoLive(ss) && NoLabels(ss) && Bindings(ss) == map[]
  {
  }

  /** The slots of a zeroed cluster. */
  lemma ZeroedSlots(g: Geometry, v: View, c: nat)
    requires g.Valid() && Fitted(g, v) && g.InRange(c) && Zeroed(g, v, c)
    ensures Placed(g, [c]) && AllUnused(SlotsOf(ChainBytes(g, v, [c])))
  {
    hide ChainBytes, SlotsOf;
    var ch, n := [c], g.sectorsPerCluster;
    var ss := SlotsOf(ChainBytes(g, v, ch));
    assert Times(1, n) == n by { TimesIsProduct(1, n); }
    forall j: nat | j < |ss| ensures ss[j] == Zeros(32) {
      QuotRemUnique(j / 16, n, 0, j / 16);
      ChainSectorOf(g, ch, j / 16);
      RecordInSector(g, v, ch, j);
      assert v.data[DataIndex(g, c, j / 16)] == Zeros(512);
    }
  }

  lemma RootShape(g: Geometry, v: View)
    requires Empty(g, v)
    ensures Shape(g, v, RootOnly(g))
  {
  }

  lemma RootSlots(g: Geometry, v: View)
    requires Empty(g, v)
    ensures Shape(g, v, RootOnly(g))
    ensures var m := AllSlots(g, v, RootOnly(g)); m.Keys == {g.rootCluster} && AllUnused(m[g.rootCluster])
  {
    hide ChainBytes, SlotsOf, Zeroed, IsChain, AllUnused;
    RootShape(g, v);
    ZeroedSlots(g, v, g.rootCluster);
  }

  lemma NothingLive(m: Dirs, root: nat)
    requires m.Keys == {root} && AllUnused(m[root])
    ensures forall d: nat, i: nat :: !LiveIn(m, d, i)
    ensures AllMapLike(m) && TailUnused(m[root]) && DotsFirst(m[root])
  {
    hide Live, Bindings;
    UnusedFacts(m[root]);
  }

  /** Such a volume is good, and its tree of names is a root without names. */
  lemma EmptyIsGood(g: Geometry, v: View)
    requires Empty(g, v)
    ensures Good(g, v, RootOnly(g)) && TreeOf(g, v, RootOnly(g)) == map[g.rootCluster := map[]]
  {
    hide AllSlots, Zeroed, IsChain, TailUnused, DotsFirst, LiveIn, AllUnused, MapLike, Bindings, NamesOf;
    var t := RootOnly(g);
    RootSlots(g, v);
    var m := AllSlots(g, v, t);
    NothingLive(m, g.rootCluster);
    OneClusterSlots(g, v, t, g.rootCluster);
    RootAccounted(g, v);
    UnusedFacts(m[g.rootCluster]);
    MapLikeUnique(m, g.rootCluster);
    assert NamesOf(g, v, t, m[g.rootCluster]).Keys == {};
  }

  lemma RootAccounted(g: Geometry, v: View)
    requires Empty(g, v)
    ensures Accounted(v, RootOnly(g))
  {
    var t := RootOnly(g);
    assert t.chains[g.rootCluster] == [g.rootCluster];
    forall c ensures Owned(t, c) <==> c == g.rootCluster {
      if c == g.rootCluster {
        assert g.rootCluster in t.chains && c in t.chains[g.rootCluster];
      }
    }
  }

  /** There is one for every geometry mount leaves fit for use. */
  lemma EmptyExists(g: Geometry) returns (v: View)
    requires g.Valid()
    ensures Empty(g, v)
  {
    v := View(seq(g.totalClusters + 2, c => if c == g.rootCluster then EOC else 0), seq(g.DataSectors(), i => Zeros(512)));
    forall s: nat | s < g.sectorsPerCluster ensures v.data[DataIndex(g, g.rootCluster, s)] == Zeros(512) {
      assert DataIndex(g, g.rootCluster, s) < g.DataSectors();
    }
  }

  /** And there is such a geometry. */
  lemma GeometryExists() returns (g: Geometry)
    ensures g.Mounted() && g.Valid() && g.ClusterSize() == 512 && g.totalClusters == 68768
  {
    g := Geometry(1, 2, 600, 70000, 2, 32, 1232, 68768);
    TimesIsProduct(2, 600);
    TimesIsProduct(68768, 1);
  }

  /** The clusters below n. */
  function UpTo(n: nat): set<nat> {
    if n <= 2 then {} else UpTo(n - 1) + {n - 1}
  }

  lemma {:induction false} UpToCount(n: nat)
    requires n >= 2
    ensures |UpTo(n)| == n - 2 && forall c: nat :: c in UpTo(n) <==> 2 <= c < n
    decreases n
  {
    if n > 2 {
      UpToCount(n - 1);
    }
  }

  /** Every cluster but the root's is free. */
  lemma EmptyFree(g: Geometry, v: View)
    requires Empty(g, v)
    ensures FreeCount(v.fat) == g.totalClusters - 1
  {
    hide Zeroed;
    UpToCount(|v.fat|);
    assert FreeSet(v.fat) == UpTo(|v.fat|) - {g.rootCluster};
  }

  /** A disk of zeros: no cluster is in use, and no byte is set. */
  lemma BlankView(g: Geometry, d: Disk)
    requires Fits(g, d) && forall i | 0 <= i < |d| :: d[i] == Zeros(512)
    ensures ViewOf(g, d) == View(seq(g.totalClusters + 2, c => 0), seq(g.DataSectors(), i => Zeros(512)))
  {
    forall c: nat | c < g.totalClusters + 2 ensures RawEntry(g, d, 0, c) == 0 {
      FatSectorBound(g, 0, c / 128);
    }
    assert ViewOf(g, d).data == seq(g.DataSectors(), i => Zeros(512));
    assert ViewOf(g, d).fat == seq(g.totalClusters + 2, c => 0);
  }

  /** A freshly formatted volume: a disk of zeros, with the root's cluster marked last. */
  method Format() returns (fs: Volume)
    ensures fresh(fs) && fresh(fs.device) && fresh(fs.sectorBuffer)
    ensures fs.Ready() && Empty(fs.g, fs.Now()) && fs.g.ClusterSize() == 512 && FreeCount(fs.Now().fat) == 68767
  {
    hide Kept, ViewOf, FreeCount;
    var g := Geometry(1, 2, 600, 70000, 2, 32, 1232, 68768);
    TimesIsProduct(2, 600);
    TimesIsProduct(68768, 1);
    var device := new BlockDevice(SECTOR, seq(70000, i => Zeros(512)));
    BlankView(g, device.sectors);
    var buffer := new byte[SECTOR];
    fs := new Volume(g, device, buffer);
    var r := WriteFatEntry(fs, 2, EOC);
    EmptyFree(g, fs.Now());
  }
}
