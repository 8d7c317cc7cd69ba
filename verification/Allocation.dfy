/** Following links on the volume, and taking clusters from it: zeroing, first-fit allocation, appending. */
module Allocation {
  import opened Bytes
  import opened Geometry
  import opened Volumes
  import opened FatTable
  import opened Chains

  /** w differs from v at most in the FAT entries of `entries` and in the sectors of `clusters`. */
  ghost predicate Confined(g: Geometry, v: View, w: View, entries: set<nat>, clusters: set<nat>) {
    && Fitted(g, v) && Fitted(g, w)
    && (forall c: nat | c < |v.fat| && c !in entries :: w.fat[c] == v.fat[c])
    && (forall c: nat, s: nat | g.InRange(c) && s < g.sectorsPerCluster && c !in clusters ::
          w.data[DataIndex(g, c, s)] == v.data[DataIndex(g, c, s)])
  }

  lemma ConfinedCompose(g: Geometry, u: View, v: View, w: View, e1: set<nat>, c1: set<nat>, e2: set<nat>, c2: set<nat>)
    requires Confined(g, u, v, e1, c1) && Confined(g, v, w, e2, c2)
    ensures Confined(g, u, w, e1 + e2, c1 + c2)
  {
  }

  /** The journal grew from `before` to `after`, and at every block boundary in between the FAT was one of `fats` and
      the view had strayed from v only within Confined. */
  ghost predicate Boundaries(g: Geometry, before: seq<View>, after: seq<View>, v: View, fats: set<seq<nat>>,
                             entries: set<nat>, clusters: set<nat>)
  {
    && before <= after
    && forall i | |before| <= i < |after| :: after[i].fat in fats && Confined(g, v, after[i], entries, clusters)
  }

  lemma BoundariesCompose(g: Geometry, a: seq<View>, b: seq<View>, c: seq<View>, v: View, w: View,
                          f1: set<seq<nat>>, e1: set<nat>, c1: set<nat>, f2: set<seq<nat>>, e2: set<nat>, c2: set<nat>)
    requires Boundaries(g, a, b, v, f1, e1, c1) && Confined(g, v, w, e1, c1) && Boundaries(g, b, c, w, f2, e2, c2)
    ensures Boundaries(g, a, c, v, f1 + f2, e1 + e2, c1 + c2)
  {
    forall i | |a| <= i < |c| ensures c[i].fat in f1 + f2 && Confined(g, v, c[i], e1 + e2, c1 + c2) {
      if i < |b| {
        assert c[i] == b[i];
      } else {
        ConfinedCompose(g, v, w, c[i], e1, c1, e2, c2);
      }
    }
  }

  ghost predicate Zeroed(g: Geometry, v: View, c: nat)
    requires Fitted(g, v) && g.InRange(c)
  {
    forall s: nat | s < g.sectorsPerCluster :: v.data[DataIndex(g, c, s)] == Zeros(512)
  }

  lemma SectorWriteConfined(g: Geometry, v: View, c: nat, s: nat, data: Sector)
    requires Fitted(g, v) && g.InRange(c) && s < g.sectorsPerCluster
    ensures Confined(g, v, v.(data := v.data[DataIndex(g, c, s) := data]), {}, {c})
  {
    forall c': nat, s': nat | g.InRange(c') && s' < g.sectorsPerCluster && c' != c
      ensures DataIndex(g, c', s') != DataIndex(g, c, s)
    {
      if DataIndex(g, c', s') == DataIndex(g, c, s) {
        DataIndexInjective(g, c', s', c, s);
      }
    }
  }

  /** fat32_next_cluster. */
  method NextCluster(fs: Volume, cluster: nat) returns (r: Status, next: nat)
    requires fs.Ready()
    modifies fs.sectorBuffer
    ensures !fs.g.InRange(cluster) ==> r == Error
    ensures fs.g.InRange(cluster) ==>
              match LinkOf(fs.Now().fat, cluster)
              case To(n) => r == Ok && next == n
              case End => r == EndOfFile && next == 0
              case Broken => r == Error
  {
    next := 0;
    if cluster < 2 {
      return Error, 0;
    }
    var maxCluster := fs.g.MaxCluster();
    if cluster > maxCluster {
      return Error, 0;
    }
    var value;
    r, value := ReadFatEntry(fs, cluster);
    if r != Ok {
      return;
    }
    if value >= EOC_MIN {
      return EndOfFile, 0;
    }
    if value == BAD {
      return Error, 0;
    }
    if value < 2 {
      return Error, 0;
    }
    if value > maxCluster {
      return Error, 0;
    }
    return Ok, value;
  }

  /** fat32_get_cluster_at: ends on every FAT, and agrees with Walk. */
  method GetClusterAt(fs: Volume, first: nat, clusterIndex: nat) returns (r: Status, cluster: nat)
    requires fs.Ready()
    modifies fs.sectorBuffer
    ensures first < 2 || clusterIndex >= fs.g.totalClusters ==> r == Error
    ensures fs.g.InRange(first) && clusterIndex < fs.g.totalClusters ==>
              (r, cluster) == Walk(fs.Now().fat, first, clusterIndex)
    ensures first > fs.g.MaxCluster() && clusterIndex < fs.g.totalClusters ==>
              (r, cluster) == if clusterIndex == 0 then (Ok, first) else (Error, 0)
  {
    hide Kept, ViewOf;
    cluster := 0;
    if first < 2 {
      return Error, 0;
    }
    var current := first;
    if clusterIndex >= fs.g.totalClusters {
      return Error, 0;
    }
    ghost var fat := fs.Now().fat;
    var i := 0;
    while i < clusterIndex
      invariant 0 <= i <= clusterIndex && (fs.g.InRange(first) ==> OnVolume(fat, current))
      invariant fs.g.InRange(first) ==> Walk(fat, first, clusterIndex) == Walk(fat, current, clusterIndex - i)
      invariant !fs.g.InRange(first) ==> i == 0 && current == first
    {
      var next;
      r, next := NextCluster(fs, current);
      if r != Ok {
        return r, 0;
      }
      current := next;
      i := i + 1;
    }
    return Ok, current;
  }

  /** fat32_zero_cluster. */
  method ZeroCluster(fs: Volume, cluster: nat) returns (r: Status)
    requires fs.Ready()
    modifies fs`journal, fs.device
    ensures fs.Ready()
    ensures r == if fs.g.InRange(cluster) then Ok else Error
    ensures r != Ok ==> fs.Now() == old(fs.Now()) && fs.journal == old(fs.journal)
    ensures r == Ok ==> Zeroed(fs.g, fs.Now(), cluster) && fs.Now().fat == old(fs.Now()).fat
    ensures r == Ok ==> Confined(fs.g, old(fs.Now()), fs.Now(), {}, {cluster})
    ensures r == Ok ==> Boundaries(fs.g, old(fs.journal), fs.journal, old(fs.Now()), {fs.Now().fat}, {}, {cluster})
  {
    hide Kept, ViewOf;
    if cluster < 2 || cluster > fs.g.totalClusters + 1 {
      return Error;
    }
    var i := 0;
    while i < fs.g.sectorsPerCluster
      invariant 0 <= i <= fs.g.sectorsPerCluster && fs.Ready()
      invariant forall s: nat | s < i :: fs.Now().data[DataIndex(fs.g, cluster, s)] == Zeros(512)
      invariant fs.Now().fat == old(fs.Now()).fat
      invariant Confined(fs.g, old(fs.Now()), fs.Now(), {}, {cluster})
      invariant Boundaries(fs.g, old(fs.journal), fs.journal, old(fs.Now()), {fs.Now().fat}, {}, {cluster})
    {
      var lba := ClusterToLba(fs.g, cluster);
      ClusterToLbaPlaces(fs.g, cluster, i);
      if lba == 0 {
        return Error;
      }
      ghost var v := fs.Now();
      SectorWriteConfined(fs.g, v, cluster, i, Zeros(512));
      var ok := WriteDataSector(fs, lba + i, cluster, i, Zeros(512));
      if !ok {
        return IoError;
      }
      ConfinedCompose(fs.g, old(fs.Now()), v, fs.Now(), {}, {cluster}, {}, {cluster});
      assert {cluster} + {cluster} == {cluster};
      forall s: nat | s < i ensures DataIndex(fs.g, cluster, s) != DataIndex(fs.g, cluster, i) {
      }
      i := i + 1;
    }
    return Ok;
  }

  ghost predicate Full(g: Geometry, v: View) {
    Fitted(g, v) && forall c: nat | g.InRange(c) :: v.fat[c] != 0
  }

  ghost function FreeSet(fat: seq<nat>): set<nat> {
    set c: nat | 2 <= c < |fat| && fat[c] == 0
  }

  /** How many clusters are free. */
  ghost function FreeCount(fat: seq<nat>): nat {
    |FreeSet(fat)|
  }

  lemma FullMeans(g: Geometry, v: View)
    requires Fitted(g, v)
    ensures Full(g, v) <==> FreeCount(v.fat) == 0
  {
    if FreeCount(v.fat) == 0 {
      forall c: nat | g.InRange(c) ensures v.fat[c] != 0 {
        assert c !in FreeSet(v.fat);
      }
    } else {
      var c :| c in FreeSet(v.fat);
      assert g.InRange(c);
    }
  }

  /** Taking a free cluster, and linking it behind another, costs one. */
  lemma OneTaken(fat: seq<nat>, c: nat, last: nat)
    requires OnVolume(fat, c) && fat[c] == 0 && OnVolume(fat, last) && fat[last] != 0
    ensures FreeCount(fat[c := EOC]) == FreeCount(fat) - 1
    ensures FreeCount(fat[c := EOC][last := c]) == FreeCount(fat) - 1
  {
    assert FreeSet(fat[c := EOC]) == FreeSet(fat) - {c};
    assert FreeSet(fat[c := EOC][last := c]) == FreeSet(fat) - {c};
  }

  /** What fat32_allocate_cluster does once it has found a free cluster. */
  method TakeCluster(fs: Volume, cluster: nat) returns (r: Status)
    requires fs.Ready() && fs.g.InRange(cluster)
    modifies fs`journal, fs.device, fs.sectorBuffer
    ensures fs.Ready() && r == Ok
    ensures fs.Now().fat == old(fs.Now()).fat[cluster := EOC] && Zeroed(fs.g, fs.Now(), cluster)
    ensures Confined(fs.g, old(fs.Now()), fs.Now(), {cluster}, {cluster})
    ensures Boundaries(fs.g, old(fs.journal), fs.journal, old(fs.Now()), {fs.Now().fat}, {cluster}, {cluster})
  {
    r := WriteFatEntry(fs, cluster, EOC);
    if r != Ok {
      return;
    }
    ghost var v := fs.Now();
    ghost var j := fs.journal;
    r := ZeroCluster(fs, cluster);
    assert {cluster} + {} == {cluster} == {} + {cluster} && {v.fat} + {v.fat} == {v.fat};
    ConfinedCompose(fs.g, old(fs.Now()), v, fs.Now(), {cluster}, {}, {}, {cluster});
    BoundariesCompose(fs.g, old(fs.journal), j, fs.journal, old(fs.Now()), v, {v.fat}, {cluster}, {}, {v.fat}, {}, {cluster});
  }

  /** fat32_allocate_cluster: the lowest free cluster, marked end-of-chain and zeroed; failure means none is free. */
  method AllocateCluster(fs: Volume) returns (r: Status, cluster: nat)
    requires fs.Ready()
    modifies fs`journal, fs.device, fs.sectorBuffer
    ensures fs.Ready()
    ensures r == if Full(fs.g, old(fs.Now())) then Error else Ok
    ensures r != Ok ==> fs.Now() == old(fs.Now()) && fs.journal == old(fs.journal)
    ensures r == Ok ==> fs.g.InRange(cluster) && old(fs.Now()).fat[cluster] == 0
    ensures r == Ok ==> forall c: nat | 2 <= c < cluster :: old(fs.Now()).fat[c] != 0
    ensures r == Ok ==> fs.Now().fat == old(fs.Now()).fat[cluster := EOC] && Zeroed(fs.g, fs.Now(), cluster)
    ensures r == Ok ==> Confined(fs.g, old(fs.Now()), fs.Now(), {cluster}, {cluster})
    ensures r == Ok ==> Boundaries(fs.g, old(fs.journal), fs.journal, old(fs.Now()), {fs.Now().fat}, {cluster}, {cluster})
  {
    hide Kept, ViewOf, Zeroed, Confined;
    r, cluster := Error, 0;
    if fs.g.totalClusters == 0 {
      return;
    }
    var maxCluster := fs.g.MaxCluster();
    var current := 2;
    while current <= maxCluster
      invariant 2 <= current <= maxCluster + 1
      invariant fs.device.sectors == old(fs.device.sectors) && fs.device.trace == old(fs.device.trace)
      invariant fs.journal == old(fs.journal)
      invariant forall c: nat | 2 <= c < current :: old(fs.Now()).fat[c] != 0
    {
      var value;
      r, value := ReadFatEntry(fs, current);
      if r != Ok {
        return;
      }
      if value == 0 {
        cluster := current;
        r := TakeCluster(fs, current);
        return;
      }
      current := current + 1;
    }
    return Error, 0;
  }

  /** fat32_append_cluster: allocate, then link behind `current`; if there is no such cluster, give back what was
      allocated. */
  method AppendCluster(fs: Volume, current: nat) returns (r: Status, cluster: nat)
    requires fs.Ready()
    modifies fs`journal, fs.device, fs.sectorBuffer
    ensures fs.Ready()
    ensures r == if Full(fs.g, old(fs.Now())) || !fs.g.InRange(current) then Error else Ok
    ensures r != Ok ==> fs.Now().fat == old(fs.Now()).fat
    ensures r != Ok && fs.g.InRange(current) ==> fs.Now() == old(fs.Now()) && fs.journal == old(fs.journal)
    ensures r == Ok ==> fs.g.InRange(cluster) && old(fs.Now()).fat[cluster] == 0
    ensures r == Ok ==> forall c: nat | 2 <= c < cluster :: old(fs.Now()).fat[c] != 0
    ensures r == Ok ==> fs.Now().fat == old(fs.Now()).fat[cluster := EOC][current := cluster]
    ensures r == Ok ==> Zeroed(fs.g, fs.Now(), cluster) && Confined(fs.g, old(fs.Now()), fs.Now(), {cluster, current}, {cluster})
    ensures r == Ok ==> Boundaries(fs.g, old(fs.journal), fs.journal, old(fs.Now()),
                                   {old(fs.Now()).fat[cluster := EOC], fs.Now().fat}, {cluster, current}, {cluster})
  {
    hide Kept, ViewOf;
    r, cluster := Error, 0;
    if current < 2 {
      return;
    }
    r, cluster := AllocateCluster(fs);
    if r != Ok {
      return;
    }
    ghost var v := fs.Now();
    ghost var j := fs.journal;
    r := WriteFatEntry(fs, current, cluster);
    if r != Ok {
      var undone := WriteFatEntry(fs, cluster, 0);
      assert old(fs.Now()).fat[cluster := EOC][cluster := 0] == old(fs.Now()).fat;
      return;
    }
    assert cluster % VALUE_MOD == cluster;
    assert {cluster} + {current} == {cluster, current} && {cluster} + {} == {cluster};
    assert {v.fat} + {fs.Now().fat} == {v.fat, fs.Now().fat};
    assert Boundaries(fs.g, j, fs.journal, v, {fs.Now().fat}, {current}, {});
    ConfinedCompose(fs.g, old(fs.Now()), v, fs.Now(), {cluster}, {cluster}, {current}, {});
    BoundariesCompose(fs.g, old(fs.journal), j, fs.journal, old(fs.Now()), v,
                      {v.fat}, {cluster}, {cluster}, {fs.Now().fat}, {current}, {});
  }
}
