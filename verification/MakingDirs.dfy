/** fat32_initialize_directory and fat32_mkdir. */
module MakingDirs {
  import opened Bytes
  import opened Geometry
  import opened Volumes
  import opened Chains
  import opened Allocation
  import opened Contents
  import opened FileRead
  import opened Slots
  import opened Names83
  import opened LongNames
  import opened Trees
  import opened TreeSteps
  import opened TreeChains
  import opened TreeUnique
  import opened TreeNames
  import opened SlotStore
  import opened FileWrite
  import opened Paths
  import opened NameMaps
  import opened EmptyDirs
  import opened Plans
  import opened DeadNames
  import opened Locating
  import opened Creating

  // ---------------------------------------------------------------- "." and ".."

  function DotName(dots: nat): (name: Name83)
    requires 1 <= dots <= 2
  {
    seq(11, i => if i < dots then DOT else SPACE)
  }

  function DotSlot(dots: nat, cluster: nat): (s: Slot)
    requires 1 <= dots <= 2 && cluster < U32
  {
    EntrySlot(DotName(dots), ATTR_DIRECTORY, cluster, 0)
  }

  /** The first sector of a new directory. */
  function DotSector(cluster: nat, parent: nat): Sector
    requires cluster < U32 && parent < U32
  {
    DotSlot(1, cluster) + DotSlot(2, parent) + Zeros(448)
  }

  /** The stores for one of the two entries, into a cleared part of the buffer. */
  method FillDot(buffer: array<byte>, offset: nat, dots: nat, cluster: nat)
    requires buffer.Length == 512 && offset + 32 <= 512 && 1 <= dots <= 2 && cluster < U32
    requires buffer[offset..offset + 32] == Zeros(32)
    modifies buffer
    ensures buffer[..] == Splice(old(buffer[..]), offset, DotSlot(dots, cluster))
  {
    ghost var b := buffer[..];
    var i := 0;
    while i < 11
      invariant 0 <= i <= 11
      invariant forall k | 0 <= k < 512 :: buffer[k] == if offset <= k < offset + i then SPACE else b[k]
    {
      buffer[offset + i] := SPACE;
      i := i + 1;
    }
    buffer[offset] := DOT;
    if dots == 2 {
      buffer[offset + 1] := DOT;
    }
    buffer[offset + 11] := ATTR_DIRECTORY;
    ghost var s := DotName(dots) + [ATTR_DIRECTORY as byte] + Zeros(20);
    assert buffer[..] == Splice(b, offset, s) by {
      forall k | 0 <= k < 512 ensures buffer[k] == Splice(b, offset, s)[k] {
        if offset <= k < offset + 32 {
          assert b[k] == b[offset..offset + 32][k - offset];
        }
      }
    }
    FillRest(buffer, offset, cluster, 0, b, s);
    DotInSlot(DotName(dots), cluster);
  }

  lemma DotInSlot(name: Name83, cluster: nat)
    requires cluster < U32
    ensures Splice(Splice(Splice(name + [ATTR_DIRECTORY as byte] + Zeros(20), 20, Enc16(cluster / 0x1_0000)),
                          26, Enc16(cluster % 0x1_0000)), 28, Enc32(0))
         == EntrySlot(name, ATTR_DIRECTORY, cluster, 0)
  {
    EntryInSlot(name, ATTR_DIRECTORY, cluster, 0);
    assert Splice(name + Zeros(21), 11, [ATTR_DIRECTORY as byte]) == name + [ATTR_DIRECTORY as byte] + Zeros(20);
  }

  lemma DotsInSector(cluster: nat, parent: nat)
    requires cluster < U32 && parent < U32
    ensures Splice(Zeros(512), 0, DotSlot(1, cluster))[32..64] == Zeros(32)
    ensures Splice(Splice(Zeros(512), 0, DotSlot(1, cluster)), 32, DotSlot(2, parent)) == DotSector(cluster, parent)
  {
  }

  /** fat32_initialize_directory, on the cluster fat32_allocate_cluster has just zeroed. */
  method InitializeDirectory(fs: Volume, directoryCluster: nat, parentCluster: nat) returns (r: Status)
    requires fs.Ready() && fs.g.InRange(directoryCluster) && fs.g.InRange(parentCluster)
    requires Zeroed(fs.g, fs.Now(), directoryCluster)
    modifies fs`journal, fs.device, fs.sectorBuffer
    ensures fs.Ready() && r == Ok && fs.journal == old(fs.journal) + [fs.Now()]
    ensures fs.Now() == old(fs.Now()).(data := old(fs.Now()).data[DataIndex(fs.g, directoryCluster, 0) :=
                                                                  DotSector(directoryCluster, parentCluster)])
  {
    hide Kept, ViewOf, DotSector, DotSlot;
    if directoryCluster < 2 || directoryCluster > fs.g.totalClusters + 1 {
      return Error;
    }
    if parentCluster < 2 || parentCluster > fs.g.totalClusters + 1 {
      return Error;
    }
    ClusterToLbaPlaces(fs.g, directoryCluster, 0);
    var lba := ClusterToLba(fs.g, directoryCluster);
    if lba == 0 {
      return Error;
    }
    var ok := ReadDataSector(fs, lba, directoryCluster, 0);
    if !ok {
      return IoError;
    }
    DotsInSector(directoryCluster, parentCluster);
    assert Zeros(512)[0..32] == Zeros(32);
    FillDot(fs.sectorBuffer, 0, 1, directoryCluster);
    FillDot(fs.sectorBuffer, 32, 2, parentCluster);
    ok := WriteDataSector(fs, lba, directoryCluster, 0, fs.sectorBuffer[..]);
    if !ok {
      return IoError;
    }
    return Ok;
  }

  // ---------------------------------------------------------------- the new directory's slots

  /** ss is "." and ".." followed by slots never used. */
  ghost predicate FreshDir(ss: seq<Slot>, cluster: nat, parent: nat) {
    && cluster < U32 && parent < U32 && |ss| >= 2
    && ss[0] == DotSlot(1, cluster) && ss[1] == DotSlot(2, parent)
    && forall j | 2 <= j < |ss| :: ss[j] == Zeros(32)
  }

  lemma DotSlotFacts(dots: nat, cluster: nat)
    requires 1 <= dots <= 2 && cluster < U32
    ensures var s := DotSlot(dots, cluster);
            IsDot(s) && !Live(s) && !IsFree(s) && !IsLong(s) && s[0] == DOT && !IsLabel(s) && Ignored(s)
  {
    EntrySlotFields(DotName(dots), ATTR_DIRECTORY, cluster, 0);
    var s := DotSlot(dots, cluster);
    assert s[0] == NameOf(s)[0] && s[1] == NameOf(s)[1] && s[2] == NameOf(s)[2];
  }

  /** A new directory is an empty map, and both ways of asking say it is empty. */
  lemma FreshDirFacts(ss: seq<Slot>, cluster: nat, parent: nat)
    requires FreshDir(ss, cluster, parent)
    ensures TailUnused(ss) && DotsFirst(ss) && NoLive(ss) && LooksEmpty(ss)
    ensures MapLike(ss) && NoLabels(ss) && Bindings(ss) == map[]
  {
    hide DotSlot;
    DotSlotFacts(1, cluster);
    DotSlotFacts(2, parent);
    forall j | 0 <= j < |ss| ensures !Live(ss[j]) && (IsDot(ss[j]) ==> j < 2) && (IsFree(ss[j]) <==> j >= 2) {
    }
  }

  /** The slots of a chain of one cluster whose first sector is s and whose other sectors are zero. */
  lemma FreshSlots(g: Geometry, w: View, c: nat, parent: nat)
    requires g.Valid() && Fitted(g, w) && g.InRange(c) && c < U32 && parent < U32
    requires w.data[DataIndex(g, c, 0)] == DotSector(c, parent)
    requires forall s: nat | 0 < s < g.sectorsPerCluster :: w.data[DataIndex(g, c, s)] == Zeros(512)
    ensures Placed(g, [c]) && FreshDir(SlotsOf(ChainBytes(g, w, [c])), c, parent)
  {
    hide DotSector, DotSlot, ChainBytes, SlotsOf;
    var ch, n := [c], g.sectorsPerCluster;
    var ss := SlotsOf(ChainBytes(g, w, ch));
    assert Times(1, n) == n by { TimesIsProduct(1, n); }
    forall j: nat | j < |ss| ensures ss[j] == SlotAt(w.data[DataIndex(g, c, j / 16)], j % 16) {
      QuotRemUnique(j / 16, n, 0, j / 16);
      ChainSectorOf(g, ch, j / 16);
      RecordInSector(g, w, ch, j);
    }
    DotSectorSlots(c, parent);
    forall j: nat | 2 <= j < |ss| ensures ss[j] == Zeros(32) {
      if j >= 16 {
        assert w.data[DataIndex(g, c, j / 16)] == Zeros(512);
      }
    }
  }

  lemma DotSectorSlots(cluster: nat, parent: nat)
    requires cluster < U32 && parent < U32
    ensures SlotAt(DotSector(cluster, parent), 0) == DotSlot(1, cluster)
    ensures SlotAt(DotSector(cluster, parent), 1) == DotSlot(2, parent)
    ensures forall k | 2 <= k < 16 :: SlotAt(DotSector(cluster, parent), k) == Zeros(32)
  {
    hide DotSlot;
  }

  // ---------------------------------------------------------------- the tree

  /** t with an empty directory at cluster c, one level below d. */
  function WithDirectory(t: Tree, c: nat, d: nat): Tree
    requires d in t.dirs
  {
    t.(chains := t.chains[c := [c]], dirs := t.dirs[c := t.dirs[d] + 1])
  }

  /** w is v after a cluster was taken and made a directory. */
  ghost predicate DirectoryTaken(g: Geometry, v: View, w: View, c: nat, parent: nat) {
    && Took(g, v, w, c) && Fitted(g, w) && c < U32 && parent < U32 && g.Valid()
    && w.data[DataIndex(g, c, 0)] == DotSector(c, parent)
    && forall s: nat | 0 < s < g.sectorsPerCluster :: w.data[DataIndex(g, c, s)] == Zeros(512)
  }

  lemma WithDirectoryShape(g: Geometry, v: View, t: Tree, w: View, c: nat, d: nat)
    requires Shape(g, w, WithChain(t, c, [c])) && Shape(g, w, t) && d in t.dirs && c !in t.chains
    ensures Shape(g, w, WithDirectory(t, c, d))
  {
    hide IsChain;
  }

  /** The old chains hold what they held. */
  lemma WithDirectoryBytes(g: Geometry, v: View, t: Tree, w: View, c: nat, d: nat)
    requires Safe(g, v, t) && Took(g, v, w, c) && d in t.dirs
    ensures c !in t.chains && Shape(g, v, t) && Shape(g, w, WithDirectory(t, c, d))
    ensures forall k | k in t.chains :: BytesAt(g, w, WithDirectory(t, c, d), k) == BytesAt(g, v, t, k)
  {
    hide Safe, Confined, IsChain, ChainBytes, AllSlots;
    var t' := WithDirectory(t, c, d);
    SafeFacts(g, v, t);
    ShapeFacts(g, v, t);
    NewChain(g, v, t, w, c);
    FreeNotOwned(g, v, t, c);
    assert AwayFromChains(t, {c});
    ShapeFrame(g, v, w, t, {c}, {c});
    SafeFacts(g, w, WithChain(t, c, [c]));
    WithDirectoryShape(g, v, t, w, c, d);
    forall k | k in t.chains ensures BytesAt(g, w, t', k) == BytesAt(g, v, t, k) {
      BytesFrame(g, v, t, w, t', {c}, {c}, k);
    }
  }

  lemma TakenFacts(g: Geometry, v: View, w: View, c: nat, parent: nat)
    requires DirectoryTaken(g, v, w, c, parent)
    ensures Took(g, v, w, c) && Placed(g, [c]) && Fitted(g, w) && FreshDir(SlotsOf(ChainBytes(g, w, [c])), c, parent)
  {
    hide ChainBytes, DotSector, FreshDir, SlotsOf;
    FreshSlots(g, w, c, parent);
  }

  lemma BytesOfOne(g: Geometry, w: View, t: Tree, c: nat)
    requires Shape(g, w, t) && c in t.chains && t.chains[c] == [c]
    ensures Placed(g, [c]) && BytesAt(g, w, t, c) == ChainBytes(g, w, [c])
  {
    ChainPlaced(g, w, t.chains[c]);
  }

  /** The slots afterwards: the old directories' as they were, and the new one's. */
  lemma WithDirectorySlots(g: Geometry, v: View, t: Tree, w: View, c: nat, d: nat)
    requires Safe(g, v, t) && DirectoryTaken(g, v, w, c, d) && d in t.dirs
    ensures c !in t.chains && Shape(g, v, t) && Shape(g, w, WithDirectory(t, c, d))
    ensures var m, m' := AllSlots(g, v, t), AllSlots(g, w, WithDirectory(t, c, d));
            && m'.Keys == m.Keys + {c} && FreshDir(m'[c], c, d)
            && forall e | e in m :: m'[e] == m[e]
    ensures forall k | k in t.chains :: SameBytes(g, v, w, t.chains[k])
  {
    hide Safe, Confined, IsChain, ChainBytes, SlotsOf, FreshDir, DotSector, BytesAt, Took, DirectoryTaken, Shape;
    var t' := WithDirectory(t, c, d);
    TakenFacts(g, v, w, c, d);
    WithDirectoryBytes(g, v, t, w, c, d);
    ShapeFacts(g, v, t);
    BytesOfOne(g, w, t', c);
    forall k | k in t.chains ensures SameBytes(g, v, w, t.chains[k]) {
      SameBytesAtTrees(g, v, t, w, t', k);
    }
  }

  lemma WithDirectorySound(g: Geometry, t: Tree, m: Dirs, c: nat, d: nat, m': Dirs)
    requires SoundIn(t, m) && SizedIn(g, t, m) && d in t.dirs && c !in t.chains && t.dirs.Keys <= t.chains.Keys
    requires m'.Keys == m.Keys + {c} && (forall e | e in m :: m'[e] == m[e])
    requires TailUnused(m'[c]) && DotsFirst(m'[c]) && NoLive(m'[c]) && |m'[c]| <= U32
    ensures SoundIn(WithDirectory(t, c, d), m') && SizedIn(g, WithDirectory(t, c, d), m')
  {
    hide TailUnused, DotsFirst, Live;
    var t' := WithDirectory(t, c, d);
    forall e: nat, j: nat | LiveIn(m', e, j) ensures Linked(t', e, m'[e][j]) && SizeFits(g, t', m'[e][j]) {
      assert e != c;
      assert LiveIn(m, e, j);
      assert Linked(t, e, m[e][j]) && SizeFits(g, t, m[e][j]);
    }
  }

  lemma WithDirectoryHoused(g: Geometry, t: Tree, m: Dirs, c: nat, d: nat, m': Dirs)
    requires SoundIn(t, m) && HousedIn(g, t, m, 0) && d in t.dirs && c !in t.chains && 0 !in t.chains
    requires m'.Keys == m.Keys + {c} && (forall e | e in m :: m'[e] == m[e]) && NoLive(m'[c])
    ensures HousedIn(g, WithDirectory(t, c, d), m', c)
  {
    hide TailUnused, DotsFirst, Live, ClusterOf;
    var t' := WithDirectory(t, c, d);
    forall h | h in t'.home
      ensures LiveIn(m', t'.home[h].0, t'.home[h].1) && ClusterOf(m'[t'.home[h].0][t'.home[h].1]) == h
    {
      assert LiveIn(m, t.home[h].0, t.home[h].1) && ClusterOf(m[t.home[h].0][t.home[h].1]) == h;
    }
    forall e: nat, j: nat | LiveIn(m', e, j) && ClusterOf(m'[e][j]) != 0
      ensures ClusterOf(m'[e][j]) in t'.home && t'.home[ClusterOf(m'[e][j])] == (e, j)
    {
      assert e != c;
      assert LiveIn(m, e, j);
    }
  }

  lemma WithDirectoryAccounted(g: Geometry, v: View, t: Tree, w: View, c: nat, d: nat)
    requires Safe(g, v, t) && Took(g, v, w, c) && d in t.dirs && Accounted(v, t)
    ensures Accounted(w, WithDirectory(t, c, d))
  {
    hide Safe, Confined, Accounted;
    NewChain(g, v, t, w, c);
    SameChainsAccounted(w, WithChain(t, c, [c]), WithDirectory(t, c, d));
  }

  lemma SameChainsAccounted(v: View, t: Tree, t': Tree)
    requires Accounted(v, t) && t'.chains == t.chains && t'.other == t.other
    ensures Accounted(v, t')
  {
    assert forall c :: Owned(t', c) == Owned(t, c);
  }

  /** A new directory that no entry names yet, in an otherwise unchanged tree. */
  lemma DirectoryReady(g: Geometry, v: View, t: Tree, w: View, c: nat, d: nat)
    requires WellFormed(g, v, t) && DirectoryTaken(g, v, w, c, d) && d in t.dirs
    ensures var t' := WithDirectory(t, c, d);
            && c !in t.chains && c != 0 && c != g.rootCluster && Safe(g, w, t') && Housed(g, w, t', c) && Accounted(w, t')
            && Shape(g, v, t) && Shape(g, w, t')
            && var m, m' := AllSlots(g, v, t), AllSlots(g, w, t');
               && m'.Keys == m.Keys + {c} && FreshDir(m'[c], c, d) && (forall e | e in m :: m'[e] == m[e])
    ensures forall k | k in t.chains :: SameBytes(g, v, w, t.chains[k])
  {
    hide AllSlots, Shape, SoundIn, SizedIn, HousedIn, Accounted, FreshDir, DirectoryTaken, Took;
    var t' := WithDirectory(t, c, d);
    ShapeFacts(g, v, t);
    TakenFacts(g, v, w, c, d);
    WithDirectorySlots(g, v, t, w, c, d);
    ShapeFacts(g, w, t');
    FreshDirFacts(AllSlots(g, w, t')[c], c, d);
    OneClusterSlots(g, w, t', c);
    WithDirectorySound(g, t, AllSlots(g, v, t), c, d, AllSlots(g, w, t'));
    WithDirectoryHoused(g, t, AllSlots(g, v, t), c, d, AllSlots(g, w, t'));
    WithDirectoryAccounted(g, v, t, w, c, d);
  }

  // ---------------------------------------------------------------- mkdir

  /** What fat32_mkdir does: one cluster is taken for the new directory, one slot of the parent names it, and that is all. */
  ghost predicate DirectoryMade(g: Geometry, v: View, t: Tree, w: View, t': Tree, path: Text, d: nat, i: nat, c: nat) {
    && d in t.dirs && c !in t.chains && g.InRange(c) && Accepted(NameIn(path)) && c < U32
    && t'.chains == t.chains[c := [c]] && t'.dirs == t.dirs[c := t.dirs[d] + 1] && t'.other == t.other
    && c < |v.fat| && v.fat[c] == 0 && w.fat == v.fat[c := EOC]
    && Shape(g, v, t) && Shape(g, w, t')
    && (forall k | k in t.chains && k !in t.dirs :: SameBytes(g, v, w, t.chains[k]))
    && var m, m' := AllSlots(g, v, t), AllSlots(g, w, t');
       && i < |m[d]| && m'.Keys == m.Keys + {c} && FreshDir(m'[c], c, d)
       && m'[d] == m[d][i := NewEntry(path, ATTR_DIRECTORY, c, 0)]
       && (forall e | e in m && e != d :: m'[e] == m[e])
  }

  lemma NewDirectoryNameable(g: Geometry, t: Tree, m: Dirs, c: nat, d: nat, i: nat, s: Slot)
    requires d in t.dirs && c !in t.chains && c != g.rootCluster && c != 0 && d in m && FirstFree(m[d], i) && d != c
    requires Live(s) && IsDirectory(s) && ClusterOf(s) == c
    ensures Nameable(g, WithDirectory(t, c, d), m, d, i, s, c)
  {
    FirstFreeIsFree(m[d], i);
  }

  /** Naming the new directory completes it. */
  lemma DirectoryNamed(g: Geometry, v: View, t: Tree, w: View, path: Text, d: nat, i: nat, c: nat, s: Slot)
    requires WellFormed(g, v, t) && GoesTo(g, v, t, path, d, i) && DirectoryTaken(g, v, w, c, d)
    requires Live(s) && IsDirectory(s) && ClusterOf(s) == c
    ensures Shape(g, w, WithDirectory(t, c, d)) && d in t.dirs && i < |AllSlots(g, w, WithDirectory(t, c, d))[d]|
    ensures OneSlot(g, w, WithDirectory(t, c, d), WithSlot(g, w, WithDirectory(t, c, d), d, i, s), WithDirectory(t, c, d), d, i, s)
    ensures WellFormed(g, WithSlot(g, w, WithDirectory(t, c, d), d, i, s), At(WithDirectory(t, c, d), c, d, i))
  {
    hide AllSlots, Shape, WithSlot, SoundIn, SizedIn, HousedIn, Accounted, Put, ClusterOf, SizeOf, Live, IsDirectory,
         NameIn, FirstFree, Nameable, OneSlot, GoesTo, DirectoryTaken, FreshDir, At;
    GoesToFacts(g, v, t, path, d, i);
    var t1 := WithDirectory(t, c, d);
    DirectoryReady(g, v, t, w, c, d);
    var m1 := AllSlots(g, w, t1);
    ShapeFacts(g, v, t);
    FirstFreeIsFree(m1[d], i);
    NewDirectoryNameable(g, t, m1, c, d, i, s);
    SizedOthers(g, t1, m1, d, i);
    Named(g, w, t1, m1, d, i, s, c);
    OneSlotWritten(g, w, t1, d, i, s);
  }

  lemma MadeBytes(g: Geometry, v: View, t: Tree, w: View, u: View, d: nat, i: nat, c: nat, s: Slot)
    requires WellFormed(g, v, t) && DirectoryTaken(g, v, w, c, d) && d in t.dirs
    requires OneSlot(g, w, WithDirectory(t, c, d), u, WithDirectory(t, c, d), d, i, s)
    ensures forall k | k in t.chains && k !in t.dirs :: SameBytes(g, v, u, t.chains[k])
  {
    hide AllSlots, Shape, WithSlot, Safe, Housed, Accounted, SameBytes, DirectoryTaken, FreshDir;
    DirectoryReady(g, v, t, w, c, d);
    var t1 := WithDirectory(t, c, d);
    forall k | k in t.chains && k !in t.dirs ensures SameBytes(g, v, u, t.chains[k]) {
      assert k in t1.chains && k !in t1.dirs && t1.chains[k] == t.chains[k];
      SameBytesTwice(g, v, w, u, t.chains[k]);
    }
  }

  lemma MadeFat(g: Geometry, v: View, t: Tree, w: View, u: View, d: nat, i: nat, c: nat, s: Slot)
    requires DirectoryTaken(g, v, w, c, d) && d in t.dirs
    requires OneSlot(g, w, WithDirectory(t, c, d), u, WithDirectory(t, c, d), d, i, s)
    ensures g.InRange(c) && c < |v.fat| && v.fat[c] == 0 && u.fat == v.fat[c := EOC]
  {
    hide AllSlots, Shape, SameBytes, DotSector, Put;
    WithSlotFat(g, w, WithDirectory(t, c, d), d, i, s);
  }

  lemma DirectoryMadeIs(g: Geometry, v: View, t: Tree, w: View, u: View, path: Text, d: nat, i: nat, c: nat)
    requires WellFormed(g, v, t) && GoesTo(g, v, t, path, d, i) && DirectoryTaken(g, v, w, c, d) && d in t.dirs
    requires c < U32 && Accepted(NameIn(path))
    requires OneSlot(g, w, WithDirectory(t, c, d), u, WithDirectory(t, c, d), d, i, NewEntry(path, ATTR_DIRECTORY, c, 0))
    ensures DirectoryMade(g, v, t, u, At(WithDirectory(t, c, d), c, d, i), path, d, i, c)
  {
    hide AllSlots, Shape, WithSlot, SoundIn, SizedIn, Housed, Accounted, ClusterOf, SizeOf, Live, IsDirectory, NameIn,
         Encode, Accepted, FirstFree, GoesTo, FreshDir, SameBytes, DotSector, OneSlot, DirectoryTaken;
    var t1, s := WithDirectory(t, c, d), NewEntry(path, ATTR_DIRECTORY, c, 0);
    GoesToFacts(g, v, t, path, d, i);
    DirectoryReady(g, v, t, w, c, d);
    OneSlotFacts(g, w, t1, u, t1, d, i, s);
    HomeFree(g, u, t1, c, d, i);
    ShapeFacts(g, v, t);
    MadeBytes(g, v, t, w, u, d, i, c, s);
    MadeFat(g, v, t, w, u, d, i, c, s);
  }

  /** The path leads to the new directory. */
  lemma MadeIsFound(g: Geometry, v: View, t: Tree, u: View, t': Tree, path: Text, d: nat, i: nat, c: nat)
    requires Sound(g, v, t) && GoesTo(g, v, t, path, d, i) && DirectoryMade(g, v, t, u, t', path, d, i, c)
    requires OrdinaryName(path)
    ensures LeadsTo(g, u, t', path, d, i)
  {
    hide AllSlots, Shape, SoundIn, ClusterOf, SizeOf, Live, NameIn, Encode, Accepted, GoesTo, FreshDir, SameBytes,
         LeadsTo, Used;
    var s := NewEntry(path, ATTR_DIRECTORY, c, 0);
    GoesToFacts(g, v, t, path, d, i);
    NewEntryLive(NameIn(path), ATTR_DIRECTORY, c, 0);
    LiveIsUsed(s);
    DirectoryFound(g, v, t, u, t', path, d, i, s);
  }

  lemma DirectoryFound(g: Geometry, v: View, t: Tree, u: View, t': Tree, path: Text, d: nat, i: nat, s: Slot)
    requires Sound(g, v, t) && GoesTo(g, v, t, path, d, i) && Shape(g, u, t')
    requires Accepted(NameIn(path)) && Used(s) && s[0] != 0 && NameOf(s) == Encode(NameIn(path))
    requires var m, m' := AllSlots(g, v, t), AllSlots(g, u, t');
             && d in m && i < |m[d]| && d in m' && m'[d] == m[d][i := s]
             && (forall e | e in m && e != d :: e in m' && m'[e] == m[e])
    ensures LeadsTo(g, u, t', path, d, i)
  {
    hide AllSlots, SoundIn, Shape, NewPlace, Resolve, NameIn, Encode, Accepted, Used;
    ShapeFacts(g, v, t);
    NewEntryResolves(t, AllSlots(g, v, t), g.rootCluster, path, s, AllSlots(g, u, t'));
  }

  /** Under a name that begins with 0xE5 nobody names the cluster taken: it is lost. */
  lemma MadeOrphan(g: Geometry, v: View, t: Tree, w: View, path: Text, d: nat, i: nat, c: nat, s: Slot)
    requires WellFormed(g, v, t) && GoesTo(g, v, t, path, d, i) && DirectoryTaken(g, v, w, c, d) && d in t.dirs
    requires Shape(g, w, WithDirectory(t, c, d)) && i < |AllSlots(g, w, WithDirectory(t, c, d))[d]| && s[0] == DELETED
    ensures var u := WithSlot(g, w, WithDirectory(t, c, d), d, i, s);
            && Orphaned(g, u, WithChain(t, c, [c]), c) && Shape(g, v, t) && c !in t.chains
            && i < |AllSlots(g, v, t)[d]| && AllSlots(g, u, WithChain(t, c, [c])) == Put(AllSlots(g, v, t), d, i, s)
  {
    hide AllSlots, Shape, WithSlot, SoundIn, SizedIn, HousedIn, Accounted, FirstFree, GoesTo, DirectoryTaken, FreshDir,
         DirsNamed, Took, Confined, IsDot, Live;
    var tc := WithChain(t, c, [c]);
    ShapeFacts(g, v, t);
    TakenFacts(g, v, w, c, d);
    NewChain(g, v, t, w, c);
    OwnChainSlots(g, v, t, w, c);
    GoesToFacts(g, v, t, path, d, i);
    DeletedIsDead(s);
    DeadPut(g, w, tc, AllSlots(g, w, tc), d, i, s);
    SameWithSlot(g, w, WithDirectory(t, c, d), tc, d, i, s);
  }

  /** What mkdir comes to then: a chain of one that nobody names, and a deleted slot. */
  ghost predicate NothingMade(g: Geometry, v: View, t: Tree, u: View, path: Text, d: nat, i: nat, c: nat) {
    && Orphaned(g, u, WithChain(t, c, [c]), c) && c !in t.chains && c < U32 && Accepted(NameIn(path))
    && Shape(g, v, t) && d in t.dirs && i < |AllSlots(g, v, t)[d]|
    && AllSlots(g, u, WithChain(t, c, [c])) == Put(AllSlots(g, v, t), d, i, NewEntry(path, ATTR_DIRECTORY, c, 0))
  }

  lemma OwnChainSlots(g: Geometry, v: View, t: Tree, w: View, c: nat)
    requires Safe(g, v, t) && Took(g, v, w, c) && Shape(g, w, WithChain(t, c, [c])) && c !in t.chains
    ensures AllSlots(g, w, WithChain(t, c, [c])) == AllSlots(g, v, t)
  {
    hide AllSlots, Shape, SoundIn, SizedIn, Confined;
    ShapeFacts(g, v, t);
    FreeNotOwned(g, v, t, c);
    SlotsFrame(g, v, t, w, WithChain(t, c, [c]), {c}, {c});
  }

  /** And the path leads nowhere. */
  lemma MadeIsMissing(g: Geometry, v: View, t: Tree, u: View, t': Tree, path: Text, d: nat, i: nat, c: nat)
    requires Sound(g, v, t) && GoesTo(g, v, t, path, d, i) && DirectoryMade(g, v, t, u, t', path, d, i, c)
    requires !OrdinaryName(path)
    ensures LeadsNowhere(g, u, t', path)
  {
    hide AllSlots, Shape, SoundIn, ClusterOf, SizeOf, Live, NameIn, Encode, Accepted, FreshDir, SameBytes, Resolve,
         NewPlace, FirstFree;
    var s := NewEntry(path, ATTR_DIRECTORY, c, 0);
    ShapeFacts(g, v, t);
    GoesToFacts(g, v, t, path, d, i);
    NewEntryLive(NameIn(path), ATTR_DIRECTORY, c, 0);
    DeadEntryMissing(t, AllSlots(g, v, t), AllSlots(g, u, t'), g.rootCluster, path, s);
  }

  lemma TakenBounds(g: Geometry, v: View, w: View, c: nat, parent: nat)
    requires DirectoryTaken(g, v, w, c, parent)
    ensures c < U32 && parent < U32 && g.InRange(c)
  {
  }

  /** The boundaries of mkdir up to the parent's entry: the cluster taken belongs to nobody yet. */
  lemma TakenBoundary(g: Geometry, v: View, t: Tree, j: View, c: nat)
    requires Safe(g, v, t) && Fitted(g, v) && c < |v.fat| && v.fat[c] == 0 && Confined(g, v, j, {c}, {c})
    ensures Consistent(g, j)
  {
    hide Safe, Confined;
    TookSafe(g, v, t, j, c);
    SafeFacts(g, j, t);
  }

  /** From the cluster fat32_allocate_cluster took to a directory with its two entries. */
  lemma Initialized(g: Geometry, v: View, w: View, u: View, c: nat, parent: nat)
    requires Took(g, v, w, c) && Fitted(g, w) && g.Valid() && Zeroed(g, w, c) && g.InRange(parent)
    requires u == w.(data := w.data[DataIndex(g, c, 0) := DotSector(c, parent)])
    ensures DirectoryTaken(g, v, u, c, parent) && Confined(g, v, u, {c}, {c})
  {
    hide DotSector;
    SectorWriteConfined(g, w, c, 0, DotSector(c, parent));
    ConfinedCompose(g, v, w, u, {c}, {c}, {}, {c});
    assert {c} + {} == {c} && {c} + {c} == {c};
    forall s: nat | 0 < s < g.sectorsPerCluster ensures u.data[DataIndex(g, c, s)] == Zeros(512) {
      assert DataIndex(g, c, s) != DataIndex(g, c, 0);
    }
  }

  /** The middle of fat32_mkdir: a cluster for the directory, and its first two entries. */
  method TakeDirectory(fs: Volume, parent: nat, ghost t: Tree) returns (r: Status, cluster: nat)
    requires fs.Ready() && WellFormed(fs.g, fs.Now(), t) && fs.g.InRange(parent)
    modifies fs`journal, fs.device, fs.sectorBuffer
    ensures fs.Ready() && AllConsistent(fs.g, old(fs.journal), fs.journal)
    ensures r == if Full(fs.g, old(fs.Now())) then Error else Ok
    ensures r != Ok ==> fs.Now() == old(fs.Now()) && fs.journal == old(fs.journal)
    ensures r == Ok ==> DirectoryTaken(fs.g, old(fs.Now()), fs.Now(), cluster, parent)
  {
    hide Kept, ViewOf, Safe, Housed, Accounted, Confined, Zeroed, DotSector, DirectoryTaken, Full;
    ghost var v, j := fs.Now(), fs.journal;
    r, cluster := AllocateCluster(fs);
    if r != Ok {
      return;
    }
    ghost var w, j1 := fs.Now(), fs.journal;
    r := InitializeDirectory(fs, cluster, parent);
    Initialized(fs.g, v, w, fs.Now(), cluster, parent);
    if r != Ok {
      return;
    }
    forall i | |j| <= i < |fs.journal| ensures Consistent(fs.g, fs.journal[i]) {
      if i < |j1| {
        assert fs.journal[i] == j1[i];
      }
      TakenBoundary(fs.g, v, t, fs.journal[i], cluster);
    }
  }

  /** fat32_mkdir: the outcome NewPlace decides, except that a full volume is refused too; on success the path leads to a
      new empty directory if and only if its name does not begin with 0xE5, and only then is the volume well formed again:
      otherwise the cluster taken is lost. On failure nothing has changed. All block boundaries on the way are consistent. */
  method Mkdir(fs: Volume, path: Text, ghost t: Tree) returns (r: Status, ghost t': Tree, ghost d: nat, ghost i: nat, ghost c: nat)
    requires fs.Ready() && WellFormed(fs.g, fs.Now(), t)
    modifies fs`journal, fs.device, fs.sectorBuffer
    ensures fs.Ready()
    ensures var p := NewPlace(old(SlotsNow(fs, t)), fs.g.rootCluster, path);
            r == if p.Refused? then p.status else if Full(fs.g, old(fs.Now())) then Error else Ok
    ensures r != Ok ==> fs.Now() == old(fs.Now()) && fs.journal == old(fs.journal) && t' == t
    ensures r == Ok ==> GoesTo(fs.g, old(fs.Now()), t, path, d, i)
    ensures r == Ok ==> DirectoryMade(fs.g, old(fs.Now()), t, fs.Now(), t', path, d, i, c)
    ensures r == Ok ==> (LeadsTo(fs.g, fs.Now(), t', path, d, i) <==> OrdinaryName(path))
    ensures r == Ok ==> ((exists tb :: WellFormed(fs.g, fs.Now(), tb) && tb.other == t.other) <==> OrdinaryName(path))
    ensures r == Ok && OrdinaryName(path) ==> WellFormed(fs.g, fs.Now(), t')
    ensures r == Ok && !OrdinaryName(path) ==> LeadsNowhere(fs.g, fs.Now(), t', path)
    ensures r == Ok && !OrdinaryName(path) ==> NothingMade(fs.g, old(fs.Now()), t, fs.Now(), path, d, i, c)
    ensures AllConsistent(fs.g, old(fs.journal), fs.journal)
  {
    hide Kept, ViewOf, AllSlots, Shape, WithSlot, SoundIn, SizedIn, Housed, Accounted, NewPlace, NameIn, Encode, Accepted,
         OneSlot, LeadsTo, LeadsNowhere, DirectoryMade, DirectoryTaken, Full, WithDirectory, Consistent, NothingMade, At;
    t', c := t, 0;
    ghost var v, j := fs.Now(), fs.journal;
    NothingYet(fs.g, j);
    ShapeFacts(fs.g, v, t);
    var dir, entryIndex, shortName;
    r, dir, entryIndex, shortName := PlaceNew(fs, path, t);
    d, i := dir, entryIndex;
    if r != Ok {
      return;
    }
    var cluster;
    r, cluster := TakeDirectory(fs, dir, t);
    c := cluster;
    if r != Ok {
      return;
    }
    ghost var w, j1 := fs.Now(), fs.journal;
    TakenBounds(fs.g, v, w, c, d);
    DirectoryReady(fs.g, v, t, w, c, d);
    ghost var t1 := WithDirectory(t, c, d);
    r := WriteEntryData(fs, dir, entryIndex, shortName, ATTR_DIRECTORY, cluster, 0, t1);
    if r != Ok {
      return;
    }
    t' := At(t1, c, d, i);
    Finished(fs.g, v, t, w, fs.Now(), path, d, i, c);
    MkdirOutcome(fs.g, v, t, fs.Now(), t', path, d, i, c);
    OneMore(fs.g, j, j1, fs.Now());
  }

  lemma OneMore(g: Geometry, a: seq<View>, b: seq<View>, v: View)
    requires AllConsistent(g, a, b) && Consistent(g, v)
    ensures AllConsistent(g, a, b + [v])
  {
    hide Consistent;
  }

  lemma MkdirOutcome(g: Geometry, v: View, t: Tree, u: View, t': Tree, path: Text, d: nat, i: nat, c: nat)
    requires OrdinaryName(path) ==> WellFormed(g, u, t') && LeadsTo(g, u, t', path, d, i) && t'.other == t.other
    requires !OrdinaryName(path) ==> LeadsNowhere(g, u, t', path) && NothingMade(g, v, t, u, path, d, i, c)
    ensures LeadsTo(g, u, t', path, d, i) <==> OrdinaryName(path)
    ensures (exists tb :: WellFormed(g, u, tb) && tb.other == t.other) <==> OrdinaryName(path)
    ensures Consistent(g, u)
  {
    hide LeadsTo, LeadsNowhere, NameIn, Sound, SizedIn, Housed, Accounted, AllSlots, Put, Accepted;
    if OrdinaryName(path) {
      SafeFacts(g, u, t');
    } else {
      NotThere(g, u, t', path, d, i);
      OrphanIsLost(g, u, WithChain(t, c, [c]), c);
      SafeFacts(g, u, WithChain(t, c, [c]));
    }
  }

  lemma ConsistentNext(g: Geometry, a: seq<View>, b: seq<View>, v: View, t: Tree)
    requires AllConsistent(g, a, b) && Safe(g, v, t)
    ensures AllConsistent(g, a, b + [v])
  {
    hide Safe;
    SafeFacts(g, v, t);
  }

  lemma Finished(g: Geometry, v: View, t: Tree, w: View, u: View, path: Text, d: nat, i: nat, c: nat)
    requires WellFormed(g, v, t) && GoesTo(g, v, t, path, d, i) && DirectoryTaken(g, v, w, c, d) && d in t.dirs
    requires c < U32 && Accepted(NameIn(path)) && 0 !in NameIn(path) && Shape(g, w, WithDirectory(t, c, d))
    requires i < |AllSlots(g, w, WithDirectory(t, c, d))[d]|
    requires u == WithSlot(g, w, WithDirectory(t, c, d), d, i, NewEntry(path, ATTR_DIRECTORY, c, 0))
    ensures DirectoryMade(g, v, t, u, At(WithDirectory(t, c, d), c, d, i), path, d, i, c)
    ensures At(WithDirectory(t, c, d), c, d, i).other == t.other
    ensures OrdinaryName(path) ==> WellFormed(g, u, At(WithDirectory(t, c, d), c, d, i))
    ensures OrdinaryName(path) ==> LeadsTo(g, u, At(WithDirectory(t, c, d), c, d, i), path, d, i)
    ensures !OrdinaryName(path) ==> LeadsNowhere(g, u, At(WithDirectory(t, c, d), c, d, i), path)
    ensures !OrdinaryName(path) ==> NothingMade(g, v, t, u, path, d, i, c)
  {
    hide AllSlots, Shape, WithSlot, SoundIn, SizedIn, Housed, Accounted, NameIn, Encode, Accepted, ClusterOf, SizeOf,
         OneSlot, LeadsTo, LeadsNowhere, DirectoryMade, DirectoryTaken, Live, GoesTo, IsDirectory, Orphaned, Put;
    OneSlotWritten(g, w, WithDirectory(t, c, d), d, i, NewEntry(path, ATTR_DIRECTORY, c, 0));
    DirectoryMadeIs(g, v, t, w, u, path, d, i, c);
    NewEntryLive(NameIn(path), ATTR_DIRECTORY, c, 0);
    if OrdinaryName(path) {
      DirectoryNamed(g, v, t, w, path, d, i, c, NewEntry(path, ATTR_DIRECTORY, c, 0));
      MadeIsFound(g, v, t, u, At(WithDirectory(t, c, d), c, d, i), path, d, i, c);
    } else {
      MadeOrphan(g, v, t, w, path, d, i, c, NewEntry(path, ATTR_DIRECTORY, c, 0));
      MadeIsMissing(g, v, t, u, At(WithDirectory(t, c, d), c, d, i), path, d, i, c);
    }
  }
}
