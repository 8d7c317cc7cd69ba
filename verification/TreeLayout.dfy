/** Directories, files and the tree of names on a raw disk, and the entries the operations write there. */
module TreeLayout {
  import opened Bytes
  import opened Geometry
  import opened Volumes
  import opened Chains
  import opened Contents
  import opened DiskLayout
  import opened FileRead
  import opened Slots
  import opened SlotLayout
  import opened Names83
  import opened Trees
  import opened FileWrite
  import opened Paths
  import opened NameMaps
  import opened Plans
  import opened Creating
  import opened MakingDirs
  import opened Renaming
  import opened FileTree

  // ---------------------------------------------------------------- where things are

  /** Slot i of a directory is at its bytes 32 * i to 32 * i + 31. */
  lemma SlotOnDisk(g: Geometry, d: Disk, t: Tree, e: nat, i: nat, k: nat)
    requires Fits(g, d) && Shape(g, ViewOf(g, d), t) && e in t.dirs && i < |AllSlots(g, ViewOf(g, d), t)[e]| && k < 32
    ensures e in t.chains && ByteOnDisk(g, d, t.chains[e], 32 * i + k, AllSlots(g, ViewOf(g, d), t)[e][i][k])
  {
    hide ViewOf, ByteOnDisk, IsPath, ChainBytes;
    ShapeFacts(g, ViewOf(g, d), t);
    ChainPlaced(g, ViewOf(g, d), t.chains[e]);
    ChainByteOnDisk(g, d, t.chains[e], 32 * i + k);
  }

  /** The names of a directory are those of its live slots. */
  lemma NamesMean(g: Geometry, v: View, t: Tree, m: Dirs, e: nat, n: Name83)
    requires Good(g, v, t) && Shape(g, v, t) && m == AllSlots(g, v, t) && e in m
    ensures e in TreeOf(g, v, t)
    ensures n in TreeOf(g, v, t)[e] <==> exists i :: 0 <= i < |m[e]| && Live(m[e][i]) && m[e][i][..11] == n
  {
    hide AllSlots, WellFormed, Live, MapLike, UniqueNames, Bindings, Unlabelled, Shape;
    MapLikeUnique(m, e);
    BoundNames(m[e], n);
  }

  lemma BoundNames(ss: seq<Slot>, n: Name83)
    requires UniqueNames(ss)
    ensures n in Bindings(ss) <==> exists i :: 0 <= i < |ss| && Live(ss[i]) && ss[i][..11] == n
  {
    hide Live;
    if n in Bindings(ss) {
      var i :| 0 <= i < |ss| && Live(ss[i]) && NameOf(ss[i]) == n;
      assert ss[i][..11] == n;
    }
    if exists i :: 0 <= i < |ss| && Live(ss[i]) && ss[i][..11] == n {
      var i :| 0 <= i < |ss| && Live(ss[i]) && ss[i][..11] == n;
      assert NameOf(ss[i]) == n;
    }
  }

  /** What a name stands for: a directory, by its cluster, or a file, whose bytes are on the disk. */
  lemma NodesMean(g: Geometry, d: Disk, t: Tree, e: nat, i: nat)
    requires Fits(g, d) && Good(g, ViewOf(g, d), t) && Shape(g, ViewOf(g, d), t) && LiveIn(AllSlots(g, ViewOf(g, d), t), e, i)
    ensures var s, ns := AllSlots(g, ViewOf(g, d), t)[e][i], TreeOf(g, ViewOf(g, d), t)[e];
            && NameOf(s) in ns
            && (IsDirectory(s) ==> ns[NameOf(s)] == Directory(ClusterOf(s)))
            && (!IsDirectory(s) ==>
                  && ns[NameOf(s)].File? && |ns[NameOf(s)].bytes| == SizeOf(s)
                  && (SizeOf(s) > 0 ==> ClusterOf(s) in t.chains)
                  && forall p :: 0 <= p < SizeOf(s) ==>
                       ByteOnDisk(g, d, ChainAt(t, ClusterOf(s)), p, ns[NameOf(s)].bytes[p]))
  {
    hide ViewOf, ByteOnDisk, AllSlots, SoundIn, SizedIn, HousedIn, Accounted, Live, IsDirectory, ClusterOf, SizeOf, Bindings,
         MapLike, UniqueNames, Shape, NameOf, BytesOf, Unlabelled;
    var v := ViewOf(g, d);
    GoodFacts(g, v, t);
    var m := AllSlots(g, v, t);
    var s := m[e][i];
    MapLikeUnique(m, e);
    BoundHere(m[e], i);
    if !IsDirectory(s) {
      FileShown(g, v, t, m, e, i);
      ShowsOnDisk(g, d, ChainAt(t, ClusterOf(s)), BytesOf(g, v, t, ClusterOf(s), SizeOf(s)));
    }
  }

  lemma BoundHere(ss: seq<Slot>, i: nat)
    requires UniqueNames(ss) && i < |ss| && Live(ss[i])
    ensures NameOf(ss[i]) in Bindings(ss) && Bindings(ss)[NameOf(ss[i])] == ss[i]
  {
  }

  lemma FileShown(g: Geometry, v: View, t: Tree, m: Dirs, e: nat, i: nat)
    requires Safe(g, v, t) && Shape(g, v, t) && m == AllSlots(g, v, t) && LiveIn(m, e, i) && !IsDirectory(m[e][i])
    ensures var h, size := ClusterOf(m[e][i]), SizeOf(m[e][i]);
            && |BytesOf(g, v, t, h, size)| == size && (size > 0 ==> h in t.chains)
            && Shows(g, v, ChainAt(t, h), size, BytesOf(g, v, t, h, size))
  {
    hide AllSlots, TailUnused, DotsFirst, Live, ClusterOf, SizeOf, ChainBytes, IsPath;
    assert Linked(t, e, m[e][i]) && SizeFits(g, t, m[e][i]);
    ShapeFacts(g, v, t);
    var h := ClusterOf(m[e][i]);
    if h in t.chains {
      ChainPlaced(g, v, t.chains[h]);
    }
  }

  // ---------------------------------------------------------------- what the operations write

  /** The name of a path is what stands behind its last slash, slashes at its end aside. */
  lemma NameInMeans(path: Text, k: nat, e: nat)
    requires |path| < 256 && CutsAt(path, k, e)
    ensures NameIn(path) == path[k + 1..e] && (OrdinaryName(path) <==> path[k + 1] != 0xE5)
  {
    SplitIntoIs(path, 256, 256, k, e);
  }

  /** create and rename write an entry with the archive bit alone, mkdir one with the directory bit alone. */
  lemma NewEntryMeans(path: Text, c: nat, size: nat, s: Slot)
    requires Accepted(NameIn(path)) && c < U32 && size < U32
    ensures var f, d := NewEntry(path, ATTR_ARCHIVE, c, size), NewEntry(path, ATTR_DIRECTORY, c, size);
            && f[..11] == Encode(NameIn(path)) == d[..11] && f[11] == 0x20 && d[11] == 0x10
            && ClusterOf(f) == c == ClusterOf(d) && SizeOf(f) == size == SizeOf(d)
            && (forall k | k in {12, 13, 14, 15, 16, 17, 18, 19, 22, 23, 24, 25} :: f[k] == 0 == d[k])
    ensures MovedEntry(path, s)[..11] == Encode(NameIn(path)) && MovedEntry(path, s)[11] == 0x20
    ensures ClusterOf(MovedEntry(path, s)) == ClusterOf(s) && SizeOf(MovedEntry(path, s)) == SizeOf(s)
  {
    hide ClusterOf, SizeOf, Encode, Accepted, NameIn, NameOf, EntrySlot;
    SlotBounds(s);
    EntryMeans(Encode(NameIn(path)), ATTR_ARCHIVE, c, size);
    EntryMeans(Encode(NameIn(path)), ATTR_DIRECTORY, c, size);
    EntryMeans(Encode(NameIn(path)), ATTR_ARCHIVE, ClusterOf(s), SizeOf(s));
    EntrySlotFields(Encode(NameIn(path)), ATTR_ARCHIVE, c, size);
    EntrySlotFields(Encode(NameIn(path)), ATTR_DIRECTORY, c, size);
    EntrySlotFields(Encode(NameIn(path)), ATTR_ARCHIVE, ClusterOf(s), SizeOf(s));
  }

  /** A new directory begins with "." and "..", which are directories and name it and its parent, and nothing behind them has
      ever been used. */
  lemma FreshDirMeans(ss: seq<Slot>, c: nat, parent: nat)
    requires FreshDir(ss, c, parent)
    ensures ss[0][..11] == [46, 32, 32, 32, 32, 32, 32, 32, 32, 32, 32] && ss[0][11] == 0x10
    ensures ClusterOf(ss[0]) == c && SizeOf(ss[0]) == 0
    ensures ss[1][..11] == [46, 46, 32, 32, 32, 32, 32, 32, 32, 32, 32] && ss[1][11] == 0x10
    ensures ClusterOf(ss[1]) == parent && SizeOf(ss[1]) == 0
    ensures forall j, k | 2 <= j < |ss| && 0 <= k < 32 :: ss[j][k] == 0
  {
    hide EntrySlot, ClusterOf, SizeOf;
    EntryMeans(DotName(1), ATTR_DIRECTORY, c, 0);
    EntryMeans(DotName(2), ATTR_DIRECTORY, parent, 0);
    EntrySlotFields(DotName(1), ATTR_DIRECTORY, c, 0);
    EntrySlotFields(DotName(2), ATTR_DIRECTORY, parent, 0);
  }

  /** That is what mkdir leaves. */
  lemma DotsAfterMkdir(g: Geometry, v: View, t: Tree, w: View, t': Tree, path: Text, d: nat, i: nat, c: nat)
    requires DirectoryMade(g, v, t, w, t', path, d, i, c)
    ensures Shape(g, w, t') && c in AllSlots(g, w, t') && FreshDir(AllSlots(g, w, t')[c], c, d)
  {
    hide AllSlots, Shape, FreshDir, SameBytes, NewEntry, Accepted, NameIn;
  }
}
