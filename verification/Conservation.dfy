/** What is taken is given back: sequences of operations that leave the FAT as they found it. */
module Conservation {
  import opened Bytes
  import opened Geometry
  import opened Volumes
  import opened Chains
  import opened Allocation
  import opened Freeing
  import opened FileRead
  import opened Slots
  import opened Names83
  import opened LongNames
  import opened Trees
  import opened TreeSteps
  import opened FileWrite
  import opened Paths
  import opened EmptyDirs
  import opened Plans
  import opened Creating
  import opened MakingDirs
  import opened Removing
  import opened DirScan
  import opened FileTree
  import opened Refining

  // ---------------------------------------------------------------- writing does not move names

  lemma {:induction false} HeldExtent(ss: seq<Slot>, i: nat, s: Slot, k: nat)
    requires i < |ss| && Live(ss[i]) && SameButExtent(ss[i], s) && k <= |ss|
    ensures Held(ss[i := s], k) == Held(ss, k)
  {
    if k > 0 {
      HeldExtent(ss, i, s, k - 1);
      SameName(ss[i], s);
    }
  }

  lemma {:induction false} FindExtent(ss: seq<Slot>, i: nat, s: Slot, name: seq<byte>, k: nat)
    requires i < |ss| && Live(ss[i]) && SameButExtent(ss[i], s) && k <= |ss|
    ensures Find(ss[i := s], name, k) == Find(ss, name, k)
    decreases |ss| - k
  {
    hide Held, EqualFold;
    SameName(ss[i], s);
    if k < |ss| {
      HeldExtent(ss, i, s, k);
      FindExtent(ss, i, s, name, k + 1);
    }
  }

  /** An entry's first cluster and size play no part in where paths lead, unless it is a directory's. */
  lemma {:induction false} FollowExtent(m: Dirs, d: nat, i: nat, s: Slot, e: nat, cs: seq<seq<byte>>)
    requires LiveIn(m, d, i) && SameButExtent(m[d][i], s) && !IsDirectory(m[d][i])
    ensures Follow(Put(m, d, i, s), e, cs) == Follow(m, e, cs)
    decreases |cs|
  {
    hide Find, Live, IsDirectory, ClusterOf;
    SameName(m[d][i], s);
    if cs != [] && e in m {
      if e == d {
        FindExtent(m[d], i, s, cs[0], 0);
      }
      var f := Find(m[e], cs[0], 0);
      if f.Some? && |cs| > 1 && IsDirectory(m[e][f.value]) {
        FollowExtent(m, d, i, s, ClusterOf(m[e][f.value]), cs[1..]);
      }
    }
  }

  lemma WrittenLeads(g: Geometry, v: View, t: Tree, w: View, t': Tree, path: Text, d: nat, i: nat, h: nat)
    requires LeadsTo(g, v, t, path, d, i) && OnlyFile(g, v, t, w, t', d, i, h) && !IsDirectory(AllSlots(g, v, t)[d][i])
    ensures LeadsTo(g, w, t', path, d, i)
  {
    hide Shape, AllSlots, Follow, Components, Live, IsDirectory, SameBytes, FatKept, SameButExtent;
    FollowExtent(AllSlots(g, v, t), d, i, AllSlots(g, w, t')[d][i], g.rootCluster, Components(path[1..]));
  }

  // ---------------------------------------------------------------- create; write; remove

  /** A chain started by a write was nobody's before. */
  lemma NewHead(g: Geometry, v: View, t: Tree, w: View, t': Tree, d: nat, i: nat, h: nat)
    requires WellFormed(g, v, t) && WellFormed(g, w, t') && OnlyFile(g, v, t, w, t', d, i, h) && h != 0
    requires ClusterOf(AllSlots(g, v, t)[d][i]) == 0 && LiveIn(AllSlots(g, w, t'), d, i)
    requires ClusterOf(AllSlots(g, w, t')[d][i]) == h && h !in t.dirs
    ensures h !in t.chains
  {
    hide Shape, AllSlots, Live, IsDirectory, SameBytes, FatKept, SameButExtent, ClusterOf, Put, SoundIn, SizedIn, Accounted;
    var m, m' := AllSlots(g, v, t), AllSlots(g, w, t');
    ShapeFacts(g, v, t);
    if h in t.chains {
      var e, j := t.home[h].0, t.home[h].1;
      assert LiveIn(m, e, j) && ClusterOf(m[e][j]) == h;
      LiveAfterPut(m, d, i, m'[d][i], e, j);
      OneHome(g, t', m', d, i, e, j);
    }
  }

  lemma OnlyFileChains(g: Geometry, v: View, t: Tree, w: View, t': Tree, d: nat, i: nat, h: nat)
    requires OnlyFile(g, v, t, w, t', d, i, h)
    ensures t'.other == t.other && |w.fat| == |v.fat|
    ensures forall k | k in t.chains && k != h :: k in t'.chains && t'.chains[k] == t.chains[k]
  {
    hide AllSlots, SameBytes, FatKept, SameButExtent, Live, Put, Shape;
    FatLength(g, v, t, w, t');
  }

  lemma Disjoint(g: Geometry, v: View, t: Tree, a: nat, b: nat, c: nat)
    requires Shape(g, v, t) && a != b
    ensures a in t.chains && b in t.chains && c in t.chains[b] ==> c !in t.chains[a]
  {
    hide IsChain;
  }

  /** The clusters such a chain took were free. */
  lemma TookFree(g: Geometry, v: View, t: Tree, w: View, t': Tree, d: nat, i: nat, h: nat, c: nat)
    requires Accounted(v, t) && Accounted(w, t') && Shape(g, w, t') && OnlyFile(g, v, t, w, t', d, i, h) && h !in t.chains
    requires h in t'.chains && c in t'.chains[h]
    ensures c < |v.fat| ==> v.fat[c] == 0
  {
    hide AllSlots, OnlyFile, Shape, IsPath;
    var k :| 0 <= k < |t'.chains[h]| && t'.chains[h][k] == c;
    ShapeFacts(g, w, t');
    ChainIsPath(w.fat, t'.chains[h]);
    PathStep(w.fat, t'.chains[h], k);
    assert Owned(t', c);
    OnlyFileChains(g, v, t, w, t', d, i, h);
    forall o | o in t.chains ensures c !in t.chains[o] {
      Disjoint(g, w, t', o, h, c);
    }
    assert !Owned(t, c);
  }

  lemma RestoredFat(v: View, w: View, ch: seq<nat>)
    requires |v.fat| == |w.fat| && FatKept(v.fat, w.fat, [], ch)
    requires forall c: nat | c in ch && c < |v.fat| :: v.fat[c] == 0
    ensures Wiped(w.fat, ch) == v.fat
  {
  }

  /** Writing a new file's first bytes and removing it leaves the FAT as it was. */
  lemma WriteRemoveRestores(g: Geometry, v: View, t: Tree, w: View, t': Tree, d: nat, i: nat, h: nat)
    requires WellFormed(g, v, t) && WellFormed(g, w, t') && OnlyFile(g, v, t, w, t', d, i, h)
    requires SlotIs(g, v, t, d, i, 0, 0) && ClusterOf(AllSlots(g, w, t')[d][i]) == h != 0 && LiveIn(AllSlots(g, w, t'), d, i)
    requires h in t'.chains && h !in t'.dirs
    ensures Wiped(w.fat, ChainAt(t', h)) == v.fat
  {
    hide Shape, AllSlots, Live, IsDirectory, SameBytes, FatKept, SameButExtent, ClusterOf, SizeOf, Put, Sound, SizedIn,
         HousedIn, Accounted, Wiped;
    NewHead(g, v, t, w, t', d, i, h);
    forall c: nat | c in t'.chains[h] && c < |v.fat| ensures v.fat[c] == 0 {
      TookFree(g, v, t, w, t', d, i, h, c);
    }
    FatLength(g, v, t, w, t');
    RestoredFat(v, w, t'.chains[h]);
  }

  lemma SamePlace(g: Geometry, v: View, t: Tree, path: Text, d: nat, i: nat, d': nat, i': nat)
    requires Shape(g, v, t) && LeadsTo(g, v, t, path, d, i)
    requires OldPlace(AllSlots(g, v, t), g.rootCluster, path) == Place(d', i')
    ensures (d', i') == (d, i)
  {
    hide Shape, AllSlots, Resolve, SplitInto, Find;
    OldPlaceResolves(AllSlots(g, v, t), g.rootCluster, path);
  }

  lemma GoneFat(g: Geometry, v: View, t: Tree, w: View, t': Tree, d: nat, i: nat, h: nat)
    requires EntryGone(g, v, t, w, t', d, i, h)
    ensures w.fat == Wiped(v.fat, ChainAt(t, h))
    ensures Shape(g, v, t) && LiveIn(AllSlots(g, v, t), d, i) && ClusterOf(AllSlots(g, v, t)[d][i]) == h
  {
    hide Shape, AllSlots, SameBytes, Live, Put, ClusterOf, DeletedSlot, Wiped;
  }

  lemma WriteDoneFacts(g: Geometry, v: View, t: Tree, w: View, t': Tree, d: nat, i: nat, h: nat, h': nat, pos: nat,
                       input: seq<byte>, old_: seq<byte>)
    requires WriteDone(g, v, t, w, t', d, i, h, h', pos, input, old_)
    ensures WellFormed(g, w, t') && OnlyFile(g, v, t, w, t', d, i, h') && |ChainAt(t', h')| > 0 && h' in t'.chains
  {
    hide WellFormed, OnlyFile, Shows, Spliced;
  }

  lemma SlotIsFacts(g: Geometry, v: View, t: Tree, d: nat, i: nat, h: nat, size: nat)
    requires SlotIs(g, v, t, d, i, h, size)
    ensures Shape(g, v, t) && LiveIn(AllSlots(g, v, t), d, i) && ClusterOf(AllSlots(g, v, t)[d][i]) == h
    ensures !IsDirectory(AllSlots(g, v, t)[d][i])
  {
    hide Shape, AllSlots, Live, ClusterOf, SizeOf, IsDirectory;
  }

  /** With bytes: the new chain's clusters were free and are in use; wiping them restores the FAT. */
  lemma RestoredBytes(g: Geometry, v: View, t: Tree, w: View, t1: Tree, path: Text, d: nat, i: nat, h: nat,
                      data: seq<byte>, size: nat)
    requires WellFormed(g, v, t) && SlotIs(g, v, t, d, i, 0, 0) && LeadsTo(g, v, t, path, d, i)
    requires WriteDone(g, v, t, w, t1, d, i, 0, h, 0, data, []) && SlotIs(g, w, t1, d, i, h, size)
    ensures Begun(g, v, w, t1, path, d, i)
  {
    hide Shape, AllSlots, Live, SizeOf, ClusterOf, IsDirectory, WriteDone, OnlyFile, LeadsTo, SlotIs, Wiped, WellFormed, ChainAt;
    WriteDoneFacts(g, v, t, w, t1, d, i, 0, h, 0, data, []);
    SlotIsFacts(g, v, t, d, i, 0, 0);
    SlotIsFacts(g, w, t1, d, i, h, size);
    ShapeFacts(g, w, t1);
    WellFormedSafe(g, w, t1);
    SlotFacts(g, w, t1, d, i, h, size);
    WrittenLeads(g, v, t, w, t1, path, d, i, h);
    WriteRemoveRestores(g, v, t, w, t1, d, i, h);
  }

  /** Without bytes there is no chain to wipe. */
  lemma RestoredEmpty(g: Geometry, v: View, t: Tree, path: Text, d: nat, i: nat)
    requires WellFormed(g, v, t) && SlotIs(g, v, t, d, i, 0, 0) && LeadsTo(g, v, t, path, d, i)
    ensures Begun(g, v, v, t, path, d, i)
  {
    hide Shape, AllSlots, Live, SizeOf, ClusterOf, IsDirectory, LeadsTo, SlotIs, WellFormed;
    SlotIsFacts(g, v, t, d, i, 0, 0);
    ShapeFacts(g, v, t);
  }

  /** What create and write come to on the way to a removal: the path leads to an entry, and wiping its chain would give
      back the FAT of v. */
  ghost predicate Begun(g: Geometry, v: View, w: View, t: Tree, path: Text, d: nat, i: nat) {
    && WellFormed(g, w, t) && Shape(g, w, t) && LeadsTo(g, w, t, path, d, i) && LiveIn(AllSlots(g, w, t), d, i)
    && Wiped(w.fat, ChainAt(t, ClusterOf(AllSlots(g, w, t)[d][i]))) == v.fat
  }

  lemma BegunFat(g: Geometry, v0: View, v: View, w: View, t: Tree, path: Text, d: nat, i: nat)
    requires Begun(g, v, w, t, path, d, i) && v.fat == v0.fat
    ensures Begun(g, v0, w, t, path, d, i) && WellFormed(g, w, t)
  {
    hide WellFormed, Shape, LeadsTo, AllSlots, Live, ClusterOf, Wiped, ChainAt;
  }

  /** create, then a first write. */
  method CreateAndWrite(fs: Volume, path: Text, data: seq<byte>, ghost t: Tree)
    returns (r: Status, ghost t': Tree, ghost d: nat, ghost i: nat)
    requires fs.Ready() && WellFormed(fs.g, fs.Now(), t) && OrdinaryName(path) && |data| < U32
    modifies fs`journal, fs.device, fs.sectorBuffer
    ensures fs.Ready()
    ensures r == Ok ==> Begun(fs.g, old(fs.Now()), fs.Now(), t', path, d, i) && WellFormed(fs.g, fs.Now(), t')
    ensures r == Ok ==> FileThere(fs.g, fs.Now(), t', path, d, i)
  {
    hide Kept, ViewOf, AllSlots, Shape, Safe, Housed, Accounted, OneSlot, LeadsTo, SlotIs, WriteDone, NewPlace, Shows,
         AllConsistent, WriteFailed, FreeCount, Writable, NameIn, Begun;
    t' := t;
    ghost var v0 := fs.Now();
    var file := new FileHandle();
    r := CreateFile(fs, path, file, t);
    d, i := file.directoryCluster, file.entryIndex;
    if r != Ok {
      return;
    }
    ghost var v := fs.Now();
    OneSlotRest(fs.g, v0, t, v, t, d, i, NewEntry(path, ATTR_ARCHIVE, 0, 0));
    SafeFacts(fs.g, v0, t);
    GoesToSplit(fs.g, v0, t, path, d, i);
    EmptyShows(fs.g, v, t, d, i);
    var n;
    ghost var x;
    ReadyMeans(fs.g, v, t, d, i, 0, 0, 0);
    r, n, t', x := Write(fs, file, data, t, 0, []);
    if r != Ok {
      return;
    }
    ReadyMeans(fs.g, fs.Now(), t', d, i, file.firstCluster, file.size, 0);
    if |data| > 0 {
      RestoredBytes(fs.g, v, t, fs.Now(), t', path, d, i, file.firstCluster, data, file.size);
    } else {
      RestoredEmpty(fs.g, v, t, path, d, i);
    }
    BegunFat(fs.g, v0, v, fs.Now(), t', path, d, i);
    SlotIsFacts(fs.g, fs.Now(), t', d, i, file.firstCluster, file.size);
    BegunThere(fs.g, v0, fs.Now(), t', path, d, i);
  }

  /** fat32_remove_file finds that file. */
  ghost predicate FileThere(g: Geometry, v: View, t: Tree, path: Text, d: nat, i: nat) {
    Shape(g, v, t) && RemovePlace(AllSlots(g, v, t), g.rootCluster, path) == Place(d, i)
  }

  lemma BegunThere(g: Geometry, v: View, w: View, t: Tree, path: Text, d: nat, i: nat)
    requires Begun(g, v, w, t, path, d, i) && Split(path).Some? && Shape(g, w, t) && LiveIn(AllSlots(g, w, t), d, i)
    requires !IsDirectory(AllSlots(g, w, t)[d][i])
    ensures FileThere(g, w, t, path, d, i)
  {
    hide Shape, AllSlots, LeadsTo, OldPlace, Wiped, WellFormed, IsDirectory, Live, SplitInto;
    LedPlace(g, w, t, path, d, i);
  }

  lemma EmptyShows(g: Geometry, v: View, t: Tree, d: nat, i: nat)
    requires WellFormed(g, v, t) && SlotIs(g, v, t, d, i, 0, 0)
    ensures Shows(g, v, ChainAt(t, 0), 0, []) && 0 !in t.chains
  {
    hide AllSlots, Live, SoundIn, SizedIn, HousedIn, Accounted;
    ShapeFacts(g, v, t);
  }

  lemma Ended(g: Geometry, v: View, w: View, t: Tree, path: Text, d: nat, i: nat, u: View, t': Tree, d': nat, i': nat, h: nat)
    requires Begun(g, v, w, t, path, d, i) && EntryGone(g, w, t, u, t', d', i', h) && Shape(g, w, t)
    requires OldPlace(AllSlots(g, w, t), g.rootCluster, path) == Place(d', i')
    ensures u.fat == v.fat
  {
    hide WellFormed, Shape, LeadsTo, AllSlots, Live, ClusterOf, Wiped, ChainAt, EntryGone, OldPlace;
    SamePlace(g, w, t, path, d, i, d', i');
    GoneFat(g, w, t, u, t', d', i', h);
  }

  /** create, write, remove: when the first two succeed so does the third, and every FAT entry is what it was. */
  method CreateWriteRemove(fs: Volume, path: Text, data: seq<byte>, ghost t: Tree) returns (written: Status, removed: Status)
    requires fs.Ready() && WellFormed(fs.g, fs.Now(), t) && OrdinaryName(path) && |data| < U32
    modifies fs`journal, fs.device, fs.sectorBuffer
    ensures fs.Ready()
    ensures written == Ok ==> removed == Ok && fs.Now().fat == old(fs.Now()).fat
  {
    hide Kept, ViewOf, AllSlots, Shape, SoundIn, SizedIn, Housed, Accounted, EntryGone, OldPlace, AllConsistent, Begun;
    removed := Error;
    ghost var v, t1, d, i := fs.Now(), t, 0, 0;
    written, t1, d, i := CreateAndWrite(fs, path, data, t);
    if written != Ok {
      return;
    }
    ghost var w, t2, d', i', h := fs.Now(), t1, 0, 0, 0;
    removed, t2, d', i', h := RemoveFile(fs, path, t1);
    Ended(fs.g, v, w, t1, path, d, i, fs.Now(), t2, d', i', h);
  }

  // ---------------------------------------------------------------- mkdir; rmdir

  lemma MadeEntries(g: Geometry, v: View, t: Tree, w: View, t': Tree, path: Text, d: nat, i: nat, c: nat)
    requires DirectoryMade(g, v, t, w, t', path, d, i, c)
    ensures c < |v.fat| && v.fat[c] == 0 && w.fat == v.fat[c := EOC] && ChainAt(t', c) == [c]
  {
    hide Shape, AllSlots, FreshDir, SameBytes, Accepted;
  }

  lemma WipedOne(fat: seq<nat>, c: nat)
    requires c < |fat| && fat[c] == 0
    ensures Wiped(fat[c := EOC], [c]) == fat
  {
  }

  /** A directory just made is where rmdir looks, and empty; wiping its one cluster restores the FAT. */
  lemma MadeBegun(g: Geometry, v: View, t: Tree, w: View, t': Tree, path: Text, d: nat, i: nat, c: nat)
    requires DirectoryMade(g, v, t, w, t', path, d, i, c) && OrdinaryName(path)
    requires WellFormed(g, w, t') && LeadsTo(g, w, t', path, d, i)
    ensures Begun(g, v, w, t', path, d, i)
    ensures var m := AllSlots(g, w, t'); c in m && ClusterOf(m[d][i]) == c && NoLive(m[c])
  {
    hide WellFormed, LeadsTo, AllSlots, ClusterOf, FreshDir, NameIn, Accepted, Encode, SizeOf, IsDirectory, Live, DirectoryMade,
         Wiped, ChainAt, Shape, TailUnused, DotsFirst, LooksEmpty;
    MadeSlots(g, v, t, w, t', path, d, i, c);
    MadeEntries(g, v, t, w, t', path, d, i, c);
    NameInIsText(path);
    NewEntryLive(NameIn(path), ATTR_DIRECTORY, c, 0);
    FreshDirFacts(AllSlots(g, w, t')[c], c, d);
    WipedOne(v.fat, c);
  }

  /** mkdir, rmdir: when both succeed every FAT entry is what it was; and the second does succeed. */
  method MakeRemoveDirectory(fs: Volume, path: Text, ghost t: Tree) returns (made: Status, removed: Status)
    requires fs.Ready() && WellFormed(fs.g, fs.Now(), t) && OrdinaryName(path)
    modifies fs`journal, fs.device, fs.sectorBuffer
    ensures fs.Ready()
    ensures made == Ok ==> removed == Ok && fs.Now().fat == old(fs.Now()).fat
    ensures made != Ok ==> fs.Now() == old(fs.Now())
  {
    hide Kept, ViewOf, AllSlots, Shape, SoundIn, SizedIn, Housed, Accounted, EntryGone, OldPlace, AllConsistent, Begun,
         DirectoryMade, LeadsTo, NewPlace, Full, GoesTo, NoLive, LooksEmpty, ClusterOf, IsDirectory;
    removed := Error;
    ghost var v, t1, d, i, c := fs.Now(), t, 0, 0, 0;
    made, t1, d, i, c := Mkdir(fs, path, t);
    if made != Ok {
      return;
    }
    ghost var w, t2, d', i', h := fs.Now(), t1, 0, 0, 0;
    MadeBegun(fs.g, v, t, w, t1, path, d, i, c);
    GoesToSplit(fs.g, v, t, path, d, i);
    MadeIsRemovable(fs.g, v, t, w, t1, path, d, i, c);
    removed, t2, d', i', h := RemoveDirectory(fs, path, t1);
    Ended(fs.g, v, w, t1, path, d, i, fs.Now(), t2, d', i', h);
  }

  lemma GoesToSplit(g: Geometry, v: View, t: Tree, path: Text, d: nat, i: nat)
    requires GoesTo(g, v, t, path, d, i)
    ensures Split(path).Some?
  {
    hide Shape, AllSlots, NewPlace, SplitInto;
    NewPlaceIsNew(AllSlots(g, v, t), g.rootCluster, path);
  }

  /** rmdir does not refuse it. */
  lemma MadeIsRemovable(g: Geometry, v: View, t: Tree, w: View, t': Tree, path: Text, d: nat, i: nat, c: nat)
    requires DirectoryMade(g, v, t, w, t', path, d, i, c) && LeadsTo(g, w, t', path, d, i) && Split(path).Some?
    requires OrdinaryName(path)
    ensures Shape(g, w, t') && RemoveDirectoryPlace(AllSlots(g, w, t'), g.rootCluster, path) == Place(d, i)
  {
    hide LeadsTo, AllSlots, ClusterOf, FreshDir, NameIn, Accepted, Encode, SizeOf, IsDirectory, Live, DirectoryMade, Shape,
         TailUnused, DotsFirst, LooksEmpty, NoLive, Split, OldPlace;
    MadeSlots(g, v, t, w, t', path, d, i, c);
    NameInIsText(path);
    NewEntryLive(NameIn(path), ATTR_DIRECTORY, c, 0);
    FreshDirFacts(AllSlots(g, w, t')[c], c, d);
    LedPlace(g, w, t', path, d, i);
  }

  lemma LedPlace(g: Geometry, v: View, t: Tree, path: Text, d: nat, i: nat)
    requires LeadsTo(g, v, t, path, d, i) && Split(path).Some?
    ensures Shape(g, v, t) && OldPlace(AllSlots(g, v, t), g.rootCluster, path) == Place(d, i)
  {
    hide Shape, AllSlots, Resolve, SplitInto, OldPlace;
    OldPlaceResolves(AllSlots(g, v, t), g.rootCluster, path);
  }
}
