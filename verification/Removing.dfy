/** fat32_remove_file and fat32_remove_directory. */
module Removing {
  import opened Bytes
  import opened Geometry
  import opened Volumes
  import opened Chains
  import opened Freeing
  import opened Slots
  import opened Trees
  import opened TreeSteps
  import opened TreeUnique
  import opened TreeNames
  import opened SlotStore
  import opened FileWrite
  import opened Truncating
  import opened EmptyDirs
  import opened Plans
  import opened Locating
  import opened Creating

  /** What taking the entry in slot i of d, which names head h, off the volume comes to: the slot is marked deleted, the
      clusters of h's chain are free, the directories in gone are out of reach, and nothing else has changed. */
  ghost predicate EntryShed(g: Geometry, v: View, t: Tree, w: View, t': Tree, d: nat, i: nat, h: nat, gone: set<nat>) {
    && t' == Shed(t, h, gone)
    && Shape(g, v, t) && Shape(g, w, t') && LiveIn(AllSlots(g, v, t), d, i)
    && ClusterOf(AllSlots(g, v, t)[d][i]) == h
    && w.fat == Wiped(v.fat, ChainAt(t, h))
    && AllSlots(g, w, t') == Put(AllSlots(g, v, t), d, i, DeletedSlot(AllSlots(g, v, t)[d][i])) - gone
    && forall k | k in t'.chains && k !in t.dirs :: SameBytes(g, v, w, t.chains[k])
  }

  /** The usual case: no directory goes but the one removed. */
  ghost predicate EntryGone(g: Geometry, v: View, t: Tree, w: View, t': Tree, d: nat, i: nat, h: nat) {
    EntryShed(g, v, t, w, t', d, i, h, {h})
  }

  lemma WithoutNothing(g: Geometry, v: View, t: Tree, h: nat)
    requires h !in t.chains
    ensures ChainAt(t, h) == [] && Wiped(v.fat, ChainAt(t, h)) == v.fat
    ensures Accounted(v, t) ==> Accounted(v, Without(t, h))
  {
    assert Without(t, h).chains == t.chains;
    assert forall c :: Owned(Without(t, h), c) == Owned(t, c);
  }

  /** The volume between the deletion of the entry and the end of the release. */
  ghost predicate Releasing(g: Geometry, w: View, t: Tree, h: nat, j: View) {
    && j.data == w.data && |j.fat| == |w.fat|
    && forall c: nat | c < |w.fat| && c !in ChainAt(t, h) :: j.fat[c] == w.fat[c]
  }

  lemma ReleasingSafe(g: Geometry, w: View, t: Tree, h: nat, gone: set<nat>, j: View)
    requires Shape(g, w, t) && Safe(g, w, Shed(t, h, gone)) && Releasing(g, w, t, h, j)
    ensures Safe(g, j, Shed(t, h, gone)) && Consistent(g, j)
    ensures Housed(g, w, Shed(t, h, gone), 0) ==> Housed(g, j, Shed(t, h, gone), 0)
    ensures Shape(g, j, Shed(t, h, gone)) && Shape(g, w, Shed(t, h, gone))
    ensures AllSlots(g, j, Shed(t, h, gone)) == AllSlots(g, w, Shed(t, h, gone))
  {
    hide AllSlots, Sound, SizedIn, HousedIn, IsChain;
    SafeFacts(g, w, Shed(t, h, gone));
    if h in t.chains {
      BeingFreed(g, w, t, h, gone, j);
    } else {
      assert j.fat == w.fat;
      assert j == w;
    }
    SafeFacts(g, j, Shed(t, h, gone));
  }

  lemma FreedBooks(w: View, t: Tree, h: nat, u: View, g: Geometry)
    requires Shape(g, w, t) && Accounted(w, t) && u.fat == Wiped(w.fat, ChainAt(t, h))
    ensures Accounted(u, Without(t, h))
  {
    hide Shape, Accounted, Wiped, Without;
    if h in t.chains {
      FreedAccounted(g, w, t, h, u);
    } else {
      WithoutNothing(g, w, t, h);
      SameFat(w, u, Without(t, h));
    }
  }

  /** What removing the entry in slot i of d severs. */
  ghost function Gone(t: Tree, m: Dirs, h: nat): set<nat> {
    if NothingBelow(m, h) then {h} else Subtree(t, h)
  }

  lemma GoneSevered(g: Geometry, v: View, t: Tree, d: nat, i: nat, h: nat)
    requires WellFormed(g, v, t) && LiveIn(AllSlots(g, v, t), d, i) && ClusterOf(AllSlots(g, v, t)[d][i]) == h
    ensures Severed(t, AllSlots(g, v, t), g.rootCluster, d, i, Gone(t, AllSlots(g, v, t), h))
    ensures DirsNamed(g, t, AllSlots(g, v, t))
  {
    hide AllSlots, SoundIn, HousedIn, SizedIn, Accounted, Severed, Subtree, NothingBelow, ClusterOf, Live, IsChain, DirsNamed;
    WellFormedNamed(g, v, t);
    ShapeFacts(g, v, t);
    if NothingBelow(AllSlots(g, v, t), h) {
      NothingSevered(g, t, AllSlots(g, v, t), d, i);
    } else {
      SubtreeSevered(g, t, AllSlots(g, v, t), d, i);
    }
  }

  /** Once the chain is free every directory left is as it was; and if nothing with a chain hung below the entry the
      volume is well formed again. */
  lemma Released(g: Geometry, v: View, t: Tree, d: nat, i: nat, h: nat, u: View)
    requires WellFormed(g, v, t) && LiveIn(AllSlots(g, v, t), d, i) && ClusterOf(AllSlots(g, v, t)[d][i]) == h
    requires u.data == WithSlot(g, v, t, d, i, DeletedSlot(AllSlots(g, v, t)[d][i])).data
    requires u.fat == Wiped(v.fat, ChainAt(t, h))
    ensures var gone := Gone(t, AllSlots(g, v, t), h); var t' := Shed(t, h, gone);
            && Safe(g, u, t') && Shape(g, u, t')
            && AllSlots(g, u, t') == Put(AllSlots(g, v, t), d, i, DeletedSlot(AllSlots(g, v, t)[d][i])) - gone
    ensures NothingBelow(AllSlots(g, v, t), h) ==> WellFormed(g, u, Without(t, h))
  {
    hide AllSlots, Shape, WithSlot, SoundIn, SizedIn, HousedIn, Accounted, Put, ClusterOf, Live, DeletedSlot, Shed, Wiped,
         Releasing, Severed, NothingBelow, Subtree, DirsNamed;
    var m := AllSlots(g, v, t);
    var w := WithSlot(g, v, t, d, i, DeletedSlot(m[d][i]));
    var gone := Gone(t, m, h);
    ShapeFacts(g, v, t);
    GoneSevered(g, v, t, d, i, h);
    Removed(g, v, t, m, d, i, gone);
    WithSlotEffect(g, v, t, d, i, DeletedSlot(m[d][i]));
    ReleasingAtEnd(g, w, t, h, u);
    ReleasingSafe(g, w, t, h, gone, u);
    SameFat(v, w, t);
    FreedBooks(w, t, h, u, g);
  }

  lemma Shedded(g: Geometry, v: View, t: Tree, d: nat, i: nat, h: nat, u: View)
    requires WellFormed(g, v, t) && LiveIn(AllSlots(g, v, t), d, i) && ClusterOf(AllSlots(g, v, t)[d][i]) == h
    requires u.data == WithSlot(g, v, t, d, i, DeletedSlot(AllSlots(g, v, t)[d][i])).data
    requires u.fat == Wiped(v.fat, ChainAt(t, h))
    ensures var gone := Gone(t, AllSlots(g, v, t), h);
            Safe(g, u, Shed(t, h, gone)) && EntryShed(g, v, t, u, Shed(t, h, gone), d, i, h, gone)
    ensures NothingBelow(AllSlots(g, v, t), h) ==>
              WellFormed(g, u, Without(t, h)) && EntryGone(g, v, t, u, Without(t, h), d, i, h)
  {
    hide AllSlots, Shape, WithSlot, Sound, SizedIn, Housed, Accounted, Put, ClusterOf, Live, DeletedSlot, Wiped, SameBytes,
         NothingBelow, Subtree;
    SafeFacts(g, v, t);
    Released(g, v, t, d, i, h, u);
    ShapeFacts(g, u, Shed(t, h, Gone(t, AllSlots(g, v, t), h)));
    GoneBytes(g, v, t, d, i, h, u);
  }

  /** The volume is well formed again, in any tree that counts no cluster as foreign that was not, if and only if nothing
      with a chain hung below the entry: what a chain down there occupied is lost. */
  lemma WellFormedAgain(g: Geometry, v: View, t: Tree, d: nat, i: nat, h: nat, u: View)
    requires WellFormed(g, v, t) && LiveIn(AllSlots(g, v, t), d, i) && ClusterOf(AllSlots(g, v, t)[d][i]) == h
    requires u.data == WithSlot(g, v, t, d, i, DeletedSlot(AllSlots(g, v, t)[d][i])).data
    requires u.fat == Wiped(v.fat, ChainAt(t, h))
    ensures (exists tb :: WellFormed(g, u, tb) && tb.other == t.other) <==> NothingBelow(AllSlots(g, v, t), h)
  {
    hide AllSlots, Shape, WithSlot, SoundIn, SizedIn, Housed, Accounted, NothingBelow, ClusterOf, Live, DeletedSlot, Wiped;
    if NothingBelow(AllSlots(g, v, t), h) {
      Released(g, v, t, d, i, h, u);
      assert Without(t, h).other == t.other;
    } else {
      ChainLost(g, v, t, d, i, h, u);
    }
  }

  lemma ChainLost(g: Geometry, v: View, t: Tree, d: nat, i: nat, h: nat, u: View)
    requires WellFormed(g, v, t) && LiveIn(AllSlots(g, v, t), d, i) && ClusterOf(AllSlots(g, v, t)[d][i]) == h
    requires u.data == WithSlot(g, v, t, d, i, DeletedSlot(AllSlots(g, v, t)[d][i])).data
    requires u.fat == Wiped(v.fat, ChainAt(t, h)) && !NothingBelow(AllSlots(g, v, t), h)
    ensures !exists tb :: WellFormed(g, u, tb) && tb.other == t.other
  {
    hide AllSlots, Shape, WithSlot, SoundIn, SizedIn, HousedIn, Put, ClusterOf, Live, DeletedSlot, Wiped, DirsNamed, Subtree,
         Unnamed, Severed, Accounted;
    var m := AllSlots(g, v, t);
    var j: nat :| LiveIn(m, h, j) && ClusterOf(m[h][j]) != 0;
    var gone, c := Subtree(t, h), ClusterOf(m[h][j]);
    Released(g, v, t, d, i, h, u);
    GoneSevered(g, v, t, d, i, h);
    ShapeFacts(g, v, t);
    RootFirst(g, v, t);
    SubtreeNamed(g, t, m, d, i);
    SubtreeUnnamed(g, t, m, d, i, j);
    HeadNotForeign(g, v, t, c);
    NoSuchTree(g, u, Shed(t, h, gone), c);
  }

  lemma RootFirst(g: Geometry, v: View, t: Tree)
    requires Shape(g, v, t)
    ensures g.rootCluster in t.dirs && t.dirs[g.rootCluster] == 0
  {
  }

  lemma ReleasingAtEnd(g: Geometry, w: View, t: Tree, h: nat, u: View)
    requires u.data == w.data && u.fat == Wiped(w.fat, ChainAt(t, h))
    ensures Releasing(g, w, t, h, u)
  {
  }

  lemma GoneBytes(g: Geometry, v: View, t: Tree, d: nat, i: nat, h: nat, u: View)
    requires Shape(g, v, t) && d in t.dirs && i < |AllSlots(g, v, t)[d]|
    requires u.data == WithSlot(g, v, t, d, i, DeletedSlot(AllSlots(g, v, t)[d][i])).data && Fitted(g, u)
    ensures forall k | k in t.chains && k !in t.dirs :: SameBytes(g, v, u, t.chains[k])
  {
    hide AllSlots, Shape, WithSlot, Put;
    var s := DeletedSlot(AllSlots(g, v, t)[d][i]);
    var w := WithSlot(g, v, t, d, i, s);
    OneSlotWritten(g, v, t, d, i, s);
    forall k | k in t.chains && k !in t.dirs ensures SameBytes(g, v, u, t.chains[k]) {
      assert SameBytes(g, v, w, t.chains[k]);
      SameData(g, w, u, t.chains[k]);
    }
  }

  /** Every boundary while the chain is being released is safe for the tree without it. */
  lemma ReleaseBoundary(g: Geometry, v: View, t: Tree, d: nat, i: nat, h: nat, w: View, j: View)
    requires WellFormed(g, v, t) && LiveIn(AllSlots(g, v, t), d, i) && ClusterOf(AllSlots(g, v, t)[d][i]) == h
    requires w == WithSlot(g, v, t, d, i, DeletedSlot(AllSlots(g, v, t)[d][i]))
    requires j.data == w.data && Thinned(w.fat, j.fat, Wiped(w.fat, ChainAt(t, h)))
    ensures Consistent(g, j)
  {
    hide AllSlots, Shape, WithSlot, SoundIn, SizedIn, HousedIn, Accounted, Put, ClusterOf, Live, DeletedSlot, Shed,
         Severed, NothingBelow, Subtree, DirsNamed;
    var m := AllSlots(g, v, t);
    ShapeFacts(g, v, t);
    GoneSevered(g, v, t, d, i, h);
    Removed(g, v, t, m, d, i, Gone(t, m, h));
    WithSlotEffect(g, v, t, d, i, DeletedSlot(m[d][i]));
    ReleasingSafe(g, w, t, h, Gone(t, m, h), j);
  }

  lemma ReleaseBoundaries(g: Geometry, v: View, t: Tree, d: nat, i: nat, h: nat, w: View, a: seq<View>, b: seq<View>, c: seq<View>)
    requires WellFormed(g, v, t) && LiveIn(AllSlots(g, v, t), d, i) && ClusterOf(AllSlots(g, v, t)[d][i]) == h
    requires w == WithSlot(g, v, t, d, i, DeletedSlot(AllSlots(g, v, t)[d][i]))
    requires b == a + [w] && (c == b || ThinningOnly(b, c, w, Wiped(w.fat, ChainAt(t, h))))
    ensures AllConsistent(g, a, c)
  {
    hide AllSlots, WellFormed, WithSlot, ClusterOf, DeletedSlot, Wiped, Consistent, ChainAt, Thinned, Live;
    ThinnedStart(w.fat, ChainAt(t, h));
    forall k | |a| <= k < |c| ensures Consistent(g, c[k]) {
      if k < |b| {
        assert c[k] == b[k] == w;
      }
      ReleaseBoundary(g, v, t, d, i, h, w, c[k]);
    }
  }

  /** What remove and rmdir do once they have found the entry: mark it deleted, then free its chain. Every boundary on the
      way is consistent. The volume is well formed afterwards unless the entry is a directory with something in it that
      has a chain: then that chain is lost. */
  method DeleteAndFree(fs: Volume, dir: nat, cluster: nat, entryIndex: nat, ghost t: Tree) returns (r: Status, ghost t': Tree)
    requires fs.Ready() && WellFormed(fs.g, fs.Now(), t) && LiveIn(SlotsNow(fs, t), dir, entryIndex)
    requires cluster == ClusterOf(SlotsNow(fs, t)[dir][entryIndex]) && Linked(t, dir, SlotsNow(fs, t)[dir][entryIndex])
    modifies fs`journal, fs.device, fs.sectorBuffer
    ensures fs.Ready() && r == Ok
    ensures Safe(fs.g, fs.Now(), t') && AllConsistent(fs.g, old(fs.journal), fs.journal)
    ensures EntryShed(fs.g, old(fs.Now()), t, fs.Now(), t', dir, entryIndex, cluster, Gone(t, old(SlotsNow(fs, t)), cluster))
    ensures (exists tb :: WellFormed(fs.g, fs.Now(), tb) && tb.other == t.other)
       <==> NothingBelow(old(SlotsNow(fs, t)), cluster)
    ensures NothingBelow(old(SlotsNow(fs, t)), cluster) ==>
              && WellFormed(fs.g, fs.Now(), t')
              && EntryGone(fs.g, old(fs.Now()), t, fs.Now(), t', dir, entryIndex, cluster)
  {
    hide Kept, ViewOf, AllSlots, Shape, WithSlot, SoundIn, SizedIn, Housed, Accounted, ClusterOf, Live, DeletedSlot, Wiped,
         FreeWalk, EntryGone, EntryShed, Consistent, IsDirectory, NothingBelow, Subtree;
    t' := Shed(t, cluster, Gone(t, SlotsNow(fs, t), cluster));
    ghost var v, j := fs.Now(), fs.journal;
    ShapeFacts(fs.g, v, t);
    r := DeleteEntry(fs, dir, entryIndex, t);
    if r != Ok {
      return;
    }
    ghost var w, j1 := fs.Now(), fs.journal;
    WithSlotFat(fs.g, v, t, dir, entryIndex, DeletedSlot(AllSlots(fs.g, v, t)[dir][entryIndex]));
    if cluster == 0 {
      WithoutNothing(fs.g, w, t, 0);
    } else {
      ChainHead(w.fat, t.chains[cluster]);
      r := FreeClusterChain(fs, cluster);
    }
    Shedded(fs.g, v, t, dir, entryIndex, cluster, fs.Now());
    WellFormedAgain(fs.g, v, t, dir, entryIndex, cluster, fs.Now());
    ReleaseBoundaries(fs.g, v, t, dir, entryIndex, cluster, w, j, j1, fs.journal);
  }

  lemma ThinnedStart(fat: seq<nat>, ch: seq<nat>)
    ensures Thinned(fat, fat, Wiped(fat, ch))
  {
  }

  // ---------------------------------------------------------------- the operations

  lemma FileHasNothing(t: Tree, m: Dirs, d: nat, i: nat)
    requires m.Keys == t.dirs.Keys && LiveIn(m, d, i) && !IsDirectory(m[d][i]) && Linked(t, d, m[d][i]) && 0 !in t.dirs
    ensures NothingBelow(m, ClusterOf(m[d][i]))
  {
  }

  lemma EmptyHasNothing(m: Dirs, h: nat)
    requires h in m && NoLive(m[h])
    ensures NothingBelow(m, h)
  {
    hide Live;
  }

  /** fat32_remove_file: the outcome RemovePlace decides; on success that entry and its chain are gone and nothing else has
      changed, on failure nothing has. All block boundaries on the way are consistent. */
  method RemoveFile(fs: Volume, path: Text, ghost t: Tree) returns (r: Status, ghost t': Tree, ghost d: nat, ghost i: nat, ghost h: nat)
    requires fs.Ready() && WellFormed(fs.g, fs.Now(), t)
    modifies fs`journal, fs.device, fs.sectorBuffer
    ensures fs.Ready()
    ensures RemovePlace(old(SlotsNow(fs, t)), fs.g.rootCluster, path) == if r == Ok then Place(d, i) else Refused(r)
    ensures r != Ok ==> fs.Now() == old(fs.Now()) && fs.journal == old(fs.journal) && t' == t
    ensures AllConsistent(fs.g, old(fs.journal), fs.journal)
    ensures r == Ok ==> WellFormed(fs.g, fs.Now(), t')
    ensures r == Ok ==> EntryGone(fs.g, old(fs.Now()), t, fs.Now(), t', d, i, h) && h !in t.dirs
  {
    hide Kept, ViewOf, AllSlots, Shape, SoundIn, SizedIn, Housed, Accounted, EntryGone, EntryShed, NothingBelow, Subtree,
         AllConsistent, OldPlace, ClusterOf, SizeOf, IsDirectory, Live;
    t', d, i, h := t, 0, 0, 0;
    ghost var v := fs.Now();
    NothingYet(fs.g, fs.journal);
    ShapeFacts(fs.g, v, t);
    var dir, cluster, size, isDirectory, entryIndex;
    r, dir, cluster, size, isDirectory, entryIndex := FindOld(fs, path, t);
    if r != Ok {
      return;
    }
    if isDirectory {
      r := NotAFile;
      return;
    }
    d, i, h := dir, entryIndex, cluster;
    FileHasNothing(t, SlotsNow(fs, t), d, i);
    r, t' := DeleteAndFree(fs, dir, cluster, entryIndex, t);
  }

  /** fat32_remove_directory: the outcome RemoveDirectoryPlace decides. On success the entry and the directory's chain are
      gone, with every boundary consistent. The volume is well formed afterwards if and only if no live entry of the
      directory had a chain, that is unless fat32_directory_is_empty passed over an entry called "..A" that had one. */
  method RemoveDirectory(fs: Volume, path: Text, ghost t: Tree)
    returns (r: Status, ghost t': Tree, ghost d: nat, ghost i: nat, ghost h: nat)
    requires fs.Ready() && WellFormed(fs.g, fs.Now(), t)
    modifies fs`journal, fs.device, fs.sectorBuffer
    ensures fs.Ready() && AllConsistent(fs.g, old(fs.journal), fs.journal)
    ensures RemoveDirectoryPlace(old(SlotsNow(fs, t)), fs.g.rootCluster, path) == if r == Ok then Place(d, i) else Refused(r)
    ensures r != Ok ==> fs.Now() == old(fs.Now()) && fs.journal == old(fs.journal) && t' == t
    ensures r == Ok ==> LiveIn(old(SlotsNow(fs, t)), d, i) && ClusterOf(old(SlotsNow(fs, t))[d][i]) == h
    ensures r == Ok ==> h in t.dirs && LooksEmpty(old(SlotsNow(fs, t))[h])
    ensures r == Ok ==> Safe(fs.g, fs.Now(), t')
    ensures r == Ok ==> EntryShed(fs.g, old(fs.Now()), t, fs.Now(), t', d, i, h, Gone(t, old(SlotsNow(fs, t)), h))
    ensures r == Ok ==> ((exists tb :: WellFormed(fs.g, fs.Now(), tb) && tb.other == t.other)
                    <==> NothingBelow(old(SlotsNow(fs, t)), h))
    ensures r == Ok && NothingBelow(old(SlotsNow(fs, t)), h) ==>
              WellFormed(fs.g, fs.Now(), t') && EntryGone(fs.g, old(fs.Now()), t, fs.Now(), t', d, i, h)
    ensures r == Ok && NoLive(old(SlotsNow(fs, t))[h]) ==> NothingBelow(old(SlotsNow(fs, t)), h)
  {
    hide Kept, ViewOf, AllSlots, Shape, SoundIn, SizedIn, Housed, Accounted, EntryGone, EntryShed, NothingBelow, Subtree,
         AllConsistent, OldPlace, ClusterOf, SizeOf, IsDirectory, Live, LooksEmpty, NoLive;
    t', d, i, h := t, 0, 0, 0;
    ghost var v := fs.Now();
    NothingYet(fs.g, fs.journal);
    ShapeFacts(fs.g, v, t);
    var dir, cluster, size, isDirectory, entryIndex;
    RootRefused(SlotsNow(fs, t), fs.g.rootCluster, path);
    if path == [SLASH] {
      r := Error;
      return;
    }
    r, dir, cluster, size, isDirectory, entryIndex := FindOld(fs, path, t);
    if r != Ok {
      return;
    }
    if !isDirectory {
      r := NotADirectory;
      return;
    }
    var empty;
    r, empty := DirectoryIsEmpty(fs, cluster, t);
    if r != Ok {
      return;
    }
    if !empty {
      r := DirectoryNotEmpty;
      return;
    }
    d, i, h := dir, entryIndex, cluster;
    if NoLive(SlotsNow(fs, t)[h]) {
      EmptyHasNothing(SlotsNow(fs, t), h);
    }
    r, t' := DeleteAndFree(fs, dir, cluster, entryIndex, t);
  }

  /** The test for "/" is never reached with a path that could be split. */
  lemma RootRefused(m: Dirs, root: nat, path: Text)
    ensures path == [SLASH] ==> RemoveDirectoryPlace(m, root, path) == Refused(Error)
  {
  }
}
