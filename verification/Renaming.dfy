/** fat32_rename_file. */
module Renaming {
  import opened Bytes
  import opened Geometry
  import opened Volumes
  import opened Slots
  import opened Names83
  import opened LongNames
  import opened Trees
  import opened TreeSteps
  import opened TreeNames
  import opened TreeUnique
  import opened SlotStore
  import opened FileWrite
  import opened DirScan
  import opened Lookup
  import opened Paths
  import opened Plans
  import opened DeadNames
  import opened Locating
  import opened Creating

  /** The entry a file has after it was renamed. */
  function MovedEntry(newPath: Text, s: Slot): Slot
    requires Accepted(NameIn(newPath))
  {
    NewEntry(newPath, ATTR_ARCHIVE, ClusterOf(s), SizeOf(s))
  }

  /** What a rename comes to: the entry of slot i0 of d0 is now in slot i of d under its new name, with the same first
      cluster and size; no chain, no byte of any file and no other slot has changed. */
  ghost predicate EntryMoved(g: Geometry, v: View, t: Tree, w: View, t': Tree, newPath: Text, d0: nat, i0: nat, d: nat, i: nat) {
    && Shape(g, v, t) && Shape(g, w, t') && w.fat == v.fat && t'.chains == t.chains && t'.dirs == t.dirs && t'.other == t.other
    && Accepted(NameIn(newPath)) && LiveIn(AllSlots(g, v, t), d0, i0) && d in t.dirs && i < |AllSlots(g, v, t)[d]|
    && AllSlots(g, w, t') == Moved(AllSlots(g, v, t), d0, i0, d, i, MovedEntry(newPath, AllSlots(g, v, t)[d0][i0]))
    && forall k | k in t.chains && k !in t.dirs :: SameBytes(g, v, w, t.chains[k])
  }

  lemma SlotBounds(s: Slot)
    ensures ClusterOf(s) < U32 && SizeOf(s) < U32
  {
  }

  lemma MovedEntryFacts(newPath: Text, s: Slot)
    requires Accepted(NameIn(newPath))
    ensures var s' := MovedEntry(newPath, s);
            && (Live(s') <==> OrdinaryName(newPath)) && (s'[0] == DELETED <==> !OrdinaryName(newPath))
            && NameOf(s') == Encode(NameIn(newPath)) && s'[0] != 0
            && ClusterOf(s') == ClusterOf(s) && SizeOf(s') == SizeOf(s) && !IsDirectory(s')
  {
    hide ClusterOf, SizeOf, IsDirectory, Live, Encode, Accepted;
    NameInIsText(newPath);
    SlotBounds(s);
    NewEntryLive(NameIn(newPath), ATTR_ARCHIVE, ClusterOf(s), SizeOf(s));
  }

  lemma MovedIs(g: Geometry, v: View, t: Tree, half: View, w: View, t': Tree, newPath: Text, d0: nat, i0: nat, d: nat, i: nat,
                s0: Slot)
    requires Accepted(NameIn(newPath))
    requires OneSlot(g, v, t, half, t, d, i, MovedEntry(newPath, s0)) && OneSlot(g, half, t, w, t, d0, i0, DeletedSlot(s0))
    requires LiveIn(AllSlots(g, v, t), d0, i0) && AllSlots(g, v, t)[d0][i0] == s0 && !Live(AllSlots(g, v, t)[d][i])
    requires exists h :: t' == At(t, h, d, i)
    ensures EntryMoved(g, v, t, w, t', newPath, d0, i0, d, i)
  {
    hide AllSlots, Shape, WithSlot, Put, ClusterOf, SizeOf, Live, IsDirectory, MovedEntry, DeletedSlot, SameBytes, BytesAt,
         Accepted, NameIn, OneSlot;
    var s := MovedEntry(newPath, s0);
    OneSlotFacts(g, v, t, half, t, d, i, s);
    OneSlotRest(g, v, t, half, t, d, i, s);
    OneSlotFacts(g, half, t, w, t, d0, i0, DeletedSlot(s0));
    OneSlotRest(g, half, t, w, t, d0, i0, DeletedSlot(s0));
    var h :| t' == At(t, h, d, i);
    HomeFree(g, w, t, h, d, i);
    LiveAfterPut(AllSlots(g, v, t), d, i, s, d0, i0);
    forall k | k in t.chains && k !in t.dirs ensures SameBytes(g, v, w, t.chains[k]) {
      SameBytesTwice(g, v, half, w, t.chains[k]);
    }
  }

  /** After a rename the new path leads to the entry. */
  lemma MovedIsFound(t: Tree, m: Dirs, root: nat, newPath: Text, d0: nat, i0: nat, d: nat, i: nat, s: Slot)
    requires SoundIn(t, m) && root in t.dirs && NewPlace(m, root, newPath) == Place(d, i) && LiveIn(m, d0, i0)
    requires SoundIn(t, Put(m, d, i, s)) && (d0, i0) != (d, i) && Put(m, d, i, s)[d0][i0] == m[d0][i0]
    requires Accepted(NameIn(newPath)) && Live(s) && NameOf(s) == Encode(NameIn(newPath))
    requires !IsDirectory(m[d0][i0]) && ClusterOf(m[d0][i0]) !in t.dirs
    ensures Resolve(Moved(m, d0, i0, d, i, s), root, newPath) == AtEntry(d, i)
  {
    hide Resolve, NewPlace, NameIn, Encode, Accepted, ClusterOf, IsDirectory, Live, TailUnused, DotsFirst, DeletedSlot;
    LiveIsUsed(s);
    var half := Put(m, d, i, s);
    NewEntryResolves(t, m, root, newPath, s, half);
    assert Removable(t, half, d0, i0);
    ResolveCleared(t, half, root, newPath, d0, i0);
    assert Cleared(half, d0, i0) == Moved(m, d0, i0, d, i, s);
  }

  /** The first of the two writes: the new entry, beside the old one. */
  lemma RenameHalf(g: Geometry, v: View, t: Tree, newPath: Text, d0: nat, i0: nat, d: nat, i: nat, s0: Slot)
    requires Sound(g, v, t) && GoesTo(g, v, t, newPath, d, i)
    requires LiveIn(AllSlots(g, v, t), d0, i0) && AllSlots(g, v, t)[d0][i0] == s0
    ensures Accepted(NameIn(newPath)) && d in t.dirs && i < |AllSlots(g, v, t)[d]|
    ensures !Live(AllSlots(g, v, t)[d][i]) && (d0, i0) != (d, i)
    ensures OneSlot(g, v, t, WithSlot(g, v, t, d, i, MovedEntry(newPath, s0)), t, d, i, MovedEntry(newPath, s0))
    ensures Shape(g, WithSlot(g, v, t, d, i, MovedEntry(newPath, s0)), t)
    ensures LiveIn(AllSlots(g, WithSlot(g, v, t, d, i, MovedEntry(newPath, s0)), t), d0, i0)
    ensures AllSlots(g, WithSlot(g, v, t, d, i, MovedEntry(newPath, s0)), t)[d0][i0] == s0
  {
    hide AllSlots, Shape, WithSlot, Put, SoundIn, Live, MovedEntry, Accepted, NameIn, OneSlot, GoesTo, FirstFree;
    GoesToFacts(g, v, t, newPath, d, i);
    FirstFreeIsFree(AllSlots(g, v, t)[d], i);
    var s := MovedEntry(newPath, s0);
    OneSlotWritten(g, v, t, d, i, s);
    OneSlotFacts(g, v, t, WithSlot(g, v, t, d, i, s), t, d, i, s);
    LiveAfterPut(AllSlots(g, v, t), d, i, s, d0, i0);
  }

  /** Both writes of a rename, from a well-formed volume and under an ordinary name. */
  lemma RenameWhole(g: Geometry, v: View, t: Tree, half: View, w: View, newPath: Text, d0: nat, i0: nat, d: nat, i: nat, s0: Slot)
    requires WellFormed(g, v, t) && GoesTo(g, v, t, newPath, d, i) && OrdinaryName(newPath) && Accepted(NameIn(newPath))
    requires LiveIn(AllSlots(g, v, t), d0, i0) && AllSlots(g, v, t)[d0][i0] == s0 && !IsDirectory(s0)
    requires OneSlot(g, v, t, half, t, d, i, MovedEntry(newPath, s0)) && OneSlot(g, half, t, w, t, d0, i0, DeletedSlot(s0))
    ensures Safe(g, half, t) && WellFormed(g, w, At(t, ClusterOf(s0), d, i))
    ensures LeadsTo(g, w, At(t, ClusterOf(s0), d, i), newPath, d, i)
  {
    hide AllSlots, Shape, WithSlot, Put, SoundIn, SizedIn, HousedIn, Accounted, ClusterOf, SizeOf, Live, IsDirectory,
         MovedEntry, DeletedSlot, SameBytes, Accepted, NameIn, FirstFree, Encode, NewPlace, Resolve, At;
    var m, s := AllSlots(g, v, t), MovedEntry(newPath, s0);
    ShapeFacts(g, v, t);
    GoesToFacts(g, v, t, newPath, d, i);
    MovedEntryFacts(newPath, s0);
    assert Movable(t, m, d0, i0, d, i, s);
    Renamed(g, v, t, m, d0, i0, d, i, s);
    MovedHalf(g, t, m, d0, i0, d, i, s);
    NotADirectoryHead(t, m, d0, i0);
    MovedIsFound(t, m, g.rootCluster, newPath, d0, i0, d, i, s);
  }

  /** Both writes under a name that begins with 0xE5: safe, but nobody names the file's chain any more. */
  lemma RenameLost(g: Geometry, v: View, t: Tree, half: View, w: View, newPath: Text, d0: nat, i0: nat, d: nat, i: nat, s0: Slot)
    requires WellFormed(g, v, t) && GoesTo(g, v, t, newPath, d, i) && !OrdinaryName(newPath) && Accepted(NameIn(newPath))
    requires LiveIn(AllSlots(g, v, t), d0, i0) && AllSlots(g, v, t)[d0][i0] == s0 && !IsDirectory(s0)
    requires OneSlot(g, v, t, half, t, d, i, MovedEntry(newPath, s0)) && OneSlot(g, half, t, w, t, d0, i0, DeletedSlot(s0))
    ensures Safe(g, half, t) && LeadsNowhere(g, w, t, newPath)
    ensures if ClusterOf(s0) == 0 then WellFormed(g, w, t) else Orphaned(g, w, LostTree(t, ClusterOf(s0)), ClusterOf(s0))
  {
    hide AllSlots, Shape, WithSlot, Put, SoundIn, SizedIn, HousedIn, Accounted, ClusterOf, SizeOf, Live, IsDirectory,
         MovedEntry, DeletedSlot, SameBytes, Accepted, NameIn, FirstFree, Encode, NewPlace, Resolve, DirsNamed, LostTree;
    var m, s := AllSlots(g, v, t), MovedEntry(newPath, s0);
    ShapeFacts(g, v, t);
    GoesToFacts(g, v, t, newPath, d, i);
    MovedEntryFacts(newPath, s0);
    DeadEntry(g, v, t, newPath, d, i, s);
    LiveAfterPut(m, d, i, s, d0, i0);
    FirstFreeIsFree(m[d], i);
    ResolveMissing(t, Put(m, d, i, s), g.rootCluster, newPath, d0, i0);
    LastName(g, half, t, w, d0, i0, s0);
  }

  /** t once nobody names the chain at h. */
  function LostTree(t: Tree, h: nat): Tree {
    t.(home := t.home - {h})
  }

  /** Deleting the only name of a file. */
  lemma LastName(g: Geometry, v: View, t: Tree, w: View, d: nat, i: nat, s: Slot)
    requires WellFormed(g, v, t) && LiveIn(AllSlots(g, v, t), d, i) && AllSlots(g, v, t)[d][i] == s && !IsDirectory(s)
    requires OneSlot(g, v, t, w, t, d, i, DeletedSlot(s))
    ensures if ClusterOf(s) == 0 then WellFormed(g, w, t) else Orphaned(g, w, LostTree(t, ClusterOf(s)), ClusterOf(s))
  {
    hide AllSlots, Shape, WithSlot, Put, SoundIn, SizedIn, HousedIn, Accounted, ClusterOf, SizeOf, Live, IsDirectory,
         DeletedSlot, SameBytes, Linked;
    var m, h := AllSlots(g, v, t), ClusterOf(s);
    var m' := Put(m, d, i, DeletedSlot(s));
    ShapeFacts(g, v, t);
    WithSlotFat(g, v, t, d, i, DeletedSlot(s));
    SameFat(v, w, t);
    DeletedPlaceable(m[d], i);
    DeadSound(g, t, m, d, i, DeletedSlot(s));
    LastHoused(g, t, m, d, i);
    SameButHome(g, w, t, LostTree(t, h));
    LinkedFile(t, m, d, i);
    SameSound(g, t, LostTree(t, h), m');
  }

  lemma LinkedFile(t: Tree, m: Dirs, d: nat, i: nat)
    requires SoundIn(t, m) && LiveIn(m, d, i) && !IsDirectory(m[d][i])
    ensures ClusterOf(m[d][i]) != 0 ==> ClusterOf(m[d][i]) in t.chains && ClusterOf(m[d][i]) !in t.dirs
  {
    hide TailUnused, DotsFirst, Live;
    assert Linked(t, d, m[d][i]);
  }

  lemma LastHoused(g: Geometry, t: Tree, m: Dirs, d: nat, i: nat)
    requires HousedIn(g, t, m, 0) && LiveIn(m, d, i) && 0 !in t.chains
    ensures var h, m' := ClusterOf(m[d][i]), Put(m, d, i, DeletedSlot(m[d][i]));
            HousedIn(g, LostTree(t, h), m', h) && (h == 0 ==> HousedIn(g, t, m', 0))
  {
    hide Put, Live, Le16;
    var h, m' := ClusterOf(m[d][i]), Put(m, d, i, DeletedSlot(m[d][i]));
    forall e: nat, j: nat
      ensures LiveIn(m', e, j) <==> LiveIn(m, e, j) && (e, j) != (d, i)
      ensures LiveIn(m', e, j) ==> m'[e][j] == m[e][j]
    {
      LiveAfterPut(m, d, i, DeletedSlot(m[d][i]), e, j);
      DeletedNotLive(m[d][i]);
    }
    assert 0 !in t.home;
    forall k | k in t.home && k != h
      ensures LiveIn(m', t.home[k].0, t.home[k].1) && ClusterOf(m'[t.home[k].0][t.home[k].1]) == k
    {
      assert LiveIn(m, t.home[k].0, t.home[k].1);
    }
  }

  /** What a rename leaves, by the new name and by whether the file has a chain. */
  lemma RenameOutcome(g: Geometry, v: View, t: Tree, half: View, w: View, newPath: Text, d0: nat, i0: nat, d: nat, i: nat, s0: Slot)
    requires WellFormed(g, v, t) && GoesTo(g, v, t, newPath, d, i) && Accepted(NameIn(newPath))
    requires LiveIn(AllSlots(g, v, t), d0, i0) && AllSlots(g, v, t)[d0][i0] == s0 && !IsDirectory(s0)
    requires OneSlot(g, v, t, half, t, d, i, MovedEntry(newPath, s0)) && OneSlot(g, half, t, w, t, d0, i0, DeletedSlot(s0))
    ensures var h, t' := ClusterOf(s0), At(t, ClusterOf(s0), d, i);
            && (LeadsTo(g, w, t', newPath, d, i) <==> OrdinaryName(newPath))
            && (!OrdinaryName(newPath) ==> LeadsNowhere(g, w, t', newPath))
            && (OrdinaryName(newPath) || h == 0 ==> WellFormed(g, w, t'))
            && (!OrdinaryName(newPath) && h != 0 ==> Orphaned(g, w, LostTree(t, h), h))
            && ((exists tb :: WellFormed(g, w, tb) && tb.other == t.other) <==> OrdinaryName(newPath) || h == 0)
    ensures Consistent(g, half) && Consistent(g, w)
  {
    hide AllSlots, Shape, WithSlot, Sound, SizedIn, Housed, Accounted, ClusterOf, Live, IsDirectory, MovedEntry, DeletedSlot,
         Accepted, NameIn, OneSlot, LeadsTo, LeadsNowhere, GoesTo;
    var h := ClusterOf(s0);
    if OrdinaryName(newPath) {
      RenameWhole(g, v, t, half, w, newPath, d0, i0, d, i, s0);
      assert At(t, h, d, i).other == t.other;
    } else {
      RenameLost(g, v, t, half, w, newPath, d0, i0, d, i, s0);
      NowhereAt(g, w, t, h, d, i, newPath);
      if h != 0 {
        OrphanIsLost(g, w, LostTree(t, h), h);
        assert LostTree(t, h).other == t.other;
      } else {
        assert t.other == t.other;
      }
    }
  }

  lemma NowhereAt(g: Geometry, v: View, t: Tree, h: nat, d: nat, i: nat, path: Text)
    requires LeadsNowhere(g, v, t, path)
    ensures LeadsNowhere(g, v, At(t, h, d, i), path) && !LeadsTo(g, v, At(t, h, d, i), path, d, i)
  {
    hide Shape, AllSlots, Resolve, At;
    HomeFree(g, v, t, h, d, i);
  }

  lemma NotADirectoryHead(t: Tree, m: Dirs, d: nat, i: nat)
    requires SoundIn(t, m) && LiveIn(m, d, i) && !IsDirectory(m[d][i]) && 0 !in t.dirs
    ensures ClusterOf(m[d][i]) !in t.dirs
  {
    hide TailUnused, DotsFirst, Live;
    assert Linked(t, d, m[d][i]);
  }

  /** Where the new entry of a rename goes; here the existing name is looked for before the new one is converted. */
  method PlaceTarget(fs: Volume, path: Text, ghost t: Tree) returns (r: Status, dir: nat, index: nat, shortName: Name83)
    requires fs.Ready() && Sound(fs.g, fs.Now(), t)
    modifies fs.sectorBuffer
    ensures NewPlace(SlotsNow(fs, t), fs.g.rootCluster, path) == if r == Ok then Place(dir, index) else Refused(r)
    ensures r == Ok ==> dir in t.dirs && index < |SlotsNow(fs, t)[dir]|
    ensures r == Ok ==> Accepted(NameIn(path)) && shortName == Encode(NameIn(path))
  {
    hide Kept, ViewOf, AllSlots, Shape, Resolve, SoundIn, Find, Encode, Accepted, SplitInto;
    index, shortName := 0, Zeros(11);
    var name;
    r, dir, name := FindParent(fs, path, t);
    if r != Ok {
      return;
    }
    var cluster, size, isDirectory;
    SlotsFit(t, SlotsNow(fs, t), dir);
    ghost var j;
    r, cluster, size, isDirectory, index, j := FindInDirectory(fs, dir, name, t);
    if r == Ok {
      r := Error;
      return;
    }
    if r != NotFound {
      return;
    }
    var ok, output := MakeName83(name);
    if !ok {
      r := Error;
      return;
    }
    shortName := output[..];
    r, index, j := FindFreeEntry(fs, dir, t);
    FreeIndexIs(SlotsHere(fs, t, dir), r == Ok, j);
  }

  /** The splitting of both paths, which comes before anything is looked up. */
  method SplitBoth(oldPath: Text, newPath: Text) returns (r: Status)
    ensures r == if Split(oldPath).Some? && Split(newPath).Some? then Ok else Error
  {
    hide SplitInto;
    var parentPath := new byte[NAME_SIZE];
    var nameBuffer := new byte[NAME_SIZE];
    r := SplitParentPath(oldPath, parentPath, nameBuffer);
    if r != Ok {
      return;
    }
    r := SplitParentPath(newPath, parentPath, nameBuffer);
  }

  /** The common beginning of a rename: both names, the file, and where its new entry goes. */
  method PlaceRename(fs: Volume, oldPath: Text, newPath: Text, ghost t: Tree)
    returns (r: Status, dir0: nat, index0: nat, cluster: nat, size: nat, dir: nat, index: nat, shortName: Name83)
    requires fs.Ready() && Sound(fs.g, fs.Now(), t)
    modifies fs.sectorBuffer
    ensures RenameMove(SlotsNow(fs, t), fs.g.rootCluster, oldPath, newPath)
         == if r == Ok then Move(Place(dir0, index0), Place(dir, index)) else Stay(r)
    ensures r == Ok ==> LiveIn(SlotsNow(fs, t), dir0, index0) && dir in t.dirs && index < |SlotsNow(fs, t)[dir]|
    ensures r == Ok ==> var s := SlotsNow(fs, t)[dir0][index0];
              cluster == ClusterOf(s) && size == SizeOf(s) && !IsDirectory(s)
    ensures r == Ok ==> Accepted(NameIn(newPath)) && shortName == Encode(NameIn(newPath))
  {
    hide Kept, ViewOf, AllSlots, Shape, NewPlace, OldPlace, SoundIn, NameIn, Encode, Accepted, SplitInto, ClusterOf, SizeOf,
         IsDirectory, Live;
    dir0, index0, cluster, size, dir, index, shortName := 0, 0, 0, 0, 0, 0, Zeros(11);
    r := SplitBoth(oldPath, newPath);
    if r != Ok {
      return;
    }
    var isDirectory;
    r, dir0, cluster, size, isDirectory, index0 := FindOld(fs, oldPath, t);
    if r != Ok {
      return;
    }
    if isDirectory {
      r := NotAFile;
      return;
    }
    r, dir, index, shortName := PlaceTarget(fs, newPath, t);
  }

  /** fat32_rename_file: the outcome RenameMove decides. On success the entry has moved and nothing else has changed. The
      new path leads to the file if and only if the new name does not begin with 0xE5; and the volume is well formed again
      if and only if that is so or the file has no chain: otherwise the chain is lost. Both block boundaries are
      consistent. On failure nothing has changed. */
  method RenameFile(fs: Volume, oldPath: Text, newPath: Text, ghost t: Tree)
    returns (r: Status, ghost t': Tree, ghost d0: nat, ghost i0: nat, ghost d: nat, ghost i: nat)
    requires fs.Ready() && WellFormed(fs.g, fs.Now(), t)
    modifies fs`journal, fs.device, fs.sectorBuffer
    ensures fs.Ready()
    ensures RenameMove(old(SlotsNow(fs, t)), fs.g.rootCluster, oldPath, newPath)
         == if r == Ok then Move(Place(d0, i0), Place(d, i)) else Stay(r)
    ensures r != Ok ==> fs.Now() == old(fs.Now()) && fs.journal == old(fs.journal) && t' == t
    ensures r == Ok ==> EntryMoved(fs.g, old(fs.Now()), t, fs.Now(), t', newPath, d0, i0, d, i)
    ensures r == Ok ==> t' == At(t, ClusterOf(old(SlotsNow(fs, t))[d0][i0]), d, i)
    ensures r == Ok ==> (LeadsTo(fs.g, fs.Now(), t', newPath, d, i) <==> OrdinaryName(newPath))
    ensures r == Ok && !OrdinaryName(newPath) ==> LeadsNowhere(fs.g, fs.Now(), t', newPath)
    ensures r == Ok ==> ((exists tb :: WellFormed(fs.g, fs.Now(), tb) && tb.other == t.other)
                    <==> OrdinaryName(newPath) || ClusterOf(old(SlotsNow(fs, t))[d0][i0]) == 0)
    ensures r == Ok && (OrdinaryName(newPath) || ClusterOf(old(SlotsNow(fs, t))[d0][i0]) == 0) ==> WellFormed(fs.g, fs.Now(), t')
    ensures r == Ok && !OrdinaryName(newPath) && ClusterOf(old(SlotsNow(fs, t))[d0][i0]) != 0 ==>
              var h := ClusterOf(old(SlotsNow(fs, t))[d0][i0]); Orphaned(fs.g, fs.Now(), LostTree(t, h), h)
    ensures AllConsistent(fs.g, old(fs.journal), fs.journal)
  {
    hide Kept, ViewOf, AllSlots, Shape, SoundIn, SizedIn, Housed, Accounted, RenameMove, Encode, Accepted, NameIn, ClusterOf,
         SizeOf, IsDirectory, Live, WithSlot, EntryMoved, OneSlot, LeadsTo, LeadsNowhere, DeletedSlot, Consistent, At, Orphaned;
    t', d0, i0, d, i := t, 0, 0, 0, 0;
    ghost var v, j := fs.Now(), fs.journal;
    NothingYet(fs.g, j);
    var dir0, index0, cluster, size, dir, index, shortName;
    r, dir0, index0, cluster, size, dir, index, shortName := PlaceRename(fs, oldPath, newPath, t);
    if r != Ok {
      return;
    }
    d0, i0, d, i := dir0, index0, dir, index;
    ghost var s0 := SlotsNow(fs, t)[d0][i0];
    SlotBounds(s0);
    RenameHalf(fs.g, v, t, newPath, d0, i0, d, i, s0);
    r := WriteEntryData(fs, dir, index, shortName, ATTR_ARCHIVE, cluster, size, t);
    if r != Ok {
      return;
    }
    ghost var half := fs.Now();
    r := DeleteEntry(fs, dir0, index0, t);
    if r != Ok {
      return;
    }
    t' := At(t, cluster, d, i);
    OneSlotWritten(fs.g, half, t, d0, i0, DeletedSlot(s0));
    MovedIs(fs.g, v, t, half, fs.Now(), t', newPath, d0, i0, d, i, s0);
    RenameOutcome(fs.g, v, t, half, fs.Now(), newPath, d0, i0, d, i, s0);
    TwoConsistent(fs.g, j, half, fs.Now());
  }

  lemma TwoConsistent(g: Geometry, a: seq<View>, v: View, w: View)
    requires Consistent(g, v) && Consistent(g, w)
    ensures AllConsistent(g, a, a + [v] + [w])
  {
    hide Consistent;
  }
}
