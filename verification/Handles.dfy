/** Open files across operations on other files: a handle that agreed with its entry still does, and its file still reads
    as it did. */
module Handles {
  import opened Bytes
  import opened Geometry
  import opened Volumes
  import opened Chains
  import opened Contents
  import opened FileRead
  import opened Slots
  import opened Names83
  import opened LongNames
  import opened Paths
  import opened Plans
  import opened Trees
  import opened TreeSteps
  import opened TreeChains
  import opened TreeNames
  import opened FileWrite
  import opened Creating
  import opened MakingDirs
  import opened Removing
  import opened Renaming
  import opened FileTree
  import opened Refining
  import opened DeadRefining
  import opened TreeSpec
  import opened TreeUnique
  import opened EmptyDirs

  /** A handle on slot i of d with first cluster h is good for a file of that size that reads as b. */
  ghost predicate Stands(g: Geometry, v: View, t: Tree, d: nat, i: nat, h: nat, size: nat, b: seq<byte>) {
    SlotIs(g, v, t, d, i, h, size) && Shows(g, v, ChainAt(t, h), size, b)
  }

  /** It stays good wherever its slot and its chain stay. */
  lemma StandsStill(g: Geometry, v: View, t: Tree, w: View, t': Tree, d: nat, i: nat, h: nat, size: nat, b: seq<byte>)
    requires Stands(g, v, t, d, i, h, size, b) && Shape(g, w, t') && (h == 0 || h in t.chains)
    requires LiveIn(AllSlots(g, w, t'), d, i) && AllSlots(g, w, t')[d][i] == AllSlots(g, v, t)[d][i]
    requires h in t.chains ==> h in t'.chains && t'.chains[h] == t.chains[h] && SameBytes(g, v, w, t.chains[h])
    ensures Stands(g, w, t', d, i, h, size, b)
  {
    hide AllSlots, Live, IsDirectory, ClusterOf, SizeOf;
    ShapeFacts(g, v, t);
    ShapeFacts(g, w, t');
  }

  lemma StandsFacts(g: Geometry, v: View, t: Tree, d: nat, i: nat, h: nat, size: nat, b: seq<byte>)
    requires Safe(g, v, t) && Stands(g, v, t, d, i, h, size, b)
    ensures Shape(g, v, t) && LiveIn(AllSlots(g, v, t), d, i) && d in t.dirs && i < |AllSlots(g, v, t)[d]|
    ensures !IsDirectory(AllSlots(g, v, t)[d][i]) && ClusterOf(AllSlots(g, v, t)[d][i]) == h
    ensures 0 !in t.chains && (h == 0 || (h in t.chains && h !in t.dirs))
  {
    hide AllSlots, SoundIn, SizedIn, Live, IsDirectory, ClusterOf, SizeOf, Shows;
    SlotFacts(g, v, t, d, i, h, size);
    ShapeFacts(g, v, t);
  }

  // In all that follows the handle is on slot j of e, and the operation was about slot i of d.

  /** Writing to or truncating another file, or failing to. */
  lemma BesideFile(g: Geometry, v: View, t: Tree, w: View, t': Tree, d: nat, i: nat, h: nat, size': nat,
                   e: nat, j: nat, k: nat, size: nat, b: seq<byte>)
    requires WellFormed(g, v, t) && WellFormed(g, w, t') && OnlyFile(g, v, t, w, t', d, i, h) && SlotIs(g, w, t', d, i, h, size')
    requires Stands(g, v, t, e, j, k, size, b) && (e, j) != (d, i)
    ensures Stands(g, w, t', e, j, k, size, b)
  {
    hide AllSlots, Shape, SoundIn, SizedIn, HousedIn, Accounted, OnlyFile, Stands, SlotIs, Live, ClusterOf, IsDirectory, Put;
    StandsFacts(g, v, t, e, j, k, size, b);
    OnlyFileFacts(g, v, t, w, t', d, i, h);
    SlotIsThere(g, w, t', d, i, h, size');
    var m, m' := AllSlots(g, v, t), AllSlots(g, w, t');
    LiveAfterPut(m, d, i, m'[d][i], e, j);
    if k == h && h != 0 {
      OneHome(g, t', m', d, i, e, j);
    }
    StandsStill(g, v, t, w, t', e, j, k, size, b);
  }

  lemma SlotIsThere(g: Geometry, v: View, t: Tree, d: nat, i: nat, h: nat, size: nat)
    requires SlotIs(g, v, t, d, i, h, size)
    ensures Shape(g, v, t) && LiveIn(AllSlots(g, v, t), d, i) && ClusterOf(AllSlots(g, v, t)[d][i]) == h
  {
    hide AllSlots, Shape, Live, ClusterOf, SizeOf, IsDirectory;
  }

  /** A write that wanted clusters and did not get them. */
  lemma BesideFailure(g: Geometry, v: View, t: Tree, w: View, t': Tree, h: nat, e: nat, j: nat, k: nat, size: nat, b: seq<byte>)
    requires Safe(g, v, t) && OthersKept(g, v, t, w, t', h) && Stands(g, v, t, e, j, k, size, b) && k != h
    ensures Stands(g, w, t', e, j, k, size, b)
  {
    hide AllSlots, Sound, SizedIn, FatKept, BytesAt, Stands, Live, ClusterOf, IsDirectory;
    StandsFacts(g, v, t, e, j, k, size, b);
    if k in t.chains {
      SameBytesAtTrees(g, v, t, w, t', k);
    }
    StandsStill(g, v, t, w, t', e, j, k, size, b);
  }

  /** Creating another file. */
  lemma BesideCreate(g: Geometry, v: View, t: Tree, w: View, d: nat, i: nat, s: Slot,
                     e: nat, j: nat, k: nat, size: nat, b: seq<byte>)
    requires Safe(g, v, t) && OneSlot(g, v, t, w, t, d, i, s) && Stands(g, v, t, e, j, k, size, b) && (e, j) != (d, i)
    ensures Stands(g, w, t, e, j, k, size, b)
  {
    hide AllSlots, Shape, Sound, SizedIn, OneSlot, Stands, Live, ClusterOf, IsDirectory, Put;
    StandsFacts(g, v, t, e, j, k, size, b);
    OneSlotFacts(g, v, t, w, t, d, i, s);
    OneSlotRest(g, v, t, w, t, d, i, s);
    LiveAfterPut(AllSlots(g, v, t), d, i, s, e, j);
    StandsStill(g, v, t, w, t, e, j, k, size, b);
  }

  /** Making a directory. */
  lemma BesideMkdir(g: Geometry, v: View, t: Tree, w: View, t': Tree, path: Text, d: nat, i: nat, c: nat,
                    e: nat, j: nat, k: nat, size: nat, b: seq<byte>)
    requires Safe(g, v, t) && DirectoryMade(g, v, t, w, t', path, d, i, c)
    requires Stands(g, v, t, e, j, k, size, b) && (e, j) != (d, i)
    ensures Stands(g, w, t', e, j, k, size, b)
  {
    hide AllSlots, Shape, Sound, SizedIn, Stands, Live, ClusterOf, IsDirectory, FreshDir, SameBytes, NewEntry, Accepted, NameIn;
    StandsFacts(g, v, t, e, j, k, size, b);
    StandsStill(g, v, t, w, t', e, j, k, size, b);
  }

  /** Removing another file, or a directory that the handle's file is not in or below. */
  lemma BesideRemove(g: Geometry, v: View, t: Tree, w: View, t': Tree, d: nat, i: nat, h: nat, gone: set<nat>,
                     e: nat, j: nat, k: nat, size: nat, b: seq<byte>)
    requires WellFormed(g, v, t) && EntryShed(g, v, t, w, t', d, i, h, gone)
    requires Stands(g, v, t, e, j, k, size, b) && (e, j) != (d, i) && e !in gone
    ensures Stands(g, w, t', e, j, k, size, b)
  {
    hide AllSlots, Shape, SoundIn, SizedIn, HousedIn, Accounted, Stands, Live, ClusterOf, IsDirectory, Put, DeletedSlot, SameBytes;
    StandsFacts(g, v, t, e, j, k, size, b);
    RemovedLive(AllSlots(g, v, t), d, i, gone, e, j);
    if k == h && h != 0 {
      OneHome(g, t, AllSlots(g, v, t), d, i, e, j);
    }
    StandsStill(g, v, t, w, t', e, j, k, size, b);
  }

  /** Renaming another file. */
  lemma BesideRename(g: Geometry, v: View, t: Tree, w: View, t': Tree, to: Text, d0: nat, i0: nat, d: nat, i: nat,
                     e: nat, j: nat, k: nat, size: nat, b: seq<byte>)
    requires Safe(g, v, t) && EntryMoved(g, v, t, w, t', to, d0, i0, d, i)
    requires Stands(g, v, t, e, j, k, size, b) && (e, j) != (d0, i0) && (e, j) != (d, i)
    ensures Stands(g, w, t', e, j, k, size, b)
  {
    hide AllSlots, Shape, Sound, SizedIn, Stands, Live, ClusterOf, IsDirectory, Put, DeletedSlot, SameBytes, MovedEntry, Accepted,
         NameIn;
    StandsFacts(g, v, t, e, j, k, size, b);
    var m, s := AllSlots(g, v, t), MovedEntry(to, AllSlots(g, v, t)[d0][i0]);
    LiveAfterPut(m, d, i, s, e, j);
    LiveAfterPut(Put(m, d, i, s), d0, i0, DeletedSlot(Put(m, d, i, s)[d0][i0]), e, j);
    StandsStill(g, v, t, w, t', e, j, k, size, b);
  }

  // ---------------------------------------------------------------- operations by path

  /** The operation is about the entry in slot i of d: its path, or a rename's old path, leads there. */
  ghost predicate AtPath(g: Geometry, v: View, t: Tree, op: Op, d: nat, i: nat) {
    match op
    case Create(_) => false
    case MakeDirectory(_) => false
    case Remove(path) => LeadsTo(g, v, t, path, d, i)
    case RemoveDirectory(path) => LeadsTo(g, v, t, path, d, i)
    case Rename(from, _) => LeadsTo(g, v, t, from, d, i)
    case WriteAt(path, _, _) => LeadsTo(g, v, t, path, d, i)
    case CutTo(path, _) => LeadsTo(g, v, t, path, d, i)
  }

  /** Every open file that the operation is not about stays good and reads as before. */
  ghost predicate HandlesKept(g: Geometry, v: View, t: Tree, w: View, t': Tree, op: Op) {
    forall d: nat, i: nat, h: nat, size: nat, b: seq<byte> |
      Stands(g, v, t, d, i, h, size, b) && !AtPath(g, v, t, op, d, i) :: Stands(g, w, t', d, i, h, size, b)
  }

  lemma HandlesSame(g: Geometry, v: View, t: Tree, op: Op)
    ensures HandlesKept(g, v, t, v, t, op)
  {
  }

  lemma OldPlaceLeads(g: Geometry, v: View, t: Tree, path: Text, d: nat, i: nat)
    requires Shape(g, v, t) && OldPlace(AllSlots(g, v, t), g.rootCluster, path) == Place(d, i)
    ensures LeadsTo(g, v, t, path, d, i)
  {
    hide Shape, AllSlots, Resolve, SplitInto, Find, Components;
    OldPlaceResolves(AllSlots(g, v, t), g.rootCluster, path);
  }

  lemma CreateHandles(g: Geometry, v: View, t: Tree, w: View, op: Op, d: nat, i: nat, s: Slot)
    requires Safe(g, v, t) && op.Create? && GoesTo(g, v, t, op.path, d, i) && OneSlot(g, v, t, w, t, d, i, s)
    ensures HandlesKept(g, v, t, w, t, op)
  {
    hide AllSlots, Safe, Shape, OneSlot, Stands, Live, FirstFree, GoesTo;
    GoesToFacts(g, v, t, op.path, d, i);
    FirstFreeIsFree(AllSlots(g, v, t)[d], i);
    forall e: nat, j: nat, k: nat, size: nat, b: seq<byte> | Stands(g, v, t, e, j, k, size, b) ensures Stands(g, w, t, e, j, k, size, b) {
      StandsFacts(g, v, t, e, j, k, size, b);
      BesideCreate(g, v, t, w, d, i, s, e, j, k, size, b);
    }
  }

  lemma MkdirHandles(g: Geometry, v: View, t: Tree, w: View, t': Tree, op: Op, d: nat, i: nat, c: nat)
    requires Safe(g, v, t) && op.MakeDirectory? && GoesTo(g, v, t, op.path, d, i) && DirectoryMade(g, v, t, w, t', op.path, d, i, c)
    ensures HandlesKept(g, v, t, w, t', op)
  {
    hide AllSlots, Safe, Shape, DirectoryMade, Stands, Live, FirstFree, GoesTo;
    GoesToFacts(g, v, t, op.path, d, i);
    FirstFreeIsFree(AllSlots(g, v, t)[d], i);
    forall e: nat, j: nat, k: nat, size: nat, b: seq<byte> | Stands(g, v, t, e, j, k, size, b) ensures Stands(g, w, t', e, j, k, size, b) {
      StandsFacts(g, v, t, e, j, k, size, b);
      BesideMkdir(g, v, t, w, t', op.path, d, i, c, e, j, k, size, b);
    }
  }

  /** A tree that differs in what no entry but another names is as good. */
  lemma StandsTree(g: Geometry, v: View, t: Tree, t': Tree, d: nat, i: nat, h: nat, size: nat, b: seq<byte>)
    requires Stands(g, v, t, d, i, h, size, b) && Shape(g, v, t') && (h == 0 || h in t.chains)
    requires d in t'.dirs && i < |AllSlots(g, v, t')[d]| && d in t.dirs && AllSlots(g, v, t')[d] == AllSlots(g, v, t)[d]
    requires h in t.chains ==> h in t'.chains && t'.chains[h] == t.chains[h]
    ensures Stands(g, v, t', d, i, h, size, b)
  {
    hide AllSlots, Shape, Live, IsDirectory, ClusterOf, SizeOf;
    if h in t.chains {
      SameBytesSelf(g, v, t, h);
    }
    StandsStill(g, v, t, v, t', d, i, h, size, b);
  }

  lemma SameBytesSelf(g: Geometry, v: View, t: Tree, h: nat)
    requires Shape(g, v, t) && h in t.chains
    ensures SameBytes(g, v, v, t.chains[h])
  {
    ChainPlaced(g, v, t.chains[h]);
  }

  lemma MkdirDeadHandles(g: Geometry, v: View, t: Tree, w: View, t': Tree, op: Op, d: nat, i: nat, c: nat)
    requires Safe(g, v, t) && op.MakeDirectory? && GoesTo(g, v, t, op.path, d, i) && DirectoryMade(g, v, t, w, t', op.path, d, i, c)
    requires NothingMade(g, v, t, w, op.path, d, i, c)
    ensures c in WithChain(t, c, [c]).chains && HandlesKept(g, v, t, w, Disowned(w, WithChain(t, c, [c]), c), op)
  {
    hide AllSlots, Safe, Shape, Stands, Live, FirstFree, GoesTo, Orphaned, Accepted, NameIn, FreshDir, SameBytes, NewEntry;
    var t1 := WithChain(t, c, [c]);
    MkdirHandles(g, v, t, w, t', op, d, i, c);
    DisownedWell(g, w, t1, c);
    WellShape(g, w, Disowned(w, t1, c));
    forall e: nat, j: nat, k: nat, size: nat, b: seq<byte> | Stands(g, v, t, e, j, k, size, b)
      ensures Stands(g, w, Disowned(w, t1, c), e, j, k, size, b)
    {
      StandsFacts(g, v, t, e, j, k, size, b);
      PutShape(AllSlots(g, v, t), d, i, NewEntry(op.path, ATTR_DIRECTORY, c, 0));
      StandsTree(g, w, t', Disowned(w, t1, c), e, j, k, size, b);
    }
  }

  lemma RemoveHandles(g: Geometry, v: View, t: Tree, w: View, t': Tree, op: Op, d: nat, i: nat, h: nat)
    requires WellFormed(g, v, t) && Shape(g, v, t) && (op.Remove? || op.RemoveDirectory?)
    requires OldPlace(AllSlots(g, v, t), g.rootCluster, op.path) == Place(d, i) && EntryGone(g, v, t, w, t', d, i, h)
    requires h in t.dirs ==> NoLive(AllSlots(g, v, t)[h])
    ensures HandlesKept(g, v, t, w, t', op)
  {
    hide AllSlots, Safe, Housed, Accounted, Shape, Stands, Live, OldPlace, EntryShed, LeadsTo;
    OldPlaceLeads(g, v, t, op.path, d, i);
    forall e: nat, j: nat, k: nat, size: nat, b: seq<byte> | Stands(g, v, t, e, j, k, size, b) && (e, j) != (d, i)
      ensures Stands(g, w, t', e, j, k, size, b)
    {
      StandsFacts(g, v, t, e, j, k, size, b);
      BesideRemove(g, v, t, w, t', d, i, h, {h}, e, j, k, size, b);
    }
  }

  lemma RenameHandles(g: Geometry, v: View, t: Tree, w: View, t': Tree, op: Op, d0: nat, i0: nat, d: nat, i: nat)
    requires Safe(g, v, t) && Shape(g, v, t) && op.Rename? && EntryMoved(g, v, t, w, t', op.to, d0, i0, d, i)
    requires RenameMove(AllSlots(g, v, t), g.rootCluster, op.from, op.to) == Move(Place(d0, i0), Place(d, i))
    ensures HandlesKept(g, v, t, w, t', op)
  {
    hide AllSlots, Safe, Shape, Stands, Live, OldPlace, NewPlace, EntryMoved, LeadsTo, RenameMove, FirstFree;
    MoveFacts(AllSlots(g, v, t), g.rootCluster, op.from, op.to, d0, i0, d, i);
    OldPlaceLeads(g, v, t, op.from, d0, i0);
    FirstFreeIsFree(AllSlots(g, v, t)[d], i);
    forall e: nat, j: nat, k: nat, size: nat, b: seq<byte> | Stands(g, v, t, e, j, k, size, b) && (e, j) != (d0, i0)
      ensures Stands(g, w, t', e, j, k, size, b)
    {
      StandsFacts(g, v, t, e, j, k, size, b);
      BesideRename(g, v, t, w, t', op.to, d0, i0, d, i, e, j, k, size, b);
    }
  }

  /** The same when the new name is not bound and the file's chain, if it has one, counts as foreign. */
  lemma RenameDeadHandles(g: Geometry, v: View, t: Tree, w: View, t': Tree, op: Op, d0: nat, i0: nat, d: nat, i: nat, h: nat)
    requires WellFormed(g, v, t) && Shape(g, v, t) && op.Rename? && EntryMoved(g, v, t, w, t', op.to, d0, i0, d, i)
    requires RenameMove(AllSlots(g, v, t), g.rootCluster, op.from, op.to) == Move(Place(d0, i0), Place(d, i))
    requires LiveIn(AllSlots(g, v, t), d0, i0) && h == ClusterOf(AllSlots(g, v, t)[d0][i0])
    requires if h == 0 then WellFormed(g, w, t) else Orphaned(g, w, LostTree(t, h), h)
    ensures HandlesKept(g, v, t, w, RenamedAway(w, t, h), op)
  {
    hide AllSlots, Shape, SoundIn, SizedIn, HousedIn, Accounted, Stands, Live, OldPlace, EntryMoved, LeadsTo, RenameMove, ClusterOf,
         Orphaned, IsDirectory;
    RenameHandles(g, v, t, w, t', op, d0, i0, d, i);
    MoveFacts(AllSlots(g, v, t), g.rootCluster, op.from, op.to, d0, i0, d, i);
    OldPlaceLeads(g, v, t, op.from, d0, i0);
    MovedFacts(g, v, t, w, t', op.to, d0, i0, d, i);
    AwayTree(g, v, t, w, t', h, AllSlots(g, w, t'), d0, i0);
    forall e: nat, j: nat, k: nat, size: nat, b: seq<byte> | Stands(g, v, t, e, j, k, size, b) && !AtPath(g, v, t, op, e, j)
      ensures Stands(g, w, RenamedAway(w, t, h), e, j, k, size, b)
    {
      assert Stands(g, w, t', e, j, k, size, b);
      StandsAway(g, v, t, w, t', RenamedAway(w, t, h), h, d0, i0, e, j, k, size, b);
    }
  }

  lemma OtherChain(g: Geometry, t: Tree, m: Dirs, d: nat, i: nat, e: nat, j: nat)
    requires HousedIn(g, t, m, 0) && LiveIn(m, d, i) && LiveIn(m, e, j) && (d, i) != (e, j)
    ensures ClusterOf(m[d][i]) != ClusterOf(m[e][j]) || ClusterOf(m[e][j]) == 0
  {
    hide Live, ClusterOf;
  }

  lemma StandsAway(g: Geometry, v: View, t: Tree, w: View, t': Tree, t2: Tree, h: nat, d0: nat, i0: nat,
                   e: nat, j: nat, k: nat, size: nat, b: seq<byte>)
    requires WellFormed(g, v, t) && Shape(g, v, t) && Stands(g, v, t, e, j, k, size, b) && Stands(g, w, t', e, j, k, size, b)
    requires LiveIn(AllSlots(g, v, t), d0, i0) && h == ClusterOf(AllSlots(g, v, t)[d0][i0]) && (e, j) != (d0, i0)
    requires Shape(g, w, t') && Shape(g, w, t2) && AllSlots(g, w, t2) == AllSlots(g, w, t')
    requires OnlyHome(t', t) && forall c | c in t.chains && c != h :: c in t2.chains && t2.chains[c] == t.chains[c]
    ensures Stands(g, w, t2, e, j, k, size, b)
  {
    hide AllSlots, Shape, SoundIn, SizedIn, Accounted, Stands, Live, ClusterOf, IsDirectory;
    StandsFacts(g, v, t, e, j, k, size, b);
    StandsThere(g, w, t', e, j, k, size, b);
    OtherChain(g, t, AllSlots(g, v, t), d0, i0, e, j);
    StandsTree(g, w, t', t2, e, j, k, size, b);
  }

  lemma StandsThere(g: Geometry, v: View, t: Tree, d: nat, i: nat, h: nat, size: nat, b: seq<byte>)
    requires Stands(g, v, t, d, i, h, size, b)
    ensures Shape(g, v, t) && d in t.dirs && i < |AllSlots(g, v, t)[d]|
  {
    hide AllSlots, Live, IsDirectory, ClusterOf, SizeOf, Shows;
  }

  lemma FileHandles(g: Geometry, v: View, t: Tree, w: View, t': Tree, op: Op, d: nat, i: nat, h: nat, size': nat)
    requires WellFormed(g, v, t) && WellFormed(g, w, t') && (op.WriteAt? || op.CutTo?) && LeadsTo(g, v, t, op.path, d, i)
    requires OnlyFile(g, v, t, w, t', d, i, h) && SlotIs(g, w, t', d, i, h, size')
    ensures HandlesKept(g, v, t, w, t', op)
  {
    hide WellFormed, OnlyFile, Stands, SlotIs, LeadsTo;
    forall e: nat, j: nat, k: nat, size: nat, b: seq<byte> | Stands(g, v, t, e, j, k, size, b) && (e, j) != (d, i)
      ensures Stands(g, w, t', e, j, k, size, b)
    {
      BesideFile(g, v, t, w, t', d, i, h, size', e, j, k, size, b);
    }
  }

  /** A write that wanted clusters, whether or not it has stranded a chain (x). */
  lemma FailedHandles(g: Geometry, v: View, t: Tree, w: View, t': Tree, op: Op, d: nat, i: nat, h: nat, h': nat, x: nat, size': nat)
    requires WellFormed(g, v, t) && op.WriteAt? && LeadsTo(g, v, t, op.path, d, i) && SlotIs(g, v, t, d, i, h, size')
    requires OthersKept(g, v, t, w, t', h') && h' != 0 && h' == (if h == 0 then x else h) && (x != 0 ==> h == 0)
    requires x != 0 ==> Orphaned(g, w, t', x) && x !in t.chains
    ensures x == 0 ==> HandlesKept(g, v, t, w, t', op)
    ensures x != 0 ==> x in t'.chains && HandlesKept(g, v, t, w, Disowned(w, t', x), op)
  {
    hide AllSlots, Shape, SoundIn, SizedIn, HousedIn, Accounted, OthersKept, Stands, SlotIs, LeadsTo, Orphaned, Live, ClusterOf,
         IsDirectory;
    SlotIsThere(g, v, t, d, i, h, size');
    forall e: nat, j: nat, k: nat, size: nat, b: seq<byte> | Stands(g, v, t, e, j, k, size, b) && (e, j) != (d, i)
      ensures Stands(g, w, t', e, j, k, size, b)
    {
      StandsFacts(g, v, t, e, j, k, size, b);
      if k == h && h != 0 {
        OneHome(g, t, AllSlots(g, v, t), d, i, e, j);
      }
      BesideFailure(g, v, t, w, t', h', e, j, k, size, b);
    }
    OthersKeptFacts(g, v, t, w, t', h');
    if x != 0 {
      DisownedWell(g, w, t', x);
      WellShape(g, w, Disowned(w, t', x));
      forall e: nat, j: nat, k: nat, size: nat, b: seq<byte> | Stands(g, v, t, e, j, k, size, b) && (e, j) != (d, i)
        ensures Stands(g, w, Disowned(w, t', x), e, j, k, size, b)
      {
        StandsFacts(g, v, t, e, j, k, size, b);
        StandsThere(g, w, t', e, j, k, size, b);
        KeptChain(g, v, t, w, t', x, k);
        StandsTree(g, w, t', Disowned(w, t', x), e, j, k, size, b);
      }
    }
  }

  lemma KeptChain(g: Geometry, v: View, t: Tree, w: View, t': Tree, h: nat, k: nat)
    requires OthersKept(g, v, t, w, t', h)
    ensures k in t.chains ==> k in t'.chains
  {
    hide AllSlots, Shape, BytesAt, FatKept;
  }

  // ---------------------------------------------------------------- a handle left by a failed write

  /** With its chain counted as foreign such a handle is one on an empty file. */
  lemma StrandedStands(g: Geometry, v: View, t: Tree, d: nat, i: nat, x: nat)
    requires Writable(g, v, t, d, i, x, 0, x) && x in t.chains && x != 0
    ensures Stands(g, v, Disowned(v, t, x), d, i, 0, 0, []) && Orphaned(g, v, t, x)
  {
    hide AllSlots, SoundIn, SizedIn, HousedIn, Accounted, Live, ClusterOf, SizeOf, IsDirectory, Disowned;
    ReadyMeans(g, v, t, d, i, x, 0, x);
    DisownedWell(g, v, t, x);
    WellShape(g, v, Disowned(v, t, x));
  }

  lemma ForeignChain(v: View, t: Tree, x: nat, w: View, t1: Tree)
    requires x in t.chains && IsChain(v.fat, t.chains[x]) && ForeignKept(Disowned(v, t, x), t1) && Accounted(w, t1)
    requires |w.fat| == |v.fat|
    ensures IsChain(w.fat, t.chains[x]) && forall c | c in t.chains[x] :: c in t1.other
  {
    var t0 := Disowned(v, t, x);
    forall c: nat | c in t.chains[x] ensures c in t1.other && c < |v.fat| && w.fat[c] == v.fat[c] {
      var k :| 0 <= k < |t.chains[x]| && t.chains[x][k] == c;
      PathStep(v.fat, t.chains[x], k);
      assert c in t0.other && t0.other[c] == v.fat[c];
    }
    ChainFrame(v.fat, w.fat, t.chains[x]);
  }

  lemma AdoptedWorking(g: Geometry, w: View, t: Tree, x: nat, ch: seq<nat>)
    requires WellFormed(g, w, t) && IsChain(w.fat, ch) && ch[0] == x && forall c | c in ch :: c in t.other
    ensures Working(g, w, Adopted(t, x, ch), x) && x !in t.dirs && Shape(g, w, t)
    ensures Shape(g, w, Adopted(t, x, ch)) && AllSlots(g, w, Adopted(t, x, ch)) == AllSlots(g, w, t) && Placed(g, ch)
  {
    hide AllSlots, SoundIn, SizedIn, HousedIn, Accounted, IsPath, Shape;
    ShapeFacts(g, w, t);
    AdoptedShape(g, w, t, x, ch);
    AdoptedAccounted(w, t, x, ch);
    AdoptedSound(g, t, AllSlots(g, w, t), x, ch);
    ShapeFacts(g, w, Adopted(t, x, ch));
    ChainPlaced(g, w, ch);
  }

  /** Whatever has become of the rest of the volume: as long as the chain is foreign and the entry is empty still, the
      handle can be written from its cluster on. */
  lemma AdoptedReady(g: Geometry, v: View, t: Tree, d: nat, i: nat, x: nat, w: View, t1: Tree)
    requires Writable(g, v, t, d, i, x, 0, x) && x in t.chains && x != 0
    requires WellFormed(g, w, t1) && ForeignKept(Disowned(v, t, x), t1) && Stands(g, w, t1, d, i, 0, 0, [])
    ensures var t' := Adopted(t1, x, t.chains[x]);
            Writable(g, w, t', d, i, x, 0, x) && Shows(g, w, ChainAt(t', x), 0, [])
  {
    hide AllSlots, Safe, Housed, Accounted, Live, ClusterOf, SizeOf, IsDirectory, Disowned, ForeignKept, IsPath, Orphaned, Shape;
    var ch, t' := t.chains[x], Adopted(t1, x, t.chains[x]);
    WritableFacts(g, v, t, d, i, x, 0, x);
    ShapeFacts(g, v, t);
    WellShape(g, w, t1);
    FatLength(g, v, t, w, t1);
    ForeignChain(v, t, x, w, t1);
    AdoptedWorking(g, w, t1, x, ch);
  }
}
