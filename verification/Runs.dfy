/** Whole runs of operations, each given by its paths. */
module Runs {
  import opened Bytes
  import opened Geometry
  import opened Volumes
  import opened Chains
  import opened Allocation
  import opened FileRead
  import opened Slots
  import opened Trees
  import opened TreeSteps
  import opened TreeNames
  import opened TreeUnique
  import opened TreeChains
  import opened FileWrite
  import opened Truncating
  import opened Paths
  import opened Resolving
  import opened NameMaps
  import opened EmptyDirs
  import opened Plans
  import opened Creating
  import opened MakingDirs
  import Removing
  import opened Renaming
  import opened Directories
  import opened FileTree
  import opened TreeSpec
  import opened TreeSight
  import opened Refining
  import opened DeadRefining
  import opened Handles

  /** Truncation is to a positive size, and a write fits the 32-bit size argument. */
  predicate Ordinary(op: Op) {
    match op
    case WriteAt(_, _, data) => |data| < U32
    case CutTo(_, size) => size > 0
    case _ => true
  }

  /** The operation did to the volume its effect on the tree of names, and touched no entry outside the chains. */
  ghost predicate StepYields(g: Geometry, v: View, t: Tree, w: View, t': Tree, op: Op, c: nat) {
    && Good(g, v, t) && Good(g, w, t') && t'.other == t.other
    && Effect(TreeOf(g, v, t), g.rootCluster, op, c) == Yield(TreeOf(g, w, t'))
    && (op.MakeDirectory? ==> c !in TreeOf(g, v, t))
  }

  // ---------------------------------------------------------------- want of room

  /** The directory the path's new name would go to has no free slot. */
  ghost predicate NoSlot(g: Geometry, v: View, t: Tree, path: Text)
    requires Good(g, v, t)
  {
    var q := NewName(TreeOf(g, v, t), g.rootCluster, path);
    Shape(g, v, t) && q.SeenName? && q.dir in t.dirs && NoneFree(AllSlots(g, v, t)[q.dir])
  }

  /** The chain of the file the path leads to, if it has one. */
  ghost function ChainSeen(g: Geometry, v: View, t: Tree, path: Text): seq<nat>
    requires Good(g, v, t)
  {
    var h := HeadSeen(g, v, t, FileSeen(TreeOf(g, v, t), g.rootCluster, path));
    if h == 0 then [] else ChainAt(t, h)
  }

  /** Fewer clusters are free than that file's chain lacks for the write. */
  ghost predicate NoClusters(g: Geometry, v: View, t: Tree, path: Text, position: nat, data: seq<byte>)
    requires Good(g, v, t)
  {
    g.Valid() && |data| > 0 && Lacks(g, |ChainSeen(g, v, t, path)|, position + |data|) > FreeCount(v.fat)
  }

  /** There is no room for the operation: a new name needs a free slot in its directory, a new directory a free cluster
      too, and a write as many as the file's chain lacks. Nothing else needs room. */
  ghost predicate NoRoom(g: Geometry, v: View, t: Tree, op: Op)
    requires Good(g, v, t)
  {
    match op
    case Create(path) => NoSlot(g, v, t, path)
    case MakeDirectory(path) => NoSlot(g, v, t, path) || Full(g, v)
    case Rename(_, to) => NoSlot(g, v, t, to)
    case WriteAt(path, position, data) => NoClusters(g, v, t, path, position, data)
    case _ => false
  }

  /** What the operation returns: what its effect on the tree says, or an error if there is no room for that effect. */
  ghost function StepStatus(g: Geometry, v: View, t: Tree, op: Op): Status
    requires Good(g, v, t)
  {
    match Effect(TreeOf(g, v, t), g.rootCluster, op, 0)
    case Refuse(st) => st
    case Yield(_) => if NoRoom(g, v, t, op) then Error else Ok
  }

  /** The first cluster of what a name stands for. */
  ghost function HeadSeen(g: Geometry, v: View, t: Tree, q: Seen): nat
    requires Good(g, v, t)
  {
    GoodFacts(g, v, t);
    var m := AllSlots(g, v, t);
    if q.SeenName? && q.dir in m && q.name in BindingsOf(m, q.dir) then ClusterOf(BindingsOf(m, q.dir)[q.name]) else 0
  }

  /** The operation is a write that fails for want of clusters after it has taken a first one for a file that had none. */
  ghost predicate Strands(g: Geometry, v: View, t: Tree, op: Op)
    requires Good(g, v, t)
  {
    && op.WriteAt? && Effect(TreeOf(g, v, t), g.rootCluster, op, 0).Yield? && NoRoom(g, v, t, op)
    && ChainSeen(g, v, t, op.path) == [] && FreeCount(v.fat) > 0
  }

  /** The operation loses clusters: a write that strands a chain; mkdir under a name that begins with 0xE5; or a rename of a
      file with a chain to such a name. */
  ghost predicate Leaks(g: Geometry, v: View, t: Tree, op: Op)
    requires Good(g, v, t)
  {
    || Strands(g, v, t, op)
    || (StepStatus(g, v, t, op) == Ok && !NameBound(op)
        && (op.MakeDirectory?
            || (op.Rename? && HeadSeen(g, v, t, OldName(TreeOf(g, v, t), g.rootCluster, op.from)) != 0)))
  }

  /** The volume stays good. Only an operation that leaks clusters makes it impossible to count no cluster as foreign that
      was not. */
  ghost predicate StepKeeps(g: Geometry, v: View, t: Tree, w: View, t': Tree, op: Op) {
    && Good(g, v, t) && Good(g, w, t') && ForeignKept(t, t') && (Leaks(g, v, t, op) || t'.other == t.other)
    && ((exists tb :: WellFormed(g, w, tb) && tb.other == t.other) <==> !Leaks(g, v, t, op))
  }

  /** The operation did to the tree of names what the code makes of it. */
  ghost predicate StepOk(g: Geometry, v: View, t: Tree, w: View, t': Tree, op: Op, c: nat) {
    && StepKeeps(g, v, t, w, t', op)
    && Done(TreeOf(g, v, t), g.rootCluster, op, c) == Yield(TreeOf(g, w, t'))
    && (op.MakeDirectory? && NameBound(op) ==> c !in TreeOf(g, v, t))
  }

  /** The operation failed and the tree of names is what it was. Only a write changes anything at all. */
  ghost predicate StepFailed(g: Geometry, v: View, t: Tree, w: View, t': Tree, op: Op) {
    StepKeeps(g, v, t, w, t', op) && TreeOf(g, w, t') == TreeOf(g, v, t) && (!op.WriteAt? ==> w == v && t' == t)
  }

  /** A truncation in the tree whose old size fits the clusters it keeps; any other operation. */
  ghost predicate Calm(g: Geometry, a: Model, op: Op)
    requires g.Valid()
  {
    op.CutTo? ==>
      var q := FileSeen(a, g.rootCluster, op.path);
      q.SeenName? && 0 < op.size < |a[q.dir][q.name].bytes| ==> |a[q.dir][q.name].bytes| <= RoomKept(g, op.size)
  }

  lemma ConsistentIsCoherent(g: Geometry, before: seq<View>, after: seq<View>)
    requires AllConsistent(g, before, after)
    ensures AllSound(g, before, after)
  {
    hide Sound, SizedIn;
    forall i | |before| <= i < |after| ensures Coherent(g, after[i]) {
      assert Consistent(g, after[i]);
      var t :| Safe(g, after[i], t);
      assert Sound(g, after[i], t);
    }
  }

  lemma NothingHappened(g: Geometry, j: seq<View>)
    ensures AllSound(g, j, j) && AllConsistent(g, j, j)
  {
  }

  lemma TreeIs(g: Geometry, v: View, t: Tree)
    requires Good(g, v, t)
    ensures Shape(g, v, t) && AllMapLike(AllSlots(g, v, t)) && TreeOf(g, v, t) == ModelOf(g, v, t, AllSlots(g, v, t))
  {
    hide Shape, AllSlots, AllMapLike, ModelOf, Accounted;
    GoodFacts(g, v, t);
  }

  /** Nothing at all happened. */
  lemma Unmoved(g: Geometry, v: View, t: Tree, op: Op)
    requires Good(g, v, t) && !Strands(g, v, t, op) && StepStatus(g, v, t, op) != Ok
    ensures StepFailed(g, v, t, v, t, op)
  {
    hide AllSlots, AllMapLike, Unlabelled, TreeOf, Strands, StepStatus, HeadSeen, Safe, Housed, Accounted;
    assert WellFormed(g, v, t);
  }

  /** The effect, and no more. */
  lemma YieldsOk(g: Geometry, v: View, t: Tree, w: View, t': Tree, op: Op, c: nat)
    requires StepYields(g, v, t, w, t', op, c) && NameBound(op) && !Strands(g, v, t, op)
    ensures StepOk(g, v, t, w, t', op, c)
  {
    hide AllSlots, AllMapLike, Unlabelled, TreeOf, Strands, StepStatus, HeadSeen, Safe, Housed, Accounted, Effect, OrdinaryName;
    assert WellFormed(g, w, t');
  }

  lemma NoStrands(g: Geometry, v: View, t: Tree, op: Op)
    requires Good(g, v, t) && (op.WriteAt? ==> StepStatus(g, v, t, op) == Ok)
    ensures !Strands(g, v, t, op)
  {
    hide Good, TreeOf, NoRoom, ChainSeen, Effect;
  }

  /** Nothing noticeable, apart from what a rename unbinds. */
  lemma UnnoticedOk(g: Geometry, v: View, t: Tree, w: View, t': Tree, op: Op, c: nat)
    requires Good(g, v, t) && Good(g, w, t') && StepStatus(g, v, t, op) == Ok && !NameBound(op) && ForeignKept(t, t')
    requires TreeOf(g, w, t') == Unnoticed(TreeOf(g, v, t), g.rootCluster, op)
    requires Leaks(g, v, t, op) || t'.other == t.other
    requires (exists tb :: WellFormed(g, w, tb) && tb.other == t.other) <==> !Leaks(g, v, t, op)
    ensures StepOk(g, v, t, w, t', op, c)
  {
    hide Good, TreeOf, Leaks, NoRoom, Effect, OldName, Unbind, WellFormed, NameIn;
    Refusals(TreeOf(g, v, t), g.rootCluster, op, 0);
    Refusals(TreeOf(g, v, t), g.rootCluster, op, c);
  }

  // ---------------------------------------------------------------- one operation

  lemma FirstFreeRoom(ss: seq<Slot>, i: nat)
    requires FirstFree(ss, i)
    ensures !NoneFree(ss)
  {
  }

  /** Whether a new name finds its place, in terms of the tree. */
  lemma PlaceSeen(g: Geometry, v: View, t: Tree, path: Text)
    requires Good(g, v, t) && Shape(g, v, t)
    ensures var p, q := NewPlace(AllSlots(g, v, t), g.rootCluster, path), NewName(TreeOf(g, v, t), g.rootCluster, path);
            && !q.SeenDirectory?
            && (p.Place? ==> q.SeenName? && !NoSlot(g, v, t, path))
            && (p.Refused? ==> q == SeenNot(p.status) || (q.SeenName? && NoSlot(g, v, t, path) && p.status == Error))
  {
    hide AllSlots, Shape, SoundIn, HousedIn, SizedIn, Accounted, AllMapLike, Unlabelled, ModelOf, WellFormed, NewPlace, NewName,
         FirstFree, NoneFree;
    GoodFacts(g, v, t);
    var m := AllSlots(g, v, t);
    NewSeen(g, v, t, m, g.rootCluster, path);
    var p := NewPlace(m, g.rootCluster, path);
    if p.Place? {
      FirstFreeRoom(m[p.dir], p.index);
    }
  }

  lemma CreateStatus(g: Geometry, v: View, t: Tree, op: Op)
    requires Good(g, v, t) && Shape(g, v, t) && (op.Create? || op.MakeDirectory?)
    ensures var p := NewPlace(AllSlots(g, v, t), g.rootCluster, op.path);
            StepStatus(g, v, t, op) ==
            if p.Refused? then p.status else if op.MakeDirectory? && Full(g, v) then Error else Ok
    ensures !Strands(g, v, t, op)
  {
    hide AllSlots, Shape, Good, TreeOf, NewPlace, NewName, NoSlot, Full, Bind;
    PlaceSeen(g, v, t, op.path);
  }

  method DoCreate(fs: Volume, op: Op, ghost t: Tree) returns (r: Status)
    requires fs.Ready() && Good(fs.g, fs.Now(), t) && op.Create?
    modifies fs`journal, fs.device, fs.sectorBuffer
    ensures fs.Ready() && AllConsistent(fs.g, old(fs.journal), fs.journal)
    ensures r == StepStatus(fs.g, old(fs.Now()), t, op)
    ensures r == Ok ==> StepOk(fs.g, old(fs.Now()), t, fs.Now(), t, op, 0)
    ensures r != Ok ==> StepFailed(fs.g, old(fs.Now()), t, fs.Now(), t, op)
    ensures HandlesKept(fs.g, old(fs.Now()), t, fs.Now(), t, op)
  {
    hide Kept, ViewOf, HandlesKept, AllSlots, Shape, SoundIn, SizedIn, HousedIn, Accounted, AllMapLike, Unlabelled, NewPlace, OneSlot,
         CreateEffect, StepStatus, StepFailed, StepOk, LeadsTo, LeadsNowhere, SlotIs, ModelOf, Consistent, Strands, NameIn;
    ghost var v, j := fs.Now(), fs.journal;
    GoodFacts(fs.g, v, t);
    CreateStatus(fs.g, v, t, op);
    NothingHappened(fs.g, j);
    var file := new FileHandle();
    HandlesSame(fs.g, v, t, op);
    r := CreateFile(fs, op.path, file, t);
    if r != Ok {
      Unmoved(fs.g, v, t, op);
      return;
    }
    ConsistentNext(fs.g, j, j, fs.Now(), t);
    CreateHandles(fs.g, v, t, fs.Now(), op, file.directoryCluster, file.entryIndex, NewEntry(op.path, ATTR_ARCHIVE, 0, 0));
    if OrdinaryName(op.path) {
      CreateRefines(fs.g, v, t, fs.Now(), op.path, file.directoryCluster, file.entryIndex);
      YieldsOk(fs.g, v, t, fs.Now(), t, op, 0);
    } else {
      CreateDead(fs.g, v, t, fs.Now(), op.path, file.directoryCluster, file.entryIndex);
      CreateNotNoticed(fs.g, v, t, fs.Now(), op);
    }
  }

  lemma CreateNotNoticed(g: Geometry, v: View, t: Tree, w: View, op: Op)
    requires op.Create? && !OrdinaryName(op.path) && Good(g, v, t) && Good(g, w, t) && TreeOf(g, w, t) == TreeOf(g, v, t)
    requires StepStatus(g, v, t, op) == Ok
    ensures StepOk(g, v, t, w, t, op, 0)
  {
    hide AllSlots, AllMapLike, Unlabelled, TreeOf, Safe, Housed, Accounted, StepOk, StepStatus, Effect, NoRoom, HeadSeen;
    assert WellFormed(g, w, t);
    UnnoticedOk(g, v, t, w, t, op, 0);
  }

  method DoMkdir(fs: Volume, op: Op, ghost t: Tree) returns (r: Status, ghost t': Tree, ghost c: nat)
    requires fs.Ready() && Good(fs.g, fs.Now(), t) && op.MakeDirectory?
    modifies fs`journal, fs.device, fs.sectorBuffer
    ensures fs.Ready() && AllConsistent(fs.g, old(fs.journal), fs.journal)
    ensures r == StepStatus(fs.g, old(fs.Now()), t, op)
    ensures r == Ok ==> StepOk(fs.g, old(fs.Now()), t, fs.Now(), t', op, c)
    ensures r != Ok ==> StepFailed(fs.g, old(fs.Now()), t, fs.Now(), t', op)
    ensures HandlesKept(fs.g, old(fs.Now()), t, fs.Now(), t', op)
  {
    hide Kept, ViewOf, HandlesKept, AllSlots, Shape, SoundIn, SizedIn, HousedIn, Accounted, AllMapLike, Unlabelled, NewPlace, MakeEffect,
         LeadsTo, LeadsNowhere, DirectoryMade, ModelOf, Consistent, Full, GoesTo, StepStatus, StepFailed, StepOk, Strands,
         NothingMade, NameIn;
    ghost var v, j := fs.Now(), fs.journal;
    GoodFacts(fs.g, v, t);
    CreateStatus(fs.g, v, t, op);
    HandlesSame(fs.g, v, t, op);
    ghost var d, i;
    r, t', d, i, c := Mkdir(fs, op.path, t);
    if r != Ok {
      Unmoved(fs.g, v, t, op);
      return;
    }
    if OrdinaryName(op.path) {
      MkdirRefines(fs.g, v, t, fs.Now(), t', op.path, d, i, c);
      MadeFacts(fs.g, v, t, fs.Now(), t', op.path, d, i, c);
      MkdirHandles(fs.g, v, t, fs.Now(), t', op, d, i, c);
      YieldsOk(fs.g, v, t, fs.Now(), t', op, c);
    } else {
      MkdirDead(fs.g, v, t, fs.Now(), t', op.path, d, i, c);
      MkdirNotNoticed(fs.g, v, t, fs.Now(), op, d, i, c);
      MkdirDeadHandles(fs.g, v, t, fs.Now(), t', op, d, i, c);
      t' := Disowned(fs.Now(), WithChain(t, c, [c]), c);
    }
  }

  lemma MkdirNotNoticed(g: Geometry, v: View, t: Tree, w: View, op: Op, d: nat, i: nat, c: nat)
    requires op.MakeDirectory? && !OrdinaryName(op.path) && Good(g, v, t) && StepStatus(g, v, t, op) == Ok
    requires NothingMade(g, v, t, w, op.path, d, i, c)
    requires var t1 := WithChain(t, c, [c]);
             c in t1.chains && Good(g, w, Disowned(w, t1, c)) && TreeOf(g, w, Disowned(w, t1, c)) == TreeOf(g, v, t)
    ensures StepOk(g, v, t, w, Disowned(w, WithChain(t, c, [c]), c), op, c)
  {
    hide Good, AllSlots, TreeOf, WellFormed, Safe, Housed, Accounted, StepOk, StepStatus, Effect, NoRoom, HeadSeen, Put, Disowned,
         Shape, NameIn, ForeignKept;
    var t1 := WithChain(t, c, [c]);
    OrphanIsLost(g, w, t1, c);
    ForeignElsewhere(w, t1, c);
    ForeignSame(t, t1, Disowned(w, t1, c));
    UnnoticedOk(g, v, t, w, Disowned(w, t1, c), op, c);
  }

  lemma ForeignSame(t: Tree, t1: Tree, t2: Tree)
    requires t1.other == t.other && ForeignKept(t1, t2)
    ensures ForeignKept(t, t2)
  {
  }

  /** The file a removal or a rename is about, in terms of the tree. */
  lemma FileToRemove(g: Geometry, v: View, t: Tree, path: Text)
    requires Good(g, v, t) && Shape(g, v, t)
    ensures var p, a := RemovePlace(AllSlots(g, v, t), g.rootCluster, path), TreeOf(g, v, t);
            var q := OldName(a, g.rootCluster, path);
            && (p.Place? <==> q.SeenName? && a[q.dir][q.name].File?)
            && (p.Refused? ==> p.status == if q.SeenName? then NotAFile else RefusalOf(q))
  {
    hide AllSlots, Shape, SoundIn, HousedIn, SizedIn, Accounted, AllMapLike, Unlabelled, ModelOf, WellFormed, OldPlace, OldName,
         Live, NameOf, ClusterOf, SizeOf, BytesOf, IsDirectory, NameIn;
    GoodFacts(g, v, t);
    OldSeen(g, v, t, AllSlots(g, v, t), g.rootCluster, path);
  }

  lemma RemoveRefused(g: Geometry, v: View, t: Tree, path: Text, r: Status)
    requires Good(g, v, t) && Shape(g, v, t)
    requires RemovePlace(AllSlots(g, v, t), g.rootCluster, path) == Refused(r)
    ensures RemoveEffect(TreeOf(g, v, t), g.rootCluster, path) == Refuse(r)
  {
    hide AllSlots, Shape, Good, TreeOf, RemovePlace, OldName, Unbind;
    FileToRemove(g, v, t, path);
  }

  method DoRemove(fs: Volume, op: Op, ghost t: Tree) returns (r: Status, ghost t': Tree)
    requires fs.Ready() && Good(fs.g, fs.Now(), t) && op.Remove?
    modifies fs`journal, fs.device, fs.sectorBuffer
    ensures fs.Ready() && AllConsistent(fs.g, old(fs.journal), fs.journal)
    ensures r == StepStatus(fs.g, old(fs.Now()), t, op)
    ensures r == Ok ==> StepOk(fs.g, old(fs.Now()), t, fs.Now(), t', op, 0)
    ensures r != Ok ==> StepFailed(fs.g, old(fs.Now()), t, fs.Now(), t', op)
    ensures HandlesKept(fs.g, old(fs.Now()), t, fs.Now(), t', op)
  {
    hide Kept, ViewOf, HandlesKept, AllSlots, Shape, SoundIn, SizedIn, HousedIn, Accounted, AllMapLike, Unlabelled, RemovePlace,
         RemoveEffect, Removing.EntryGone, ModelOf, Consistent, StepStatus, StepFailed, StepOk;
    ghost var v := fs.Now();
    GoodFacts(fs.g, v, t);
    ghost var d, i, h;
    HandlesSame(fs.g, v, t, op);
    r, t', d, i, h := Removing.RemoveFile(fs, op.path, t);
    if r != Ok {
      RemoveRefused(fs.g, v, t, op.path, r);
      RemovalRefused(fs.g, v, t, op, r);
      return;
    }
    RemoveRefines(fs.g, v, t, fs.Now(), t', op.path, d, i, h);
    RemoveHandles(fs.g, v, t, fs.Now(), t', op, d, i, h);
    GoneFacts(fs.g, v, t, fs.Now(), t', d, i, h);
    RemovalOk(fs.g, v, t, fs.Now(), t', op);
  }

  lemma RemovalRefused(g: Geometry, v: View, t: Tree, op: Op, r: Status)
    requires Good(g, v, t) && (op.Remove? || op.RemoveDirectory?) && r != Ok
    requires Effect(TreeOf(g, v, t), g.rootCluster, op, 0) == Refuse(r)
    ensures StepStatus(g, v, t, op) == r && StepFailed(g, v, t, v, t, op)
  {
    hide Good, TreeOf, Effect, StepFailed;
    Unmoved(g, v, t, op);
  }

  lemma RemovalOk(g: Geometry, v: View, t: Tree, w: View, t': Tree, op: Op)
    requires Good(g, v, t) && Good(g, w, t') && (op.Remove? || op.RemoveDirectory?) && t'.other == t.other
    requires Effect(TreeOf(g, v, t), g.rootCluster, op, 0) == Yield(TreeOf(g, w, t'))
    ensures StepStatus(g, v, t, op) == Ok && StepOk(g, v, t, w, t', op, 0)
  {
    hide Good, TreeOf, Effect, StepOk;
    YieldsOk(g, v, t, w, t', op, 0);
  }

  lemma RemoveDirectoryRefusal(a: Model, root: nat, path: Text, r: Status)
    requires match OldName(a, root, path)
             case SeenNot(st) => r == st
             case SeenDirectory(_) => r == Error
             case SeenName(d, n) =>
               match a[d][n]
               case File(_) => r == NotADirectory
               case Directory(e) => e in a && a[e] != map[] && r == DirectoryNotEmpty
    ensures RemoveDirectoryEffect(a, root, path) == Refuse(r)
  {
    hide OldName, Unbind;
  }

  lemma RemoveDirectoryRefused(g: Geometry, v: View, t: Tree, path: Text, r: Status)
    requires Good(g, v, t) && Shape(g, v, t)
    requires RemoveDirectoryPlace(AllSlots(g, v, t), g.rootCluster, path) == Refused(r)
    ensures RemoveDirectoryEffect(TreeOf(g, v, t), g.rootCluster, path) == Refuse(r)
  {
    hide AllSlots, Shape, SoundIn, HousedIn, SizedIn, Accounted, AllMapLike, Unlabelled, ModelOf, OldPlace, OldName,
         Live, NameOf, ClusterOf, SizeOf, BytesOf, IsDirectory, NameIn, LooksEmpty, NoLive, WellFormed, RemoveDirectoryEffect, TreeOf;
    GoodFacts(g, v, t);
    var m := AllSlots(g, v, t);
    OldSeen(g, v, t, m, g.rootCluster, path);
    var p := OldPlace(m, g.rootCluster, path);
    if p.Place? && IsDirectory(m[p.dir][p.index]) {
      NotItsOwnParent(t, m, p.dir, p.index);
      NotRoot(g, t, m, p.dir, p.index);
      EmptySeen(g, v, t, ClusterOf(m[p.dir][p.index]));
    }
    TreeIs(g, v, t);
    RemoveDirectoryRefusal(TreeOf(g, v, t), g.rootCluster, path, r);
  }

  method DoRmdir(fs: Volume, op: Op, ghost t: Tree) returns (r: Status, ghost t': Tree)
    requires fs.Ready() && Good(fs.g, fs.Now(), t) && op.RemoveDirectory?
    modifies fs`journal, fs.device, fs.sectorBuffer
    ensures fs.Ready() && AllConsistent(fs.g, old(fs.journal), fs.journal)
    ensures r == StepStatus(fs.g, old(fs.Now()), t, op)
    ensures r == Ok ==> StepOk(fs.g, old(fs.Now()), t, fs.Now(), t', op, 0)
    ensures r != Ok ==> StepFailed(fs.g, old(fs.Now()), t, fs.Now(), t', op)
    ensures HandlesKept(fs.g, old(fs.Now()), t, fs.Now(), t', op)
  {
    hide Kept, ViewOf, HandlesKept, AllSlots, Shape, SoundIn, SizedIn, HousedIn, Accounted, AllMapLike, Unlabelled, RemoveDirectoryPlace,
         RemoveDirectoryEffect, Removing.EntryGone, Removing.EntryShed, ModelOf, Consistent, StepStatus, StepFailed, StepOk,
         LooksEmpty, NoLive, NothingBelow;
    ghost var v := fs.Now();
    GoodFacts(fs.g, v, t);
    ghost var d, i, h;
    HandlesSame(fs.g, v, t, op);
    r, t', d, i, h := Removing.RemoveDirectory(fs, op.path, t);
    if r != Ok {
      RemoveDirectoryRefused(fs.g, v, t, op.path, r);
      RemovalRefused(fs.g, v, t, op, r);
      return;
    }
    NotRoot(fs.g, t, AllSlots(fs.g, v, t), d, i);
    EmptySeen(fs.g, v, t, h);
    RemoveDirectoryRefines(fs.g, v, t, fs.Now(), t', op.path, d, i, h);
    RemoveHandles(fs.g, v, t, fs.Now(), t', op, d, i, h);
    GoneFacts(fs.g, v, t, fs.Now(), t', d, i, h);
    RemovalOk(fs.g, v, t, fs.Now(), t', op);
  }

  lemma RenameStatus(g: Geometry, v: View, t: Tree, op: Op)
    requires Good(g, v, t) && Shape(g, v, t) && op.Rename?
    ensures var p := RenameMove(AllSlots(g, v, t), g.rootCluster, op.from, op.to);
            StepStatus(g, v, t, op) == if p.Stay? then p.status else Ok
    ensures !Strands(g, v, t, op)
  {
    hide AllSlots, Shape, Good, TreeOf, RemovePlace, OldName, NewPlace, NewName, SplitInto, Bind, Unbind, NoSlot;
    FileToRemove(g, v, t, op.from);
    PlaceSeen(g, v, t, op.to);
  }

  /** What fat32_rename_file has done when it returns OK. */
  ghost predicate RenameResult(g: Geometry, v: View, t: Tree, w: View, t': Tree, from: Text, to: Text,
                               d0: nat, i0: nat, d: nat, i: nat, h: nat)
  {
    && Good(g, v, t) && Shape(g, v, t) && LiveIn(AllSlots(g, v, t), d0, i0)
    && RenameMove(AllSlots(g, v, t), g.rootCluster, from, to) == Move(Place(d0, i0), Place(d, i))
    && EntryMoved(g, v, t, w, t', to, d0, i0, d, i)
    && h == ClusterOf(AllSlots(g, v, t)[d0][i0]) && t' == At(t, h, d, i)
    && (if OrdinaryName(to) || h == 0 then WellFormed(g, w, t') else Orphaned(g, w, LostTree(t, h), h))
  }

  lemma RenameYields(g: Geometry, v: View, t: Tree, w: View, t': Tree, op: Op, d0: nat, i0: nat, d: nat, i: nat, h: nat)
    requires op.Rename? && OrdinaryName(op.to) && RenameResult(g, v, t, w, t', op.from, op.to, d0, i0, d, i, h)
    ensures StepOk(g, v, t, w, t', op, 0)
  {
    hide Good, AllSlots, Shape, TreeOf, WellFormed, RenameEffect, EntryMoved, Orphaned, RenameMove, Live, ClusterOf, NameIn, At,
         StepOk, Strands;
    RenameRefines(g, v, t, w, t', op.from, op.to, d0, i0, d, i);
    MovedFacts(g, v, t, w, t', op.to, d0, i0, d, i);
    RenameStatus(g, v, t, op);
    YieldsOk(g, v, t, w, t', op, 0);
  }

  /** A rename to a name that is not bound, in terms of the tree. */
  lemma RenameAway(g: Geometry, v: View, t: Tree, w: View, t': Tree, from: Text, to: Text, d0: nat, i0: nat, d: nat, i: nat, h: nat)
    requires !OrdinaryName(to) && RenameResult(g, v, t, w, t', from, to, d0, i0, d, i, h)
    ensures Good(g, v, t) && Good(g, w, RenamedAway(w, t, h))
    ensures HeadSeen(g, v, t, OldName(TreeOf(g, v, t), g.rootCluster, from)) == h
    ensures TreeOf(g, w, RenamedAway(w, t, h)) == Unnoticed(TreeOf(g, v, t), g.rootCluster, Rename(from, to))
  {
    hide Good, AllSlots, Shape, TreeOf, WellFormed, HeadSeen, EntryMoved, Orphaned, RenameMove, OldName, Unbind, Live, ClusterOf,
         IsDirectory, NameIn, NameOf, RenamedAway;
    MoveFacts(AllSlots(g, v, t), g.rootCluster, from, to, d0, i0, d, i);
    RenameDead(g, v, t, w, t', to, d0, i0, d, i, h);
    OldSeenAt(g, v, t, from, d0, i0);
  }

  lemma RenameHeads(g: Geometry, v: View, t: Tree, w: View, t': Tree, from: Text, to: Text, d0: nat, i0: nat, d: nat, i: nat, h: nat)
    requires !OrdinaryName(to) && RenameResult(g, v, t, w, t', from, to, d0, i0, d, i, h)
    ensures if h == 0 then WellFormed(g, w, t) else Orphaned(g, w, LostTree(t, h), h)
  {
    hide Good, AllSlots, Shape, WellFormed, EntryMoved, Orphaned, RenameMove, Live, ClusterOf, NameIn;
  }

  lemma RenameNotNoticed(g: Geometry, v: View, t: Tree, w: View, t': Tree, op: Op, d0: nat, i0: nat, d: nat, i: nat, h: nat)
    requires op.Rename? && !OrdinaryName(op.to) && Good(g, v, t) && StepStatus(g, v, t, op) == Ok
    requires RenameResult(g, v, t, w, t', op.from, op.to, d0, i0, d, i, h)
    ensures StepOk(g, v, t, w, RenamedAway(w, t, h), op, 0)
  {
    hide Good, TreeOf, WellFormed, StepOk, StepStatus, Effect, NoRoom, HeadSeen, OldName, Unbind, NameIn, ForeignKept, RenamedAway,
         RenameResult, Strands, Orphaned;
    RenameAway(g, v, t, w, t', op.from, op.to, d0, i0, d, i, h);
    RenameHeads(g, v, t, w, t', op.from, op.to, d0, i0, d, i, h);
    NoStrands(g, v, t, op);
    AwayOther(g, v, t, w, h);
    UnnoticedOk(g, v, t, w, RenamedAway(w, t, h), op, 0);
  }

  /** The tree that goes with a rename. */
  ghost function RenamedTree(w: View, t: Tree, t': Tree, to: Text, h: nat): Tree {
    if OrdinaryName(to) then t' else RenamedAway(w, t, h)
  }

  lemma RenameStep(g: Geometry, v: View, t: Tree, w: View, t': Tree, op: Op, d0: nat, i0: nat, d: nat, i: nat, h: nat)
    requires op.Rename? && RenameResult(g, v, t, w, t', op.from, op.to, d0, i0, d, i, h)
    ensures StepOk(g, v, t, w, RenamedTree(w, t, t', op.to, h), op, 0)
    ensures HandlesKept(g, v, t, w, RenamedTree(w, t, t', op.to, h), op)
  {
    hide HandlesKept, Good, AllSlots, Shape, TreeOf, WellFormed, StepOk, StepStatus, EntryMoved, Orphaned, RenameMove, Live, ClusterOf, NameIn,
         RenamedAway, At, Strands;
    RenameStatus(g, v, t, op);
    if OrdinaryName(op.to) {
      RenameYields(g, v, t, w, t', op, d0, i0, d, i, h);
      RenamedHandles(g, v, t, w, t', op, d0, i0, d, i, h);
    } else {
      RenameNotNoticed(g, v, t, w, t', op, d0, i0, d, i, h);
      RenamedHandles(g, v, t, w, t', op, d0, i0, d, i, h);
    }
  }

  lemma RenamedHandles(g: Geometry, v: View, t: Tree, w: View, t': Tree, op: Op, d0: nat, i0: nat, d: nat, i: nat, h: nat)
    requires op.Rename? && RenameResult(g, v, t, w, t', op.from, op.to, d0, i0, d, i, h)
    ensures HandlesKept(g, v, t, w, RenamedTree(w, t, t', op.to, h), op)
  {
    hide HandlesKept, AllSlots, Shape, AllMapLike, Unlabelled, Housed, Accounted, Sound, SizedIn, EntryMoved, Orphaned, RenameMove, Live,
         ClusterOf, NameIn, RenamedAway, At;
    if OrdinaryName(op.to) {
      RenameHandles(g, v, t, w, t', op, d0, i0, d, i);
    } else {
      RenameHeads(g, v, t, w, t', op.from, op.to, d0, i0, d, i, h);
      RenameDeadHandles(g, v, t, w, t', op, d0, i0, d, i, h);
    }
  }

  method DoRename(fs: Volume, op: Op, ghost t: Tree) returns (r: Status, ghost t': Tree)
    requires fs.Ready() && Good(fs.g, fs.Now(), t) && op.Rename?
    modifies fs`journal, fs.device, fs.sectorBuffer
    ensures fs.Ready() && AllConsistent(fs.g, old(fs.journal), fs.journal)
    ensures r == StepStatus(fs.g, old(fs.Now()), t, op)
    ensures r == Ok ==> StepOk(fs.g, old(fs.Now()), t, fs.Now(), t', op, 0)
    ensures r != Ok ==> StepFailed(fs.g, old(fs.Now()), t, fs.Now(), t', op)
    ensures HandlesKept(fs.g, old(fs.Now()), t, fs.Now(), t', op)
  {
    hide Kept, ViewOf, HandlesKept, AllSlots, Shape, SoundIn, SizedIn, HousedIn, Accounted, AllMapLike, Unlabelled, RenameMove, RenamedTree,
         EntryMoved, Consistent, StepStatus, StepFailed, StepOk, LeadsTo, LeadsNowhere, Strands, ClusterOf, Orphaned, NameIn, At;
    ghost var v := fs.Now();
    GoodFacts(fs.g, v, t);
    RenameStatus(fs.g, v, t, op);
    ghost var d0, i0, d, i;
    HandlesSame(fs.g, v, t, op);
    r, t', d0, i0, d, i := RenameFile(fs, op.from, op.to, t);
    if r != Ok {
      Unmoved(fs.g, v, t, op);
      return;
    }
    MovedFacts(fs.g, v, t, fs.Now(), t', op.to, d0, i0, d, i);
    ghost var h := ClusterOf(AllSlots(fs.g, v, t)[d0][i0]);
    RenameStep(fs.g, v, t, fs.Now(), t', op, d0, i0, d, i, h);
    t' := RenamedTree(fs.Now(), t, t', op.to, h);
  }

  /** The entry an operation is about, in terms of the tree. */
  lemma OldSeenAt(g: Geometry, v: View, t: Tree, path: Text, d: nat, i: nat)
    requires Good(g, v, t) && Shape(g, v, t) && OldPlace(AllSlots(g, v, t), g.rootCluster, path) == Place(d, i)
    requires LiveIn(AllSlots(g, v, t), d, i)
    ensures OldName(TreeOf(g, v, t), g.rootCluster, path) == SeenName(d, NameOf(AllSlots(g, v, t)[d][i]))
    ensures HeadSeen(g, v, t, OldName(TreeOf(g, v, t), g.rootCluster, path)) == ClusterOf(AllSlots(g, v, t)[d][i])
  {
    hide AllSlots, Shape, SoundIn, HousedIn, SizedIn, Accounted, AllMapLike, Unlabelled, ModelOf, WellFormed, OldPlace, OldName,
         Live, NameOf, ClusterOf, SizeOf, BytesOf, IsDirectory, NameIn, MapLike;
    GoodFacts(g, v, t);
    OldSeen(g, v, t, AllSlots(g, v, t), g.rootCluster, path);
    MapLikeUnique(AllSlots(g, v, t), d);
  }

  lemma AwayOther(g: Geometry, v: View, t: Tree, w: View, h: nat)
    requires if h == 0 then WellFormed(g, w, t) else Orphaned(g, w, LostTree(t, h), h)
    ensures ForeignKept(t, RenamedAway(w, t, h)) && (h == 0 ==> RenamedAway(w, t, h).other == t.other)
    ensures (exists tb :: WellFormed(g, w, tb) && tb.other == t.other) <==> h == 0
  {
    hide AllSlots, Shape, WellFormed, Safe, Housed, Accounted, Disowned;
    if h != 0 {
      OrphanIsLost(g, w, LostTree(t, h), h);
      ForeignElsewhere(w, LostTree(t, h), h);
      ForeignSame(t, LostTree(t, h), RenamedAway(w, t, h));
    } else {
      assert t.other == t.other;
    }
  }

  // ---------------------------------------------------------------- writing and truncating by path

  /** A file the path leads to, opened: slot i of d, first cluster h, bytes b. */
  ghost predicate Opened(g: Geometry, v: View, t: Tree, path: Text, d: nat, i: nat, h: nat, b: seq<byte>) {
    && Good(g, v, t) && SlotIs(g, v, t, d, i, h, |b|) && Shows(g, v, ChainAt(t, h), |b|, b)
    && ChainSeen(g, v, t, path) == ChainAt(t, h) && LeadsTo(g, v, t, path, d, i)
    && var n := NameOf(AllSlots(g, v, t)[d][i]);
       FileSeen(TreeOf(g, v, t), g.rootCluster, path) == SeenName(d, n) && TreeOf(g, v, t)[d][n] == File(b)
  }

  lemma OpenedFacts(g: Geometry, v: View, t: Tree, path: Text, d: nat, i: nat, h: nat, b: seq<byte>)
    requires Opened(g, v, t, path, d, i, h, b)
    ensures Good(g, v, t) && WellFormed(g, v, t) && Shape(g, v, t) && g.Valid() && ChainSeen(g, v, t, path) == ChainAt(t, h)
    ensures SlotIs(g, v, t, d, i, h, |b|) && Shows(g, v, ChainAt(t, h), |b|, b)
    ensures var q := FileSeen(TreeOf(g, v, t), g.rootCluster, path);
            q.SeenName? && q.dir == d && TreeOf(g, v, t)[q.dir][q.name] == File(b)
    ensures LiveIn(AllSlots(g, v, t), d, i) && LeadsTo(g, v, t, path, d, i)
    ensures FileSeen(TreeOf(g, v, t), g.rootCluster, path) == SeenName(d, NameOf(AllSlots(g, v, t)[d][i]))
  {
    hide LeadsTo, AllSlots, WellFormed, AllMapLike, Unlabelled, TreeOf, FileSeen, Shows, NameOf, Live, ClusterOf, SizeOf, ChainSeen,
         IsChain, IsDirectory;
  }

  lemma ChainSeenAt(g: Geometry, v: View, t: Tree, path: Text, d: nat, i: nat, h: nat, size: nat)
    requires Good(g, v, t) && SlotIs(g, v, t, d, i, h, size)
    requires FileSeen(TreeOf(g, v, t), g.rootCluster, path) == SeenName(d, NameOf(AllSlots(g, v, t)[d][i]))
    ensures ChainSeen(g, v, t, path) == ChainAt(t, h)
  {
    hide AllSlots, Shape, WellFormed, Unlabelled, TreeOf, FileSeen, NameOf, Live, ClusterOf, SizeOf, IsDirectory, MapLike;
    GoodFacts(g, v, t);
    MapLikeUnique(AllSlots(g, v, t), d);
  }

  lemma FileRefused(g: Geometry, v: View, t: Tree, op: Op, r: Status)
    requires Good(g, v, t) && r != Ok && (op.WriteAt? || op.CutTo?)
    requires FileSeen(TreeOf(g, v, t), g.rootCluster, op.path) == SeenNot(r)
    ensures StepStatus(g, v, t, op) == r && StepFailed(g, v, t, v, t, op) && g.Valid() && Calm(g, TreeOf(g, v, t), op)
  {
    hide AllSlots, WellFormed, AllMapLike, Unlabelled, TreeOf, FileSeen, StepFailed, NoRoom, IsChain;
    GoodFacts(g, v, t);
    Unmoved(g, v, t, op);
    ShapeFacts(g, v, t);
  }

  /** The handle is open on such a file. */
  ghost predicate OpenedAs(g: Geometry, v: View, t: Tree, path: Text, file: FileHandle, b: seq<byte>)
    reads file
  {
    && !file.directory && |b| == file.size
    && Opened(g, v, t, path, file.directoryCluster, file.entryIndex, file.firstCluster, b)
  }

  /** fat32_open in terms of the tree of names: refused where the path leads to no file, otherwise a handle on the file. */
  method OpenPath(fs: Volume, path: Text, file: FileHandle, ghost t: Tree) returns (r: Status, ghost b: seq<byte>)
    requires fs.Ready() && Good(fs.g, fs.Now(), t)
    modifies fs.sectorBuffer, file
    ensures r != Ok ==> FileSeen(TreeOf(fs.g, old(fs.Now()), t), fs.g.rootCluster, path) == SeenNot(r)
    ensures r == Ok ==> OpenedAs(fs.g, old(fs.Now()), t, path, file, b) && file.position == 0
  {
    hide Kept, ViewOf, AllSlots, Shape, SoundIn, SizedIn, HousedIn, Accounted, AllMapLike, Unlabelled, ModelOf,
         SlotIs, Shows, FileSeen, Resolve, DirectoryAt, ChainSeen;
    ghost var v := fs.Now();
    b := [];
    GoodFacts(fs.g, v, t);
    r := Open(fs, path, file, t);
    if r != Ok {
      UnopenedSeen(fs.g, v, t, path, r);
      return;
    }
    b := BytesOf(fs.g, v, t, file.firstCluster, file.size);
    OpenedSeen(fs.g, v, t, path, file.directoryCluster, file.entryIndex, file.firstCluster, file.size);
    ChainSeenAt(fs.g, v, t, path, file.directoryCluster, file.entryIndex, file.firstCluster, file.size);
  }

  /** The same at the start of a path-level write or truncate. */
  method OpenFor(fs: Volume, op: Op, file: FileHandle, ghost t: Tree) returns (r: Status, ghost b: seq<byte>)
    requires fs.Ready() && Good(fs.g, fs.Now(), t) && (op.WriteAt? || op.CutTo?)
    modifies fs.sectorBuffer, file
    ensures r != Ok ==> r == StepStatus(fs.g, old(fs.Now()), t, op)
    ensures r != Ok ==> StepFailed(fs.g, old(fs.Now()), t, old(fs.Now()), t, op) && Calm(fs.g, TreeOf(fs.g, old(fs.Now()), t), op)
    ensures r == Ok ==> OpenedAs(fs.g, old(fs.Now()), t, op.path, file, b)
  {
    hide Kept, ViewOf, HandlesKept, AllSlots, Shape, Good, TreeOf, StepStatus, StepFailed, FileSeen, Opened, Calm;
    ghost var v := fs.Now();
    r, b := OpenPath(fs, op.path, file, t);
    if r != Ok {
      FileRefused(fs.g, v, t, op, r);
    }
  }

  lemma OpenedStatus(g: Geometry, v: View, t: Tree, op: Op, d: nat, i: nat, h: nat, b: seq<byte>)
    requires op.WriteAt? && Opened(g, v, t, op.path, d, i, h, b)
    ensures g.Valid() && Good(g, v, t)
    ensures StepStatus(g, v, t, op) == WriteStatus(g, v, false, op.position, |b|, |op.data|, |ChainAt(t, h)|)
    ensures Strands(g, v, t, op) <==> |op.data| > 0 && Sensible(op.position, |b|, |op.data|) && ChainAt(t, h) == []
                                      && Lacks(g, |ChainAt(t, h)|, op.position + |op.data|) > FreeCount(v.fat) > 0
  {
    hide AllSlots, Shape, Good, ModelOf, FileSeen, FreeCount, SlotIs, Shows, Opened, Lacking, Bind, Spliced, ChainSeen, TreeOf,
         ChainAt, LeadsTo, Live, NameOf;
    OpenedFacts(g, v, t, op.path, d, i, h, b);
  }

  lemma WriteNothing(g: Geometry, v: View, t: Tree, op: Op, d: nat, i: nat, h: nat, b: seq<byte>)
    requires op.WriteAt? && |op.data| == 0 && Opened(g, v, t, op.path, d, i, h, b)
    ensures StepYields(g, v, t, v, t, op, 0)
  {
    hide AllSlots, Shape, Good, ModelOf, FileSeen, SlotIs, Shows, Opened;
    OpenedFacts(g, v, t, op.path, d, i, h, b);
  }

  lemma WriteYields(g: Geometry, v: View, t: Tree, w: View, t': Tree, op: Op, d: nat, i: nat, h: nat, h': nat, b: seq<byte>)
    requires op.WriteAt? && |op.data| > 0 && Sensible(op.position, |b|, |op.data|) && Opened(g, v, t, op.path, d, i, h, b)
    requires SlotIs(g, w, t', d, i, h', |Spliced(b, op.position, op.data)|)
    requires WriteDone(g, v, t, w, t', d, i, h, h', op.position, op.data, b)
    ensures StepYields(g, v, t, w, t', op, 0)
  {
    hide AllSlots, Shape, SoundIn, SizedIn, HousedIn, Accounted, AllMapLike, Unlabelled, ModelOf, FileSeen, Shows, OnlyFile,
         Spliced, SlotIs, Quot, Bind, ChainSeen;
    FileRefines(g, v, t, w, t', d, i, h', Spliced(b, op.position, op.data));
    OnlyFileOther(g, v, t, w, t', d, i, h');
  }

  lemma OnlyFileOther(g: Geometry, v: View, t: Tree, w: View, t': Tree, d: nat, i: nat, h: nat)
    requires OnlyFile(g, v, t, w, t', d, i, h)
    ensures t'.other == t.other
  {
    hide AllSlots, Shape, SameBytes;
  }

  lemma BindSame(a: Model, d: nat, n: Name83, x: Node)
    requires d in a && n in a[d] && a[d][n] == x
    ensures Bind(a, d, n, x) == a
  {
    var names: Names := a[d][n := x];
    assert names == a[d];
  }

  /** A write that failed with every chain still named: the file's chain has grown, its bytes have not. */
  lemma GrownSame(g: Geometry, v: View, t: Tree, w: View, t': Tree, path: Text, d: nat, i: nat, h: nat, b: seq<byte>)
    requires Opened(g, v, t, path, d, i, h, b) && OthersKept(g, v, t, w, t', h) && Working(g, w, t', 0)
    requires Shows(g, w, ChainAt(t', h), |b|, b)
    ensures Good(g, w, t') && t'.other == t.other && TreeOf(g, w, t') == TreeOf(g, v, t)
  {
    hide AllSlots, Shape, Good, TreeOf, FileSeen, Shows, OnlyFile, SlotIs, Bind, ChainSeen, Opened, Working, OthersKept, WellFormed,
         SameBytes, NameOf;
    OpenedFacts(g, v, t, path, d, i, h, b);
    NotRecording(g, v, t, w, t', d, i, h, |b|);
    FileRefines(g, v, t, w, t', d, i, h, b);
    OnlyFileOther(g, v, t, w, t', d, i, h);
    BindSame(TreeOf(g, v, t), d, NameOf(AllSlots(g, v, t)[d][i]), File(b));
  }

  /** A chain started in vain was nobody's before. */
  lemma StrandedNew(g: Geometry, v: View, t: Tree, w: View, t': Tree, x: nat)
    requires WellFormed(g, v, t) && OthersKept(g, v, t, w, t', x) && Working(g, w, t', x)
    ensures x !in t.chains && x in t'.chains && x !in t'.dirs && Orphaned(g, w, t', x) && Accounted(w, t')
  {
    hide AllSlots, SoundIn, SizedIn, Accounted, FatKept, BytesAt, IsChain, HousedIn;
    ShapeFacts(g, v, t);
    ShapeFacts(g, w, t');
    HousedNames(g, t, AllSlots(g, v, t), x);
  }

  lemma HousedNames(g: Geometry, t: Tree, m: Dirs, x: nat)
    requires HousedIn(g, t, m, 0) && x != 0 && g.rootCluster in t.dirs
    ensures x in t.chains ==> x in t.home || x in t.dirs
  {
  }

  /** A write that failed after starting a chain: counted as foreign, it leaves a good volume with the same tree. */
  lemma StrandedSame(g: Geometry, v: View, t: Tree, w: View, t': Tree, x: nat)
    requires Good(g, v, t) && OthersKept(g, v, t, w, t', x) && Working(g, w, t', x)
    ensures x in t'.chains && Good(g, w, Disowned(w, t', x)) && TreeOf(g, w, Disowned(w, t', x)) == TreeOf(g, v, t)
    ensures ForeignKept(t, Disowned(w, t', x)) && !exists tb :: WellFormed(g, w, tb) && tb.other == t.other
  {
    hide AllSlots, WellFormed, SoundIn, HousedIn, SizedIn, Shape, Accounted, AllMapLike, Unlabelled, ModelOf, Working, OthersKept,
         Orphaned, Disowned, ChainsStay, ForeignKept;
    GoodFacts(g, v, t);
    StrandedNew(g, v, t, w, t', x);
    StrandedStays(g, v, t, w, t', x);
    DisownedWell(g, w, t', x);
    OrphanIsLost(g, w, t', x);
    ModelSame(g, v, t, w, Disowned(w, t', x), 0, AllSlots(g, v, t));
  }

  lemma StrandedStays(g: Geometry, v: View, t: Tree, w: View, t': Tree, x: nat)
    requires OthersKept(g, v, t, w, t', x) && x !in t.chains && Accounted(w, t')
    ensures x in t'.chains && ChainsStay(g, v, t, w, Disowned(w, t', x), 0) && ForeignKept(t, Disowned(w, t', x))
    ensures Shape(g, v, t) && Shape(g, w, t') && AllSlots(g, w, t') == AllSlots(g, v, t) && t'.other == t.other
  {
    hide AllSlots, Accounted, BytesAt, IsChain, FatKept, SameBytes;
    ShapeFacts(g, v, t);
    ShapeFacts(g, w, t');
    forall k | k in t.chains && k != 0 && k !in t.dirs ensures SameBytes(g, v, w, t.chains[k]) {
      SameBytesAtTrees(g, v, t, w, t', k);
    }
    AllStay(g, v, t, w, Disowned(w, t', x), 0);
    ForeignElsewhere(w, t', x);
  }

  /** What a write through an open handle comes to, before a stranded chain is counted as foreign. */
  ghost predicate WriteResult(g: Geometry, v: View, t: Tree, w: View, t': Tree, op: Op, d: nat, i: nat, h: nat, h': nat,
                              size: nat, x: nat, b: seq<byte>, r: Status)
  {
    && op.WriteAt? && g.Valid() && r == WriteStatus(g, v, false, op.position, |b|, |op.data|, |ChainAt(t, h)|)
    && Writable(g, w, t', d, i, h', size, x)
    && (|op.data| == 0 || !Sensible(op.position, |b|, |op.data|) ==> w == v && t' == t && x == 0)
    && (r == Ok && |op.data| > 0 ==>
          x == 0 && size == |Spliced(b, op.position, op.data)| && WriteDone(g, v, t, w, t', d, i, h, h', op.position, op.data, b))
    && (r != Ok && Sensible(op.position, |b|, |op.data|) ==> WriteFailed(g, v, t, w, t', h, 0, h', x, b))
  }

  /** fat32_write at a given position of an open file. */
  method WriteThrough(fs: Volume, op: Op, file: FileHandle, ghost t: Tree, ghost b: seq<byte>)
    returns (r: Status, ghost t': Tree, ghost x: nat)
    requires fs.Ready() && op.WriteAt? && Ordinary(op) && OpenedAs(fs.g, fs.Now(), t, op.path, file, b)
    modifies fs`journal, fs.device, fs.sectorBuffer, file
    ensures fs.Ready() && AllConsistent(fs.g, old(fs.journal), fs.journal)
    ensures WriteResult(fs.g, old(fs.Now()), t, fs.Now(), t', op, old(file.directoryCluster), old(file.entryIndex),
                        old(file.firstCluster), file.firstCluster, file.size, x, b, r)
  {
    hide Kept, ViewOf, AllSlots, Shape, Good, WellFormed, Consistent, SlotIs, Shows, WriteDone, FreeCount, Spliced, WriteFailed,
         Opened, TreeOf, FileSeen, Writable, Lacks;
    OpenedFacts(fs.g, fs.Now(), t, op.path, file.directoryCluster, file.entryIndex, file.firstCluster, b);
    ReadyMeans(fs.g, fs.Now(), t, file.directoryCluster, file.entryIndex, file.firstCluster, file.size, 0);
    file.position := op.position;
    var bytesWritten;
    r, bytesWritten, t', x := Write(fs, file, op.data, t, 0, b);
  }

  /** The tree that goes with such an outcome. */
  ghost function Settled(w: View, t: Tree, x: nat): Tree {
    if x in t.chains && x != 0 then Disowned(w, t, x) else t
  }

  /** The failing cases. */
  lemma WriteFails(g: Geometry, v: View, t: Tree, w: View, t': Tree, op: Op, d: nat, i: nat, h: nat, h': nat, size: nat, x: nat,
                   b: seq<byte>)
    requires op.WriteAt? && Opened(g, v, t, op.path, d, i, h, b) && WriteFailed(g, v, t, w, t', h, 0, h', x, b)
    requires Writable(g, w, t', d, i, h', size, x) && |op.data| > 0 && Sensible(op.position, |b|, |op.data|) && g.Valid()
    requires Lacks(g, |ChainAt(t, h)|, op.position + |op.data|) > FreeCount(v.fat)
    ensures StepFailed(g, v, t, w, Settled(w, t', x), op)
  {
    hide AllSlots, Good, SlotIs, Shows, WellFormed, FreeCount, Opened, TreeOf, FileSeen, Strands, OthersKept, Working, Lacks,
         IsChain;
    OpenedFacts(g, v, t, op.path, d, i, h, b);
    OpenedStatus(g, v, t, op, d, i, h, b);
    HeadChain(g, v, t, d, i, h, |b|);
    if x != 0 {
      StrandedSame(g, v, t, w, t', x);
    } else if h != 0 {
      GrownSame(g, v, t, w, t', op.path, d, i, h, b);
      ReadyMeans(g, w, t', d, i, h', size, 0);
    }
  }

  lemma HeadChain(g: Geometry, v: View, t: Tree, d: nat, i: nat, h: nat, size: nat)
    requires WellFormed(g, v, t) && SlotIs(g, v, t, d, i, h, size)
    ensures ChainAt(t, h) == [] <==> h == 0
  {
    hide AllSlots, SlotIs, Safe, Housed, Accounted;
    ReadyMeans(g, v, t, d, i, h, size, 0);
    WritableFacts(g, v, t, d, i, h, size, 0);
  }

  lemma WriteStep(g: Geometry, v: View, t: Tree, w: View, t': Tree, op: Op, d: nat, i: nat, h: nat, h': nat, size: nat, x: nat,
                  b: seq<byte>, r: Status)
    requires op.WriteAt? && Opened(g, v, t, op.path, d, i, h, b)
    requires WriteResult(g, v, t, w, t', op, d, i, h, h', size, x, b, r)
    ensures r == StepStatus(g, v, t, op)
    ensures r == Ok ==> StepOk(g, v, t, w, Settled(w, t', x), op, 0)
    ensures r != Ok ==> StepFailed(g, v, t, w, Settled(w, t', x), op)
  {
    hide Good, SlotIs, WriteDone, WriteFailed, FreeCount, Spliced, Opened, StepOk, StepFailed, StepStatus, Strands, Working, Lacks;
    OpenedFacts(g, v, t, op.path, d, i, h, b);
    OpenedStatus(g, v, t, op, d, i, h, b);
    if r != Ok {
      if Sensible(op.position, |b|, |op.data|) {
        WriteFails(g, v, t, w, t', op, d, i, h, h', size, x, b);
      } else {
        Unmoved(g, v, t, op);
      }
    } else if |op.data| > 0 {
      WriteYields(g, v, t, w, t', op, d, i, h, h', b);
      YieldsOk(g, v, t, w, t', op, 0);
    } else {
      WriteNothing(g, v, t, op, d, i, h, b);
      YieldsOk(g, v, t, v, t, op, 0);
    }
  }

  lemma WriteHandles(g: Geometry, v: View, t: Tree, w: View, t': Tree, op: Op, d: nat, i: nat, h: nat, h': nat, size: nat, x: nat,
                     b: seq<byte>, r: Status)
    requires op.WriteAt? && Opened(g, v, t, op.path, d, i, h, b)
    requires WriteResult(g, v, t, w, t', op, d, i, h, h', size, x, b, r)
    ensures HandlesKept(g, v, t, w, Settled(w, t', x), op)
  {
    hide HandlesKept, Good, SlotIs, WellFormed, OnlyFile, OthersKept, FreeCount, Spliced, Opened, Working, Lacks, LeadsTo, Shows,
         TreeOf, Orphaned;
    OpenedFacts(g, v, t, op.path, d, i, h, b);
    HandlesSame(g, v, t, op);
    ReadyMeans(g, w, t', d, i, h', size, x);
    ReadyMeans(g, w, t', d, i, h', size, 0);
    if r == Ok && |op.data| > 0 {
      FileHandles(g, v, t, w, t', op, d, i, h', size);
    } else if r != Ok && Sensible(op.position, |b|, |op.data|) && h' != 0 {
      if x != 0 {
        StrandedNew(g, v, t, w, t', x);
      }
      FailedHandles(g, v, t, w, t', op, d, i, h, h', x, |b|);
    }
  }

  method DoWrite(fs: Volume, op: Op, ghost t: Tree) returns (r: Status, ghost t': Tree)
    requires fs.Ready() && Good(fs.g, fs.Now(), t) && op.WriteAt? && Ordinary(op)
    modifies fs`journal, fs.device, fs.sectorBuffer
    ensures fs.Ready() && AllConsistent(fs.g, old(fs.journal), fs.journal)
    ensures r == StepStatus(fs.g, old(fs.Now()), t, op)
    ensures r == Ok ==> StepOk(fs.g, old(fs.Now()), t, fs.Now(), t', op, 0)
    ensures r != Ok ==> StepFailed(fs.g, old(fs.Now()), t, fs.Now(), t', op)
    ensures HandlesKept(fs.g, old(fs.Now()), t, fs.Now(), t', op)
  {
    hide Kept, ViewOf, HandlesKept, Good, StepStatus, StepFailed, StepOk, Opened, Consistent, WriteResult, Settled;
    t' := t;
    NothingHappened(fs.g, fs.journal);
    var file := new FileHandle();
    ghost var b;
    HandlesSame(fs.g, fs.Now(), t, op);
    r, b := OpenFor(fs, op, file, t);
    if r != Ok {
      return;
    }
    ghost var v, d, i, h := fs.Now(), file.directoryCluster, file.entryIndex, file.firstCluster;
    ghost var x;
    r, t', x := WriteThrough(fs, op, file, t, b);
    WriteStep(fs.g, v, t, fs.Now(), t', op, d, i, h, file.firstCluster, file.size, x, b, r);
    WriteHandles(fs.g, v, t, fs.Now(), t', op, d, i, h, file.firstCluster, file.size, x, b, r);
    t' := Settled(fs.Now(), t', x);
  }

  lemma CutStatus(g: Geometry, v: View, t: Tree, op: Op, d: nat, i: nat, h: nat, b: seq<byte>)
    requires op.CutTo? && Opened(g, v, t, op.path, d, i, h, b)
    ensures g.Valid() && Good(g, v, t)
    ensures StepStatus(g, v, t, op) == if op.size > |b| then Error else Ok
    ensures Calm(g, TreeOf(g, v, t), op) <==> (0 < op.size < |b| ==> |b| <= RoomKept(g, op.size))
  {
    hide AllSlots, Shape, Good, TreeOf, FileSeen, SlotIs, Shows, Opened, Bind, RoomKept, ChainSeen;
    OpenedFacts(g, v, t, op.path, d, i, h, b);
  }

  lemma CutSame(a: Model, root: nat, path: Text, size: nat)
    requires var q := FileSeen(a, root, path);
             q.SeenName? && size == |a[q.dir][q.name].bytes|
    ensures CutEffect(a, root, path, size) == Yield(a)
  {
    hide FileSeen, Bind;
    var q := FileSeen(a, root, path);
    var b := a[q.dir][q.name].bytes;
    assert b[..|b|] == b;
    BindSame(a, q.dir, q.name, File(b));
  }

  lemma CutNothing(g: Geometry, v: View, t: Tree, op: Op, d: nat, i: nat, h: nat, b: seq<byte>)
    requires op.CutTo? && op.size == |b| && Opened(g, v, t, op.path, d, i, h, b)
    ensures StepYields(g, v, t, v, t, op, 0)
  {
    hide AllSlots, Shape, Good, TreeOf, FileSeen, SlotIs, Shows, Opened, CutEffect;
    OpenedFacts(g, v, t, op.path, d, i, h, b);
    CutSame(TreeOf(g, v, t), g.rootCluster, op.path, op.size);
  }

  lemma CutYields(g: Geometry, v: View, t: Tree, w: View, t': Tree, op: Op, d: nat, i: nat, h: nat, b: seq<byte>)
    requires op.CutTo? && 0 < op.size < |b| && Opened(g, v, t, op.path, d, i, h, b)
    requires SlotIs(g, w, t', d, i, h, op.size) && TruncateDone(g, v, t, w, t', d, i, h, op.size, b)
    ensures StepYields(g, v, t, w, t', op, 0)
  {
    hide AllSlots, Shape, SoundIn, SizedIn, HousedIn, Accounted, AllMapLike, Unlabelled, ModelOf, FileSeen, Shows, OnlyFile,
         SlotIs, Quot, Bind, ChainSeen;
    FileRefines(g, v, t, w, t', d, i, h, b[..op.size]);
    OnlyFileOther(g, v, t, w, t', d, i, h);
  }

  /** What a truncation through an open handle comes to. */
  ghost predicate CutResult(g: Geometry, v: View, t: Tree, w: View, t': Tree, op: Op, d: nat, i: nat, h: nat, b: seq<byte>,
                            r: Status)
  {
    && op.CutTo? && r == (if op.size > |b| then Error else Ok)
    && (op.size >= |b| ==> w == v && t' == t)
    && (op.size < |b| ==> 0 < op.size && SlotIs(g, w, t', d, i, h, op.size) && TruncateDone(g, v, t, w, t', d, i, h, op.size, b))
  }

  method CutThrough(fs: Volume, op: Op, file: FileHandle, ghost t: Tree, ghost b: seq<byte>) returns (r: Status, ghost t': Tree)
    requires fs.Ready() && op.CutTo? && Ordinary(op) && OpenedAs(fs.g, fs.Now(), t, op.path, file, b)
    modifies fs`journal, fs.device, fs.sectorBuffer, file
    ensures fs.Ready() && AllSound(fs.g, old(fs.journal), fs.journal)
    ensures AllConsistent(fs.g, old(fs.journal), fs.journal) <==> (0 < op.size < |b| ==> |b| <= RoomKept(fs.g, op.size))
    ensures CutResult(fs.g, old(fs.Now()), t, fs.Now(), t', op, old(file.directoryCluster), old(file.entryIndex),
                      old(file.firstCluster), b, r)
  {
    hide Kept, ViewOf, AllSlots, Shape, Good, WellFormed, Coherent, SlotIs, Shows, TruncateDone, ZeroDone, Opened, TreeOf, FileSeen,
         RoomKept, AllConsistent, AllSound;
    NothingHappened(fs.g, fs.journal);
    OpenedFacts(fs.g, fs.Now(), t, op.path, file.directoryCluster, file.entryIndex, file.firstCluster, b);
    r, t' := Truncate(fs, file, op.size, t, b);
  }

  lemma CutStep(g: Geometry, v: View, t: Tree, w: View, t': Tree, op: Op, d: nat, i: nat, h: nat, b: seq<byte>, r: Status)
    requires op.CutTo? && Opened(g, v, t, op.path, d, i, h, b) && CutResult(g, v, t, w, t', op, d, i, h, b, r)
    ensures r == StepStatus(g, v, t, op)
    ensures r == Ok ==> StepOk(g, v, t, w, t', op, 0)
    ensures r != Ok ==> StepFailed(g, v, t, w, t', op)
  {
    hide Good, SlotIs, TruncateDone, Opened, StepOk, StepFailed, StepStatus;
    CutStatus(g, v, t, op, d, i, h, b);
    if r != Ok {
      Unmoved(g, v, t, op);
    } else if op.size == |b| {
      CutNothing(g, v, t, op, d, i, h, b);
      YieldsOk(g, v, t, v, t, op, 0);
    } else {
      CutYields(g, v, t, w, t', op, d, i, h, b);
      YieldsOk(g, v, t, w, t', op, 0);
    }
  }

  lemma CutHandles(g: Geometry, v: View, t: Tree, w: View, t': Tree, op: Op, d: nat, i: nat, h: nat, b: seq<byte>, r: Status)
    requires op.CutTo? && Opened(g, v, t, op.path, d, i, h, b) && CutResult(g, v, t, w, t', op, d, i, h, b, r)
    ensures HandlesKept(g, v, t, w, t', op)
  {
    hide HandlesKept, Good, SlotIs, WellFormed, OnlyFile, Opened, LeadsTo, Shows, TreeOf, Quot;
    OpenedFacts(g, v, t, op.path, d, i, h, b);
    HandlesSame(g, v, t, op);
    if op.size < |b| {
      FileHandles(g, v, t, w, t', op, d, i, h, op.size);
    }
  }

  method DoCut(fs: Volume, op: Op, ghost t: Tree) returns (r: Status, ghost t': Tree)
    requires fs.Ready() && Good(fs.g, fs.Now(), t) && op.CutTo? && Ordinary(op)
    modifies fs`journal, fs.device, fs.sectorBuffer
    ensures fs.Ready() && AllSound(fs.g, old(fs.journal), fs.journal)
    ensures AllConsistent(fs.g, old(fs.journal), fs.journal) <==> Calm(fs.g, TreeOf(fs.g, old(fs.Now()), t), op)
    ensures r == StepStatus(fs.g, old(fs.Now()), t, op)
    ensures r == Ok ==> StepOk(fs.g, old(fs.Now()), t, fs.Now(), t', op, 0)
    ensures r != Ok ==> StepFailed(fs.g, old(fs.Now()), t, fs.Now(), t', op)
    ensures HandlesKept(fs.g, old(fs.Now()), t, fs.Now(), t', op)
  {
    hide Kept, ViewOf, HandlesKept, Good, StepStatus, StepFailed, StepOk, Opened, Coherent, CutResult, Calm, TreeOf, AllConsistent, AllSound,
         RoomKept;
    t' := t;
    NothingHappened(fs.g, fs.journal);
    var file := new FileHandle();
    ghost var b;
    HandlesSame(fs.g, fs.Now(), t, op);
    r, b := OpenFor(fs, op, file, t);
    if r != Ok {
      return;
    }
    ghost var v, d, i, h := fs.Now(), file.directoryCluster, file.entryIndex, file.firstCluster;
    CutStatus(fs.g, v, t, op, d, i, h, b);
    r, t' := CutThrough(fs, op, file, t, b);
    CutStep(fs.g, v, t, fs.Now(), t', op, d, i, h, b, r);
    CutHandles(fs.g, v, t, fs.Now(), t', op, d, i, h, b, r);
  }

  // ---------------------------------------------------------------- runs

  /** One operation: it returns exactly what its effect on the tree of names and the room on the volume say; if OK the
      tree is that effect, otherwise it is what it was. Every boundary on the way is sound, and all are consistent if and
      only if the operation is calm. */
  method Step(fs: Volume, op: Op, ghost t: Tree) returns (r: Status, ghost t': Tree, ghost c: nat)
    requires fs.Ready() && Good(fs.g, fs.Now(), t) && Ordinary(op)
    modifies fs`journal, fs.device, fs.sectorBuffer
    ensures fs.Ready() && AllSound(fs.g, old(fs.journal), fs.journal)
    ensures AllConsistent(fs.g, old(fs.journal), fs.journal) <==> Calm(fs.g, TreeOf(fs.g, old(fs.Now()), t), op)
    ensures r == StepStatus(fs.g, old(fs.Now()), t, op)
    ensures r == Ok ==> StepOk(fs.g, old(fs.Now()), t, fs.Now(), t', op, c)
    ensures r != Ok ==> StepFailed(fs.g, old(fs.Now()), t, fs.Now(), t', op)
    ensures HandlesKept(fs.g, old(fs.Now()), t, fs.Now(), t', op)
  {
    hide Kept, ViewOf, HandlesKept, Good, StepStatus, StepFailed, StepOk, Consistent, Coherent, Ordinary, AllConsistent, AllSound, TreeOf,
         FileSeen, RoomKept;
    ghost var j := fs.journal;
    t', c := t, 0;
    match op {
      case Create(_) =>
        r := DoCreate(fs, op, t);
      case MakeDirectory(_) =>
        r, t', c := DoMkdir(fs, op, t);
      case Remove(_) =>
        r, t' := DoRemove(fs, op, t);
      case RemoveDirectory(_) =>
        r, t' := DoRmdir(fs, op, t);
      case Rename(_, _) =>
        r, t' := DoRename(fs, op, t);
      case WriteAt(_, _, _) =>
        r, t' := DoWrite(fs, op, t);
      case CutTo(_, _) =>
        r, t' := DoCut(fs, op, t);
        return;
    }
    ConsistentIsCoherent(fs.g, j, fs.journal);
  }

  /** a turns into b by the operation; a new directory gets an identity not in use. */
  ghost predicate Turns(a: Model, root: nat, op: Op, c: nat, b: Model) {
    Done(a, root, op, c) == Yield(b) && (op.MakeDirectory? && NameBound(op) ==> c !in a)
  }

  /** One operation of a run, in terms of the tree alone: it does what the code makes of it, or it is refused and does
      nothing. Only an operation that needs room may be refused although the tree allows it. */
  ghost predicate Answered(a: Model, root: nat, op: Op, r: Status, b: Model) {
    if r == Ok then exists c: nat :: Turns(a, root, op, c, b)
    else
      && b == a
      && (Effect(a, root, op, 0) == Refuse(r)
          || (r == Error && Effect(a, root, op, 0).Yield? && !op.Remove? && !op.RemoveDirectory? && !op.CutTo?))
  }

  /** A volume in the course of a run. */
  datatype State = State(view: View, tree: Tree)

  /** One operation of a run: the exact status, and what goes with it. */
  ghost predicate Stepped(g: Geometry, a: State, op: Op, r: Status, b: State) {
    && Good(g, a.view, a.tree) && Good(g, b.view, b.tree) && r == StepStatus(g, a.view, a.tree, op)
    && HandlesKept(g, a.view, a.tree, b.view, b.tree, op)
    && if r == Ok then exists c: nat :: StepOk(g, a.view, a.tree, b.view, b.tree, op, c)
       else StepFailed(g, a.view, a.tree, b.view, b.tree, op)
  }

  /** In terms of the tree alone. */
  lemma StepAnswers(g: Geometry, a: State, op: Op, r: Status, b: State)
    requires Stepped(g, a, op, r, b)
    ensures Answered(TreeOf(g, a.view, a.tree), g.rootCluster, op, r, TreeOf(g, b.view, b.tree))
  {
    hide HandlesKept, Good, TreeOf, Effect, Done, NoSlot, NoClusters, Full, HeadSeen, ChainSeen, NameBound, StepKeeps;
    if r == Ok {
      var c: nat :| StepOk(g, a.view, a.tree, b.view, b.tree, op, c);
      assert Turns(TreeOf(g, a.view, a.tree), g.rootCluster, op, c, TreeOf(g, b.view, b.tree));
    }
  }

  /** What is foreign stays so; and nothing becomes foreign if and only if the operation leaks nothing. */
  lemma StepForeign(g: Geometry, a: State, op: Op, r: Status, b: State)
    requires Stepped(g, a, op, r, b)
    ensures ForeignKept(a.tree, b.tree)
    ensures b.tree.other == a.tree.other <==> !Leaks(g, a.view, a.tree, op)
  {
    hide HandlesKept, AllSlots, AllMapLike, Unlabelled, TreeOf, Leaks, Done, StepStatus, ForeignKept, Safe, Housed, Accounted;
    assert StepKeeps(g, a.view, a.tree, b.view, b.tree, op);
    assert WellFormed(g, b.view, b.tree);
  }

  lemma AllSoundCompose(g: Geometry, a: seq<View>, b: seq<View>, c: seq<View>)
    requires AllSound(g, a, b) && AllSound(g, b, c)
    ensures AllSound(g, a, c)
    ensures AllConsistent(g, a, c) <==> AllConsistent(g, a, b) && AllConsistent(g, b, c)
  {
    hide Coherent, Consistent;
    forall i | |a| <= i < |b| ensures b[i] == c[i] {
    }
  }

  /** The first operations of a run were answered so, and led through these states. */
  ghost predicate RunSoFar(g: Geometry, ops: seq<Op>, results: seq<Status>, states: seq<State>) {
    && |results| <= |ops| && |states| == |results| + 1
    && forall k | 0 <= k < |results| :: Stepped(g, states[k], ops[k], results[k], states[k + 1])
  }

  /** The tree before the k-th operation of a run answers for it. */
  lemma RunAnswers(g: Geometry, ops: seq<Op>, results: seq<Status>, states: seq<State>, k: nat)
    requires RunSoFar(g, ops, results, states) && k < |results|
    ensures var a, b := states[k], states[k + 1];
            && Good(g, a.view, a.tree) && Good(g, b.view, b.tree)
            && Answered(TreeOf(g, a.view, a.tree), g.rootCluster, ops[k], results[k], TreeOf(g, b.view, b.tree))
  {
    hide HandlesKept, Good, TreeOf, Answered, StepOk, StepFailed, StepStatus;
    assert Stepped(g, states[k], ops[k], results[k], states[k + 1]);
    StepAnswers(g, states[k], ops[k], results[k], states[k + 1]);
  }

  /** An open file that none of the operations of a run is about stays good all along, and reads as before. */
  lemma {:induction false} RunHandles(g: Geometry, ops: seq<Op>, results: seq<Status>, states: seq<State>, n: nat,
                                      d: nat, i: nat, h: nat, size: nat, b: seq<byte>)
    requires RunSoFar(g, ops, results, states) && n <= |results| && Stands(g, states[0].view, states[0].tree, d, i, h, size, b)
    requires forall k | 0 <= k < n :: !AtPath(g, states[k].view, states[k].tree, ops[k], d, i)
    ensures Stands(g, states[n].view, states[n].tree, d, i, h, size, b)
  {
    hide Stands, AtPath, Good, StepOk, StepFailed, StepStatus;
    if n > 0 {
      RunHandles(g, ops, results, states, n - 1, d, i, h, size, b);
      assert Stepped(g, states[n - 1], ops[n - 1], results[n - 1], states[n - 1 + 1]);
    }
  }

  lemma {:induction false} RunForeign(g: Geometry, ops: seq<Op>, results: seq<Status>, states: seq<State>, n: nat)
    requires RunSoFar(g, ops, results, states) && n <= |results|
    ensures ForeignKept(states[0].tree, states[n].tree)
  {
    hide ForeignKept, Stepped, Leaks, Good;
    if n > 0 {
      RunForeign(g, ops, results, states, n - 1);
      assert Stepped(g, states[n - 1], ops[n - 1], results[n - 1], states[n - 1 + 1]);
      StepForeign(g, states[n - 1], ops[n - 1], results[n - 1], states[n]);
      ForeignTwice(states[0].tree, states[n - 1].tree, states[n].tree);
    } else {
      ForeignSelf(states[0].tree);
    }
  }

  /** A handle that a failed write has left with a first cluster x of its own survives a run of operations on other entries,
      for which its chain is foreign: it can be written again, from that cluster on. */
  lemma RunResumes(g: Geometry, ops: seq<Op>, results: seq<Status>, states: seq<State>, n: nat, v: View, t: Tree,
                   d: nat, i: nat, x: nat)
    requires RunSoFar(g, ops, results, states) && n <= |results| && Writable(g, v, t, d, i, x, 0, x) && x in t.chains && x != 0
    requires states[0] == State(v, Disowned(v, t, x)) && WellFormed(g, states[n].view, states[n].tree)
    requires forall k | 0 <= k < n :: !AtPath(g, states[k].view, states[k].tree, ops[k], d, i)
    ensures var w, t' := states[n].view, Adopted(states[n].tree, x, t.chains[x]);
            Writable(g, w, t', d, i, x, 0, x) && Shows(g, w, ChainAt(t', x), 0, [])
  {
    hide AtPath, Stands, Stepped, Writable, WellFormed, ForeignKept, Disowned, Adopted, Shows;
    StrandedStands(g, v, t, d, i, x);
    RunHandles(g, ops, results, states, n, d, i, 0, 0, []);
    RunForeign(g, ops, results, states, n);
    AdoptedReady(g, v, t, d, i, x, states[n].view, states[n].tree);
  }

  ghost predicate CalmAt(g: Geometry, a: State, op: Op) {
    g.Valid() && Good(g, a.view, a.tree) && Calm(g, TreeOf(g, a.view, a.tree), op)
  }

  ghost predicate LeaksAt(g: Geometry, a: State, op: Op) {
    Good(g, a.view, a.tree) && Leaks(g, a.view, a.tree, op)
  }

  /** Each of the first n operations is calm in the tree it finds. */
  ghost predicate AllCalm(g: Geometry, ops: seq<Op>, states: seq<State>, n: nat) {
    n <= |ops| && n <= |states| && forall k | 0 <= k < n :: CalmAt(g, states[k], ops[k])
  }

  /** None of them leaks clusters. */
  ghost predicate NoLeaks(g: Geometry, ops: seq<Op>, states: seq<State>, n: nat) {
    n <= |ops| && n <= |states| && forall k | 0 <= k < n :: !LeaksAt(g, states[k], ops[k])
  }

  lemma RunOn(g: Geometry, ops: seq<Op>, results: seq<Status>, states: seq<State>, r: Status, b: State)
    requires RunSoFar(g, ops, results, states) && |results| < |ops|
    requires Stepped(g, states[|results|], ops[|results|], r, b)
    ensures RunSoFar(g, ops, results + [r], states + [b])
    ensures AllCalm(g, ops, states + [b], |results| + 1) <==>
              AllCalm(g, ops, states, |results|) && CalmAt(g, states[|results|], ops[|results|])
    ensures NoLeaks(g, ops, states + [b], |results| + 1) <==>
              NoLeaks(g, ops, states, |results|) && !LeaksAt(g, states[|results|], ops[|results|])
  {
    hide Stepped, CalmAt, LeaksAt;
    var n := |results|;
    assert forall k | 0 <= k < n :: (results + [r])[k] == results[k];
    assert forall k | 0 <= k <= n :: (states + [b])[k] == states[k];
    assert (results + [r])[n] == r && (states + [b])[n + 1] == b;
  }

  /** One more operation of a run. */
  lemma RunStep(g: Geometry, a: State, op: Op, r: Status, b: State, c: nat)
    requires g.Valid() && Good(g, a.view, a.tree) && r == StepStatus(g, a.view, a.tree, op)
    requires r == Ok ==> StepOk(g, a.view, a.tree, b.view, b.tree, op, c)
    requires r != Ok ==> StepFailed(g, a.view, a.tree, b.view, b.tree, op)
    requires HandlesKept(g, a.view, a.tree, b.view, b.tree, op)
    ensures Stepped(g, a, op, r, b) && Good(g, b.view, b.tree)
    ensures CalmAt(g, a, op) <==> Calm(g, TreeOf(g, a.view, a.tree), op)
    ensures ForeignKept(a.tree, b.tree) && (b.tree.other == a.tree.other <==> !LeaksAt(g, a, op))
  {
    hide HandlesKept, Good, TreeOf, Leaks, Done, StepStatus, ForeignKept, WellFormed, Calm;
    StepForeign(g, a, op, r, b);
  }

  /** A whole run. Whatever the operations return, each returns and does exactly what Step says in the state it finds; the
      volume stays good, and what is foreign stays so. In the end no cluster more is foreign, in whatever tree fits the
      volume, if and only if no operation leaks clusters. No block boundary anywhere in the run shows a live entry that
      reaches a cluster not its own; and none shows one whose size does not fit its chain if and only if every operation is
      calm in the tree it finds. */
  method Run(fs: Volume, ops: seq<Op>, ghost t: Tree) returns (results: seq<Status>, ghost t': Tree, ghost states: seq<State>)
    requires fs.Ready() && Good(fs.g, fs.Now(), t) && forall op | op in ops :: Ordinary(op)
    modifies fs`journal, fs.device, fs.sectorBuffer
    ensures fs.Ready() && AllSound(fs.g, old(fs.journal), fs.journal) && Good(fs.g, fs.Now(), t')
    ensures |results| == |ops| && RunSoFar(fs.g, ops, results, states)
    ensures states[0] == State(old(fs.Now()), t) && states[|ops|] == State(fs.Now(), t')
    ensures ForeignKept(t, t') && (t'.other == t.other <==> NoLeaks(fs.g, ops, states, |ops|))
    ensures (exists tb :: WellFormed(fs.g, fs.Now(), tb) && tb.other == t.other) <==> NoLeaks(fs.g, ops, states, |ops|)
    ensures AllConsistent(fs.g, old(fs.journal), fs.journal) <==> AllCalm(fs.g, ops, states, |ops|)
  {
    hide Kept, ViewOf, HandlesKept, Good, StepStatus, StepFailed, StepOk, Coherent, Ordinary, AllConsistent, AllSound, TreeOf, Stepped, Calm,
         AllCalm, NoLeaks, CalmAt, LeaksAt, ForeignKept, WellFormed;
    ghost var j := fs.journal;
    NothingHappened(fs.g, j);
    results, t', states := [], t, [State(fs.Now(), t)];
    NoneYet(fs.g, ops, states, t);
    while |results| < |ops|
      invariant RunSoFar(fs.g, ops, results, states) && states[0] == State(old(fs.Now()), t)
      invariant fs.Ready() && AllSound(fs.g, j, fs.journal) && Good(fs.g, fs.Now(), t')
      invariant states[|results|] == State(fs.Now(), t')
      invariant ForeignKept(t, t') && (t'.other == t.other <==> NoLeaks(fs.g, ops, states, |results|))
      invariant AllConsistent(fs.g, j, fs.journal) <==> AllCalm(fs.g, ops, states, |results|)
    {
      ghost var a, c, j0 := State(fs.Now(), t'), 0, fs.journal;
      var op, r := ops[|results|], Ok;
      r, t', c := Step(fs, op, a.tree);
      AllSoundCompose(fs.g, j, j0, fs.journal);
      RunStep(fs.g, a, op, r, State(fs.Now(), t'), c);
      ForeignTwice(t, a.tree, t');
      RunOn(fs.g, ops, results, states, r, State(fs.Now(), t'));
      results, states := results + [r], states + [State(fs.Now(), t')];
    }
    OneForeign(fs.g, fs.Now(), t', t);
  }

  lemma OneForeign(g: Geometry, v: View, t': Tree, t: Tree)
    requires Good(g, v, t')
    ensures (exists tb :: WellFormed(g, v, tb) && tb.other == t.other) <==> t'.other == t.other
  {
    hide WellFormed, AllSlots, AllMapLike, Unlabelled;
    assert WellFormed(g, v, t');
    forall tb | WellFormed(g, v, tb) ensures tb.other == t'.other {
      TreeDetermined(g, v, t', tb);
    }
  }

  lemma NoneYet(g: Geometry, ops: seq<Op>, states: seq<State>, t: Tree)
    ensures AllCalm(g, ops, states, 0) && NoLeaks(g, ops, states, 0) && ForeignKept(t, t)
  {
  }
}
