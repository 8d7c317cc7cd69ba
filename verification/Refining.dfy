/** Each operation on the volume is that operation on the tree of named byte strings. */
module Refining {
  import opened Bytes
  import opened Geometry
  import opened Volumes
  import opened Contents
  import opened FileRead
  import opened Slots
  import opened Names83
  import opened Trees
  import opened TreeSteps
  import opened TreeNames
  import opened FileWrite
  import opened Paths
  import opened Resolving
  import opened NameMaps
  import opened EmptyDirs
  import opened Plans
  import opened Creating
  import opened MakingDirs
  import opened Removing
  import opened Renaming
  import opened Directories
  import opened FileTree
  import opened TreeSpec
  import opened TreeSight

  // ---------------------------------------------------------------- create

  lemma EmptyNode(g: Geometry, v: View, t: Tree, s: Slot)
    requires !IsDirectory(s) && SizeOf(s) == 0
    ensures NodeOf(g, v, t, s) == File([])
  {
  }

  /** A created file is a name bound to the empty string. */
  lemma CreateRefines(g: Geometry, v: View, t: Tree, w: View, path: Text, d: nat, i: nat)
    requires Good(g, v, t) && GoesTo(g, v, t, path, d, i) && OrdinaryName(path) && Accepted(NameIn(path)) && WellFormed(g, w, t)
    requires OneSlot(g, v, t, w, t, d, i, NewEntry(path, ATTR_ARCHIVE, 0, 0))
    ensures Good(g, w, t)
    ensures CreateEffect(TreeOf(g, v, t), g.rootCluster, path) == Yield(TreeOf(g, w, t))
  {
    hide AllSlots, Shape, SoundIn, HousedIn, SizedIn, Accounted, AllMapLike, Unlabelled, ModelOf, NewPlace, NewName, NameIn,
         Encode, Accepted, NodeOf, Live, Put, ClusterOf, SizeOf, IsDirectory, OneSlot, ChainsStay, OnlyUser, WellFormed,
         Bindings;
    var s, root := NewEntry(path, ATTR_ARCHIVE, 0, 0), g.rootCluster;
    GoodFacts(g, v, t);
    OneSlotFacts(g, v, t, w, t, d, i, s);
    var m, m' := AllSlots(g, v, t), AllSlots(g, w, t);
    GoesToFacts(g, v, t, path, d, i);
    FirstFreeIsFree(m[d], i);
    NameInIsText(path);
    NewEntryLive(NameIn(path), ATTR_ARCHIVE, 0, 0);
    OneSlotRest(g, v, t, w, t, d, i, s);
    CreateAddsBinding(m, root, path, d, i);
    UnlabelledPut(g, m, d, i, s);
    FittedOf(g, w, t);
    AllStay(g, v, t, w, t, 0);
    NobodyUses(m, d, i);
    PutShape(m, d, i, s);
    MapLikeUnique(m, d);
    MapLikeUnique(m', d);
    ModelPut(g, v, t, w, t, 0, m, m', d, i, Encode(NameIn(path)), s);
    EmptyNode(g, w, t, s);
    NewSeen(g, v, t, m, root, path);
  }

  lemma FittedOf(g: Geometry, v: View, t: Tree)
    requires Shape(g, v, t)
    ensures Fitted(g, v)
  {
  }

  lemma PutShape(m: Dirs, d: nat, i: nat, s: Slot)
    requires d in m && i < |m[d]|
    ensures Put(m, d, i, s).Keys == m.Keys && Put(m, d, i, s)[d] == m[d][i := s]
    ensures forall e | e in m && e != d :: Put(m, d, i, s)[e] == m[e]
  {
  }

  // ---------------------------------------------------------------- mkdir

  lemma UnlabelledMade(g: Geometry, m: Dirs, d: nat, i: nat, s: Slot, c: nat, m': Dirs)
    requires Unlabelled(g, m) && d in m && i < |m[d]| && (IsFree(s) || Live(s))
    requires m'.Keys == m.Keys + {c} && m'[d] == m[d][i := s] && (forall e | e in m && e != d :: m'[e] == m[e]) && NoLabels(m'[c])
    ensures Unlabelled(g, m')
  {
    hide IsFree, Live, NoLabels;
    UnlabelledPut(g, m, d, i, s);
    assert forall e | e in m :: m'[e] == Put(m, d, i, s)[e];
  }

  lemma MadeFacts(g: Geometry, v: View, t: Tree, w: View, t': Tree, path: Text, d: nat, i: nat, c: nat)
    requires DirectoryMade(g, v, t, w, t', path, d, i, c)
    ensures Shape(g, w, t') && Accepted(NameIn(path)) && c < U32 && c !in t.chains && d in t.dirs
    ensures t'.chains == t.chains[c := [c]] && t'.other == t.other
    ensures forall k | k in t.chains && k !in t.dirs :: SameBytes(g, v, w, t.chains[k])
  {
    hide Shape, AllSlots, FreshDir, SameBytes, Accepted;
  }

  lemma MadeSlots(g: Geometry, v: View, t: Tree, w: View, t': Tree, path: Text, d: nat, i: nat, c: nat)
    requires DirectoryMade(g, v, t, w, t', path, d, i, c)
    ensures Shape(g, v, t) && Shape(g, w, t') && Accepted(NameIn(path)) && c < U32 && d in t.dirs
    ensures var m, m' := AllSlots(g, v, t), AllSlots(g, w, t');
            && i < |m[d]| && m'.Keys == m.Keys + {c} && FreshDir(m'[c], c, d)
            && m'[d] == m[d][i := NewEntry(path, ATTR_DIRECTORY, c, 0)]
            && (forall e | e in m && e != d :: m'[e] == m[e])
  {
    hide Shape, AllSlots, FreshDir, SameBytes, Accepted;
  }

  lemma DirectoryNode(g: Geometry, v: View, t: Tree, s: Slot)
    requires IsDirectory(s)
    ensures NodeOf(g, v, t, s) == Directory(ClusterOf(s))
  {
  }

  /** A directory made is a name bound to a new empty directory. */
  lemma MkdirRefines(g: Geometry, v: View, t: Tree, w: View, t': Tree, path: Text, d: nat, i: nat, c: nat)
    requires Good(g, v, t) && GoesTo(g, v, t, path, d, i) && OrdinaryName(path) && WellFormed(g, w, t')
    requires DirectoryMade(g, v, t, w, t', path, d, i, c)
    ensures Good(g, w, t') && c !in TreeOf(g, v, t)
    ensures MakeEffect(TreeOf(g, v, t), g.rootCluster, path, c) == Yield(TreeOf(g, w, t'))
  {
    hide AllSlots, Shape, SoundIn, HousedIn, SizedIn, Accounted, AllMapLike, Unlabelled, ModelOf, NewPlace, NewName, NameIn,
         Encode, Accepted, NodeOf, Live, ClusterOf, SizeOf, IsDirectory, DirectoryMade, ChainsStay, WellFormed, Bindings,
         FreshDir, SameBytes, MapLike, NoLabels, NoLive, LooksEmpty, UniqueNames;
    var root := g.rootCluster;
    GoodFacts(g, v, t);
    MadeFacts(g, v, t, w, t', path, d, i, c);
    MadeSlots(g, v, t, w, t', path, d, i, c);
    var m, m' := AllSlots(g, v, t), AllSlots(g, w, t');
    var s := NewEntry(path, ATTR_DIRECTORY, c, 0);
    ShapeFacts(g, v, t);
    GoesToFacts(g, v, t, path, d, i);
    FirstFreeIsFree(m[d], i);
    NameInIsText(path);
    NewEntryLive(NameIn(path), ATTR_DIRECTORY, c, 0);
    MkdirAddsBinding(m, root, path, d, i, c, m');
    FreshDirFacts(m'[c], c, d);
    UnlabelledMade(g, m, d, i, s, c, m');
    FittedOf(g, w, t');
    ShapeFacts(g, w, t');
    AllStay(g, v, t, w, t', 0);
    MapLikeUnique(m, d);
    MapLikeUnique(m', d);
    MapLikeUnique(m', c);
    ModelMake(g, v, t, w, t', m, m', d, i, Encode(NameIn(path)), s, c);
    DirectoryNode(g, w, t', s);
    NewSeen(g, v, t, m, root, path);
  }

  // ---------------------------------------------------------------- remove and rmdir

  lemma GoneFacts(g: Geometry, v: View, t: Tree, w: View, t': Tree, d: nat, i: nat, h: nat)
    requires EntryGone(g, v, t, w, t', d, i, h)
    ensures Shape(g, v, t) && Shape(g, w, t') && t' == Without(t, h) && LiveIn(AllSlots(g, v, t), d, i)
    ensures ClusterOf(AllSlots(g, v, t)[d][i]) == h && AllSlots(g, w, t') == Cleared(AllSlots(g, v, t), d, i)
    ensures forall k | k in t'.chains && k !in t'.dirs :: SameBytes(g, v, w, t.chains[k])
  {
    hide Shape, AllSlots, SameBytes, Live, Put, ClusterOf, DeletedSlot;
  }

  lemma UnlabelledCleared(g: Geometry, m: Dirs, d: nat, i: nat)
    requires Unlabelled(g, m) && LiveIn(m, d, i)
    ensures Unlabelled(g, Cleared(m, d, i))
  {
    hide Live, NoLabels, ClusterOf, DeletedSlot;
    UnlabelledPut(g, m, d, i, DeletedSlot(m[d][i])) by { DeletedIsFree(m[d][i]); }
  }

  lemma DeletedIsFree(s: Slot)
    ensures IsFree(DeletedSlot(s))
  {
  }

  lemma NotItsOwnParent(t: Tree, m: Dirs, d: nat, i: nat)
    requires SoundIn(t, m) && LiveIn(m, d, i) && m.Keys == t.dirs.Keys && 0 !in t.dirs
    ensures Linked(t, d, m[d][i]) && d != ClusterOf(m[d][i])
  {
    hide TailUnused, DotsFirst, Live;
    assert Linked(t, d, m[d][i]);
  }

  lemma ClearedShape(m: Dirs, d: nat, i: nat)
    requires d in m && i < |m[d]| && d != ClusterOf(m[d][i])
    ensures Cleared(m, d, i).Keys == m.Keys - {ClusterOf(m[d][i])}
    ensures forall e | e in Cleared(m, d, i) && e != d :: Cleared(m, d, i)[e] == m[e]
  {
    hide DeletedSlot, ClusterOf;
  }

  /** Taking an entry away is unbinding a name, and forgetting the directory it stood for if it did. */
  lemma GoneRefines(g: Geometry, v: View, t: Tree, w: View, t': Tree, path: Text, d: nat, i: nat, h: nat)
    requires Good(g, v, t) && WellFormed(g, w, t') && EntryGone(g, v, t, w, t', d, i, h)
    requires OldPlace(AllSlots(g, v, t), g.rootCluster, path) == Place(d, i)
    ensures Good(g, w, t') && Accepted(NameIn(path)) && d in TreeOf(g, v, t)
    ensures TreeOf(g, w, t') == Unbind(TreeOf(g, v, t), d, Encode(NameIn(path))) - {h}
  {
    hide AllSlots, Shape, SoundIn, HousedIn, SizedIn, Accounted, AllMapLike, Unlabelled, ModelOf, OldPlace, NameIn, Encode,
         Accepted, NodeOf, Live, ClusterOf, EntryGone, ChainsStay, OnlyUser, WellFormed, Bindings, SameBytes, MapLike,
         UniqueNames, Cleared, Linked;
    GoodFacts(g, v, t);
    GoneFacts(g, v, t, w, t', d, i, h);
    var m, m' := AllSlots(g, v, t), AllSlots(g, w, t');
    NotItsOwnParent(t, m, d, i);
    RemoveDropsBinding(m, g.rootCluster, path, d, i);
    UnlabelledCleared(g, m, d, i);
    ClearedShape(m, d, i);
    FittedOf(g, w, t');
    ShapeFacts(g, w, t');
    AllStay(g, v, t, w, t', h);
    HomeIsOnlyUser(g, t, m, d, i);
    MapLikeUnique(m, d);
    MapLikeUnique(m', d);
    ModelDrop(g, v, t, w, t', h, m, m', d, i, Encode(NameIn(path)));
  }

  lemma RemoveRefines(g: Geometry, v: View, t: Tree, w: View, t': Tree, path: Text, d: nat, i: nat, h: nat)
    requires Good(g, v, t) && WellFormed(g, w, t') && EntryGone(g, v, t, w, t', d, i, h) && h !in t.dirs
    requires RemovePlace(AllSlots(g, v, t), g.rootCluster, path) == Place(d, i)
    ensures Good(g, w, t')
    ensures RemoveEffect(TreeOf(g, v, t), g.rootCluster, path) == Yield(TreeOf(g, w, t'))
  {
    hide AllSlots, Shape, SoundIn, HousedIn, SizedIn, Accounted, AllMapLike, Unlabelled, ModelOf, OldPlace, NameIn, Encode,
         Accepted, Live, ClusterOf, SizeOf, BytesOf, EntryGone, WellFormed, OldName, NameOf, IsDirectory;
    GoodFacts(g, v, t);
    GoneRefines(g, v, t, w, t', path, d, i, h);
    OldSeen(g, v, t, AllSlots(g, v, t), g.rootCluster, path);
    var a := TreeOf(g, v, t);
    assert h !in a;
    NothingDropped(Unbind(a, d, Encode(NameIn(path))), h);
  }

  lemma NothingDropped(a: Model, h: nat)
    requires h !in a
    ensures a - {h} == a
  {
  }

  lemma NoBindings(ss: seq<Slot>)
    requires MapLike(ss)
    ensures NoLive(ss) <==> Bindings(ss) == map[]
  {
    hide Live, NameOf;
    var b := Bindings(ss);
    assert forall i | 0 <= i < |ss| && Live(ss[i]) :: NameOf(ss[i]) in b;
    assert b == map[] <==> forall n :: n !in b;
  }

  /** In a good volume a subdirectory that looks empty is an empty map, and the other way round. */
  lemma EmptySeen(g: Geometry, v: View, t: Tree, h: nat)
    requires Good(g, v, t) && h in t.dirs && h != g.rootCluster
    ensures Shape(g, v, t) && h in TreeOf(g, v, t)
    ensures LooksEmpty(AllSlots(g, v, t)[h]) <==> NoLive(AllSlots(g, v, t)[h])
    ensures LooksEmpty(AllSlots(g, v, t)[h]) <==> TreeOf(g, v, t)[h] == map[]
  {
    hide AllSlots, Shape, SoundIn, HousedIn, SizedIn, Accounted, ModelOf, WellFormed, NodeOf, LooksEmpty, NoLive, NoLabels,
         Bindings, NamesOf, TailUnused, DotsFirst, LongFree, UniqueNames, PlainDots;
    GoodFacts(g, v, t);
    var m := AllSlots(g, v, t);
    MapLikeUnique(m, h);
    EmptyMeans(m[h]);
    NoBindings(m[h]);
    var ns := NamesOf(g, v, t, m[h]);
    assert TreeOf(g, v, t)[h] == ns;
    assert ns == map[] <==> Bindings(m[h]) == map[] by {
      assert ns.Keys == {} <==> Bindings(m[h]).Keys == {};
    }
  }

  lemma RemoveDirectoryRefines(g: Geometry, v: View, t: Tree, w: View, t': Tree, path: Text, d: nat, i: nat, h: nat)
    requires Good(g, v, t) && WellFormed(g, w, t') && EntryGone(g, v, t, w, t', d, i, h) && h in t.dirs
    requires RemoveDirectoryPlace(AllSlots(g, v, t), g.rootCluster, path) == Place(d, i)
    ensures Good(g, w, t')
    ensures RemoveDirectoryEffect(TreeOf(g, v, t), g.rootCluster, path) == Yield(TreeOf(g, w, t'))
  {
    hide AllSlots, Shape, SoundIn, HousedIn, SizedIn, Accounted, AllMapLike, Unlabelled, ModelOf, OldPlace, NameIn, Encode,
         Accepted, Live, SizeOf, BytesOf, EntryGone, WellFormed, OldName, NameOf, IsDirectory, LooksEmpty, NoLive, ClusterOf,
         Unbind, Put, DeletedSlot;
    GoodFacts(g, v, t);
    GoneFacts(g, v, t, w, t', d, i, h);
    NotRoot(g, t, AllSlots(g, v, t), d, i);
    GoneRefines(g, v, t, w, t', path, d, i, h);
    OldSeen(g, v, t, AllSlots(g, v, t), g.rootCluster, path);
    EmptySeen(g, v, t, h);
  }

  lemma NotRoot(g: Geometry, t: Tree, m: Dirs, d: nat, i: nat)
    requires SoundIn(t, m) && LiveIn(m, d, i) && HousedIn(g, t, m, 0) && g.rootCluster in t.dirs && 0 !in t.dirs
    ensures ClusterOf(m[d][i]) != g.rootCluster
  {
    hide TailUnused, DotsFirst, Live;
  }

  // ---------------------------------------------------------------- rename

  lemma MovedFacts(g: Geometry, v: View, t: Tree, w: View, t': Tree, to: Text, d0: nat, i0: nat, d: nat, i: nat)
    requires EntryMoved(g, v, t, w, t', to, d0, i0, d, i)
    ensures Shape(g, v, t) && Shape(g, w, t') && t'.chains == t.chains && t'.dirs == t.dirs && Accepted(NameIn(to))
    ensures t'.other == t.other
    ensures LiveIn(AllSlots(g, v, t), d0, i0) && d in t.dirs && i < |AllSlots(g, v, t)[d]|
    ensures AllSlots(g, w, t') == Moved(AllSlots(g, v, t), d0, i0, d, i, MovedEntry(to, AllSlots(g, v, t)[d0][i0]))
    ensures forall k | k in t.chains && k !in t.dirs :: SameBytes(g, v, w, t.chains[k])
  {
    hide Shape, AllSlots, SameBytes, Live, Moved, MovedEntry, Accepted;
  }

  lemma SoundInSame(t: Tree, t': Tree, m: Dirs)
    requires SoundIn(t, m) && t'.chains == t.chains && t'.dirs == t.dirs
    ensures SoundIn(t', m)
  {
    hide TailUnused, DotsFirst, Live;
  }

  lemma StaysItself(g: Geometry, v: View, t: Tree)
    requires Shape(g, v, t) && 0 !in t.chains
    ensures ChainsStay(g, v, t, v, t, 0)
  {
    hide AllSlots, ChainBytes;
    ShapeFacts(g, v, t);
    forall k | k in t.chains ensures SameBytes(g, v, v, t.chains[k]) {
      ChainPlaced(g, v, t.chains[k]);
    }
  }

  /** The entry written by a rename stands for what the old one stood for. */
  lemma MovedNode(g: Geometry, v: View, t: Tree, w: View, t': Tree, m: Dirs, d0: nat, i0: nat, s: Slot)
    requires SoundIn(t, m) && LiveIn(m, d0, i0) && !IsDirectory(m[d0][i0]) && ChainsStay(g, v, t, w, t', 0)
    requires !IsDirectory(s) && ClusterOf(s) == ClusterOf(m[d0][i0]) && SizeOf(s) == SizeOf(m[d0][i0])
    ensures NodeOf(g, w, t', s) == NodeOf(g, v, t, m[d0][i0])
  {
    hide TailUnused, DotsFirst, Live, ChainsStay, BytesOf, ClusterOf, SizeOf, IsDirectory;
    assert Linked(t, d0, m[d0][i0]);
    BytesStay(g, v, t, w, t', 0, ClusterOf(s), SizeOf(s));
  }

  /** The slots after the first of the two writes: map-like, with the new binding beside the old one. */
  lemma HalfRefines(g: Geometry, v: View, t: Tree, w: View, t': Tree, m: Dirs, to: Text, d0: nat, i0: nat, d: nat, i: nat, s: Slot)
    requires SoundIn(t, m) && SizedIn(g, t, m) && AllMapLike(m) && g.rootCluster in t.dirs && ChainsStay(g, v, t, w, t', 0)
    requires NewPlace(m, g.rootCluster, to) == Place(d, i) && LiveIn(m, d0, i0) && !IsDirectory(m[d0][i0])
    requires Accepted(NameIn(to)) && OrdinaryName(to) && s == MovedEntry(to, m[d0][i0])
    ensures AllMapLike(Put(m, d, i, s)) && SoundIn(t, Put(m, d, i, s)) && LiveIn(Put(m, d, i, s), d0, i0)
    ensures Put(m, d, i, s)[d0][i0] == m[d0][i0] && Live(s)
    ensures ModelOf(g, w, t', Put(m, d, i, s))
         == Bind(ModelOf(g, v, t, m), d, Encode(NameIn(to)), NodeOf(g, v, t, m[d0][i0]))
  {
    hide SoundIn, AllMapLike, ModelOf, NewPlace, NameIn, Encode, Accepted, NodeOf, Live, ClusterOf, SizeOf, IsDirectory,
         ChainsStay, OnlyUser, Bindings, MapLike, UniqueNames, MovedEntry, Put, FirstFree, NameOf, SizedIn;
    MovedEntryFacts(to, m[d0][i0]);
    PlainStart(s, to);
    FirstFreeIsFree(m[d], i);
    MovedHalf(g, t, m, d0, i0, d, i, s) by {
      assert Movable(t, m, d0, i0, d, i, s);
    }
    NewEntryAddsBinding(m, g.rootCluster, to, d, i, s);
    PutShape(m, d, i, s);
    MapLikeUnique(m, d);
    MapLikeUnique(Put(m, d, i, s), d);
    NobodyUses(m, d, i);
    ModelPut(g, v, t, w, t', 0, m, Put(m, d, i, s), d, i, Encode(NameIn(to)), s);
    MovedNode(g, v, t, w, t', m, d0, i0, s);
    LiveAfterPut(m, d, i, s, d0, i0);
  }

  /** Then the old entry is deleted. */
  lemma SecondHalf(g: Geometry, w: View, t: Tree, m: Dirs, d: nat, i: nat)
    requires SoundIn(t, m) && AllMapLike(m) && LiveIn(m, d, i) && ChainsStay(g, w, t, w, t, 0) && 0 !in m
    ensures AllMapLike(Put(m, d, i, DeletedSlot(m[d][i])))
    ensures ModelOf(g, w, t, Put(m, d, i, DeletedSlot(m[d][i]))) == Unbind(ModelOf(g, w, t, m), d, NameOf(m[d][i]))
  {
    hide SoundIn, AllMapLike, ModelOf, Live, ChainsStay, OnlyUser, Bindings, MapLike, UniqueNames, Put, NameOf, DeletedSlot;
    var m' := Put(m, d, i, DeletedSlot(m[d][i]));
    DeleteDropsBinding(m, d, i);
    PutShape(m, d, i, DeletedSlot(m[d][i]));
    MapLikeUnique(m, d);
    MapLikeUnique(m', d);
    NobodyUses(m, d, i);
    ModelDrop(g, w, t, w, t, 0, m, m', d, i, NameOf(m[d][i]));
    NothingDropped(Unbind(ModelOf(g, w, t, m), d, NameOf(m[d][i])), 0);
  }

  lemma UnlabelledMoved(g: Geometry, m: Dirs, d0: nat, i0: nat, d: nat, i: nat, s: Slot)
    requires Unlabelled(g, m) && d in m && i < |m[d]| && Live(s) && d0 in m && i0 < |m[d0]|
    ensures Unlabelled(g, Moved(m, d0, i0, d, i, s))
  {
    hide Live, NoLabels, DeletedSlot, IsFree, Unlabelled, Put;
    UnlabelledPut(g, m, d, i, s);
    DeletedIsFree(Put(m, d, i, s)[d0][i0]);
    UnlabelledPut(g, Put(m, d, i, s), d0, i0, DeletedSlot(Put(m, d, i, s)[d0][i0]));
  }

  /** The tree of names after both writes. */
  lemma MovedTree(g: Geometry, v: View, t: Tree, w: View, t': Tree, to: Text, d0: nat, i0: nat, d: nat, i: nat)
    requires Good(g, v, t) && WellFormed(g, w, t') && EntryMoved(g, v, t, w, t', to, d0, i0, d, i) && OrdinaryName(to)
    requires GoesTo(g, v, t, to, d, i) && !IsDirectory(AllSlots(g, v, t)[d0][i0])
    ensures Good(g, w, t') && d in TreeOf(g, v, t) && Accepted(NameIn(to)) && Shape(g, v, t) && d0 in t.dirs
    ensures TreeOf(g, w, t') == Unbind(Bind(TreeOf(g, v, t), d, Encode(NameIn(to)), NodeOf(g, v, t, AllSlots(g, v, t)[d0][i0])),
                                       d0, NameOf(AllSlots(g, v, t)[d0][i0]))
  {
    hide AllSlots, Shape, SoundIn, HousedIn, SizedIn, Accounted, AllMapLike, Unlabelled, ModelOf, NewPlace, NameIn, NodeOf,
         Encode, Accepted, Live, SizeOf, EntryMoved, WellFormed, NameOf, IsDirectory, ClusterOf, MovedEntry, ChainsStay, Put,
         DeletedSlot, Bind, Unbind;
    GoodFacts(g, v, t);
    MovedFacts(g, v, t, w, t', to, d0, i0, d, i);
    var m := AllSlots(g, v, t);
    var s := MovedEntry(to, m[d0][i0]);
    FittedOf(g, w, t');
    ShapeFacts(g, w, t');
    AllStay(g, v, t, w, t', 0);
    StaysItself(g, w, t');
    HalfRefines(g, v, t, w, t', m, to, d0, i0, d, i, s);
    SoundInSame(t, t', Put(m, d, i, s));
    SecondHalf(g, w, t', Put(m, d, i, s), d0, i0);
    UnlabelledMoved(g, m, d0, i0, d, i, s);
  }

  lemma RenameEffectIs(a: Model, root: nat, from: Text, to: Text)
    requires Split(from).Some? && Split(to).Some? && OldName(a, root, from).SeenName? && NewName(a, root, to).SeenName?
    requires var r := OldName(a, root, from); a[r.dir][r.name].File?
    ensures var r, q := OldName(a, root, from), NewName(a, root, to);
            RenameEffect(a, root, from, to) == Yield(Unbind(Bind(a, q.dir, q.name, a[r.dir][r.name]), r.dir, r.name))
  {
    hide OldName, NewName, Bind, Unbind, SplitInto;
  }

  lemma MoveFacts(m: Dirs, root: nat, from: Text, to: Text, d0: nat, i0: nat, d: nat, i: nat)
    requires RenameMove(m, root, from, to) == Move(Place(d0, i0), Place(d, i))
    ensures Split(from).Some? && Split(to).Some? && OldPlace(m, root, from) == Place(d0, i0) && NewPlace(m, root, to) == Place(d, i)
    ensures d0 in m && i0 < |m[d0]| && !IsDirectory(m[d0][i0])
  {
    hide OldPlace, NewPlace, IsDirectory, SplitInto;
  }

  /** A renamed file is a node bound to its new name and unbound from its old one. */
  lemma RenameRefines(g: Geometry, v: View, t: Tree, w: View, t': Tree, from: Text, to: Text, d0: nat, i0: nat, d: nat, i: nat)
    requires Good(g, v, t) && WellFormed(g, w, t') && EntryMoved(g, v, t, w, t', to, d0, i0, d, i) && OrdinaryName(to)
    requires RenameMove(AllSlots(g, v, t), g.rootCluster, from, to) == Move(Place(d0, i0), Place(d, i))
    ensures Good(g, w, t')
    ensures RenameEffect(TreeOf(g, v, t), g.rootCluster, from, to) == Yield(TreeOf(g, w, t'))
  {
    hide AllSlots, Shape, SoundIn, HousedIn, SizedIn, Accounted, AllMapLike, Unlabelled, ModelOf, OldPlace, NewPlace, NameIn,
         Encode, Accepted, Live, SizeOf, BytesOf, EntryMoved, WellFormed, OldName, NewName, NameOf, IsDirectory, ClusterOf,
         Bind, Unbind, Split, RenameMove, RenameEffect;
    GoodFacts(g, v, t);
    MoveFacts(AllSlots(g, v, t), g.rootCluster, from, to, d0, i0, d, i);
    MovedTree(g, v, t, w, t', to, d0, i0, d, i);
    OldSeen(g, v, t, AllSlots(g, v, t), g.rootCluster, from);
    NewSeen(g, v, t, AllSlots(g, v, t), g.rootCluster, to);
    RenameEffectIs(TreeOf(g, v, t), g.rootCluster, from, to);
  }

  // ---------------------------------------------------------------- write and truncate

  /** An opened file: its handle's entry is the name the path leads to, and its bytes are what that name stands for. */
  lemma OpenedSeen(g: Geometry, v: View, t: Tree, path: Text, d: nat, i: nat, h: nat, size: nat)
    requires Good(g, v, t) && SlotIs(g, v, t, d, i, h, size) && LeadsTo(g, v, t, path, d, i)
    ensures var b, n, a := BytesOf(g, v, t, h, size), NameOf(AllSlots(g, v, t)[d][i]), TreeOf(g, v, t);
            && |b| == size && Shows(g, v, ChainAt(t, h), size, b)
            && FileSeen(a, g.rootCluster, path) == SeenName(d, n) && a[d][n] == File(b)
  {
    hide AllSlots, Shape, SoundIn, HousedIn, SizedIn, Accounted, AllMapLike, Unlabelled, ModelOf, Live, SizeOf, WellFormed,
         Resolve, SeekPath, NameOf, IsDirectory, ClusterOf, ChainBytes;
    GoodFacts(g, v, t);
    WellFormedSafe(g, v, t);
    SlotFacts(g, v, t, d, i, h, size);
    var m := AllSlots(g, v, t);
    ResolveSeen(g, v, t, m, g.rootCluster, path);
    EntryNode(g, v, t, m, AtEntry(d, i));
  }

  lemma WellFormedSafe(g: Geometry, v: View, t: Tree)
    requires WellFormed(g, v, t)
    ensures Safe(g, v, t) && Housed(g, v, t, 0)
  {
    hide Safe, Housed, Accounted;
  }

  lemma OnlyFileFacts(g: Geometry, v: View, t: Tree, w: View, t': Tree, d: nat, i: nat, h: nat)
    requires OnlyFile(g, v, t, w, t', d, i, h)
    ensures Shape(g, v, t) && Shape(g, w, t') && t'.dirs == t.dirs && LiveIn(AllSlots(g, v, t), d, i)
    ensures d in AllSlots(g, w, t') && i < |AllSlots(g, w, t')[d]|
    ensures AllSlots(g, w, t') == Put(AllSlots(g, v, t), d, i, AllSlots(g, w, t')[d][i])
    ensures SameButExtent(AllSlots(g, v, t)[d][i], AllSlots(g, w, t')[d][i])
    ensures forall k | k in t.chains && k != h && k !in t.dirs :: k in t'.chains && t'.chains[k] == t.chains[k]
    ensures forall k | k in t.chains && k != h && k !in t.dirs :: SameBytes(g, v, w, t.chains[k])
  {
    hide Shape, AllSlots, SameBytes, Live, SameButExtent, FatKept, Put;
  }

  /** Nobody else's entry named the file's chain before, since nobody else's does now. */
  lemma OnlyUserBefore(g: Geometry, t': Tree, m: Dirs, m': Dirs, d: nat, i: nat, h: nat)
    requires HousedIn(g, t', m', 0) && LiveIn(m', d, i) && ClusterOf(m'[d][i]) == h
    requires d in m && i < |m[d]| && m' == Put(m, d, i, m'[d][i])
    ensures OnlyUser(m, d, i, h)
  {
    hide Live, ClusterOf, IsDirectory, Put;
    forall e: nat, j: nat | LiveIn(m, e, j) && (e, j) != (d, i) && h != 0 ensures ClusterOf(m[e][j]) != h {
      LiveAfterPut(m, d, i, m'[d][i], e, j);
    }
  }

  lemma ShownNode(g: Geometry, w: View, t: Tree, s: Slot, h: nat, b: seq<byte>)
    requires !IsDirectory(s) && ClusterOf(s) == h && SizeOf(s) == |b| && Shows(g, w, ChainAt(t, h), |b|, b)
    ensures NodeOf(g, w, t, s) == File(b)
  {
    hide ClusterOf, SizeOf, IsDirectory, ChainBytes;
  }

  /** A change confined to one file is the rebinding of that file's name to its new bytes. */
  lemma FileRefines(g: Geometry, v: View, t: Tree, w: View, t': Tree, d: nat, i: nat, h: nat, b: seq<byte>)
    requires Good(g, v, t) && WellFormed(g, w, t') && OnlyFile(g, v, t, w, t', d, i, h)
    requires SlotIs(g, w, t', d, i, h, |b|) && Shows(g, w, ChainAt(t', h), |b|, b)
    ensures Shape(g, v, t) && LiveIn(AllSlots(g, v, t), d, i) && d in TreeOf(g, v, t)
    ensures Good(g, w, t') && TreeOf(g, w, t') == Bind(TreeOf(g, v, t), d, NameOf(AllSlots(g, v, t)[d][i]), File(b))
  {
    hide AllSlots, Shape, SoundIn, SizedIn, HousedIn, Accounted, AllMapLike, Unlabelled, ModelOf, Live, SizeOf, OnlyFile,
         SameBytes, NameOf, IsDirectory, ClusterOf, Shows, Put, NodeOf, Bind, SameButExtent, ChainsStay, Bindings, UniqueNames,
         MapLike, OnlyUser;
    GoodFacts(g, v, t);
    OnlyFileFacts(g, v, t, w, t', d, i, h);
    var m, m' := AllSlots(g, v, t), AllSlots(g, w, t');
    var s := m'[d][i];
    ExtentKeepsBindings(m, d, i, s);
    SameName(m[d][i], s);
    UnlabelledPut(g, m, d, i, s);
    PutShape(m, d, i, s);
    OnlyUserBefore(g, t', m, m', d, i, h);
    FittedOf(g, w, t');
    ShapeFacts(g, w, t');
    AllStay(g, v, t, w, t', h);
    MapLikeUnique(m, d);
    MapLikeUnique(m', d);
    ModelPut(g, v, t, w, t', h, m, m', d, i, NameOf(m[d][i]), s);
    ShownNode(g, w, t', s, h, b);
  }

  /** A path that fat32_open refuses leads to no file. */
  lemma UnopenedSeen(g: Geometry, v: View, t: Tree, path: Text, r: Status)
    requires Good(g, v, t) && Shape(g, v, t) && r != Ok
    requires var m := AllSlots(g, v, t); var res := Resolve(m, g.rootCluster, path);
             r == if res.Unresolved? then res.status else if DirectoryAt(m, res).Some? then NotAFile else Ok
    ensures FileSeen(TreeOf(g, v, t), g.rootCluster, path) == SeenNot(r)
  {
    hide AllSlots, Shape, SizedIn, HousedIn, Accounted, AllMapLike, Unlabelled, ModelOf, Live, SizeOf, WellFormed, BytesOf,
         Resolve, SeekPath, NameOf, IsDirectory, ClusterOf, SoundIn;
    GoodFacts(g, v, t);
    var m := AllSlots(g, v, t);
    ResolveSeen(g, v, t, m, g.rootCluster, path);
    ResolveSound(t, m, g.rootCluster, path);
    var res := Resolve(m, g.rootCluster, path);
    if res.AtEntry? {
      EntryNode(g, v, t, m, res);
    }
  }
}
