/** Names that begin with 0xE5 in terms of the tree of names: they are never bound. */
module DeadRefining {
  import opened Bytes
  import opened Geometry
  import opened Volumes
  import opened Chains
  import opened Slots
  import opened Names83
  import opened Trees
  import opened TreeSteps
  import opened TreeChains
  import opened TreeUnique
  import opened TreeNames
  import opened FileWrite
  import opened NameMaps
  import opened Plans
  import opened Creating
  import opened MakingDirs
  import opened Renaming
  import opened FileTree
  import opened Refining

  /** Bindings do not see the entry. */
  lemma DeadBinding(ss: seq<Slot>, i: nat, s: Slot)
    requires MapLike(ss) && FirstFree(ss, i) && s[0] == DELETED
    ensures MapLike(ss[i := s]) && Bindings(ss[i := s]) == Bindings(ss)
  {
    hide Live, NameOf, Bindings;
    FreeFacts(ss[i]);
    FreeFacts(s);
    MapLikeAfterPut(ss, i, s);
    BindingsAfterPut(ss, i, s);
    var none: set<Name83> := {};
    assert Bindings(ss) - none == Bindings(ss);
  }

  /** Nor does the tree of names. */
  lemma DeadModel(g: Geometry, w: View, t: Tree, m: Dirs, d: nat, i: nat, s: Slot)
    requires AllMapLike(m) && d in m && FirstFree(m[d], i) && s[0] == DELETED && Unlabelled(g, m)
    ensures i < |m[d]| && AllMapLike(Put(m, d, i, s)) && Unlabelled(g, Put(m, d, i, s))
    ensures ModelOf(g, w, t, Put(m, d, i, s)) == ModelOf(g, w, t, m)
  {
    hide MapLike, Bindings, FirstFree, NodeOf, UniqueNames, Unlabelled, IsFree, NamesOf;
    FirstFreeIsFree(m[d], i);
    DeadBinding(m[d], i, s);
    var m' := Put(m, d, i, s);
    PutShape(m, d, i, s);
    MarkedFree(s);
    UnlabelledPut(g, m, d, i, s);
    assert AllMapLike(m');
    MapLikeUnique(m, d);
    MapLikeUnique(m', d);
    assert NamesOf(g, w, t, m'[d]) == NamesOf(g, w, t, m[d]) by {
      SameNames(g, w, t, m[d], m'[d]);
    }
  }

  lemma MarkedFree(s: Slot)
    requires s[0] == DELETED
    ensures IsFree(s)
  {
  }

  lemma SameNames(g: Geometry, w: View, t: Tree, ss: seq<Slot>, ss': seq<Slot>)
    requires UniqueNames(ss) && UniqueNames(ss') && Bindings(ss) == Bindings(ss')
    ensures NamesOf(g, w, t, ss') == NamesOf(g, w, t, ss)
  {
    hide Bindings, UniqueNames, NodeOf;
  }

  /** A volume that differs in such an entry, and in nothing a path leads to, is good and has the same tree. */
  lemma DeadSame(g: Geometry, v: View, t: Tree, w: View, t': Tree, d: nat, i: nat, s: Slot)
    requires Good(g, v, t) && WellFormed(g, w, t') && Shape(g, v, t) && Shape(g, w, t') && ChainsStay(g, v, t, w, t', 0)
    requires d in t.dirs && FirstFree(AllSlots(g, v, t)[d], i) && s[0] == DELETED && i < |AllSlots(g, v, t)[d]|
    requires AllSlots(g, w, t') == Put(AllSlots(g, v, t), d, i, s)
    ensures Good(g, w, t') && TreeOf(g, w, t') == TreeOf(g, v, t)
  {
    hide AllSlots, Shape, SoundIn, SizedIn, HousedIn, WellFormed, AllMapLike, Unlabelled, ModelOf, ChainsStay, FirstFree, Put;
    GoodFacts(g, v, t);
    ModelSame(g, v, t, w, t', 0, AllSlots(g, v, t));
    DeadModel(g, w, t', AllSlots(g, v, t), d, i, s);
  }

  /** create under such a name. */
  lemma CreateDead(g: Geometry, v: View, t: Tree, w: View, path: Text, d: nat, i: nat)
    requires Good(g, v, t) && GoesTo(g, v, t, path, d, i) && !OrdinaryName(path) && Accepted(NameIn(path)) && WellFormed(g, w, t)
    requires OneSlot(g, v, t, w, t, d, i, NewEntry(path, ATTR_ARCHIVE, 0, 0))
    ensures Good(g, w, t) && TreeOf(g, w, t) == TreeOf(g, v, t)
  {
    hide AllSlots, Shape, SoundIn, SizedIn, HousedIn, Accounted, AllMapLike, Unlabelled, TreeOf, GoesTo, NameIn, Accepted, OneSlot,
         Encode, FirstFree, Put, ChainsStay, WellFormed;
    var s := NewEntry(path, ATTR_ARCHIVE, 0, 0);
    GoodFacts(g, v, t);
    GoesToFacts(g, v, t, path, d, i);
    NewEntryLive(NameIn(path), ATTR_ARCHIVE, 0, 0);
    OneSlotFacts(g, v, t, w, t, d, i, s);
    OneSlotRest(g, v, t, w, t, d, i, s);
    FittedOf(g, w, t);
    AllStay(g, v, t, w, t, 0);
    DeadSame(g, v, t, w, t, d, i, s);
  }

  /** mkdir under such a name: with the lost cluster counted as foreign the volume is good. */
  lemma MkdirDead(g: Geometry, v: View, t: Tree, w: View, t': Tree, path: Text, d: nat, i: nat, c: nat)
    requires Good(g, v, t) && GoesTo(g, v, t, path, d, i) && !OrdinaryName(path)
    requires NothingMade(g, v, t, w, path, d, i, c) && DirectoryMade(g, v, t, w, t', path, d, i, c)
    ensures var t1 := WithChain(t, c, [c]);
            c in t1.chains && Good(g, w, Disowned(w, t1, c)) && TreeOf(g, w, Disowned(w, t1, c)) == TreeOf(g, v, t)
  {
    hide AllSlots, Shape, SoundIn, SizedIn, HousedIn, Accounted, AllMapLike, Unlabelled, TreeOf, GoesTo, NameIn, Accepted, Encode,
         FirstFree, Put, ChainsStay, WellFormed, DirectoryMade, Orphaned, SameBytes;
    var t1 := WithChain(t, c, [c]);
    var t2 := Disowned(w, t1, c);
    GoodFacts(g, v, t);
    GoesToFacts(g, v, t, path, d, i);
    NewEntryLive(NameIn(path), ATTR_DIRECTORY, c, 0);
    MadeFacts(g, v, t, w, t', path, d, i, c);
    DisownedWell(g, w, t1, c);
    WellShape(g, w, t2);
    AllStay(g, v, t, w, t2, 0);
    DeadSame(g, v, t, w, t2, d, i, NewEntry(path, ATTR_DIRECTORY, c, 0));
  }

  lemma WellShape(g: Geometry, v: View, t: Tree)
    requires WellFormed(g, v, t)
    ensures Shape(g, v, t) && Fitted(g, v) && 0 !in t.chains
  {
    hide AllSlots, SoundIn, SizedIn, HousedIn, Accounted;
    ShapeFacts(g, v, t);
  }

  /** The tree that goes with a rename under such a name: the chain of the file, if it has one, counts as foreign. */
  ghost function RenamedAway(w: View, t: Tree, h: nat): Tree {
    if h in t.chains && h != 0 then Disowned(w, LostTree(t, h), h) else t
  }

  /** rename under such a name: the old binding goes, none comes. */
  lemma RenameDead(g: Geometry, v: View, t: Tree, w: View, t': Tree, to: Text, d0: nat, i0: nat, d: nat, i: nat, h: nat)
    requires Good(g, v, t) && GoesTo(g, v, t, to, d, i) && !OrdinaryName(to) && EntryMoved(g, v, t, w, t', to, d0, i0, d, i)
    requires Shape(g, v, t) && LiveIn(AllSlots(g, v, t), d0, i0) && !IsDirectory(AllSlots(g, v, t)[d0][i0])
    requires h == ClusterOf(AllSlots(g, v, t)[d0][i0])
    requires if h == 0 then WellFormed(g, w, t) else Orphaned(g, w, LostTree(t, h), h)
    ensures Good(g, w, RenamedAway(w, t, h)) && d0 in TreeOf(g, v, t)
    ensures TreeOf(g, w, RenamedAway(w, t, h)) == Unbind(TreeOf(g, v, t), d0, NameOf(AllSlots(g, v, t)[d0][i0]))
  {
    hide AllSlots, Shape, SoundIn, SizedIn, HousedIn, Accounted, AllMapLike, Unlabelled, ModelOf, GoesTo, NameIn, Accepted, Encode,
         FirstFree, Put, ChainsStay, WellFormed, EntryMoved, Orphaned, SameBytes, IsDirectory, ClusterOf, SizeOf, Live, MovedEntry,
         DeletedSlot, NameOf, LostTree, Disowned, Unbind, Unnamed, RenamedAway;
    var m := AllSlots(g, v, t);
    GoodFacts(g, v, t);
    MovedFacts(g, v, t, w, t', to, d0, i0, d, i);
    MovedAway(g, v, t, m, to, d0, i0, d, i);
    var m'' := Moved(m, d0, i0, d, i, MovedEntry(to, m[d0][i0]));
    AwayTree(g, v, t, w, t', h, m'', d0, i0);
    FittedOf(g, w, t');
    AllStay(g, v, t, w, t, 0);
    ModelSame(g, v, t, w, t, 0, m);
    AwayModel(g, w, t, m, to, d0, i0, d, i);
    ModelSame(g, w, t, w, RenamedAway(w, t, h), h, m'');
  }

  /** The slots afterwards are sound still. */
  lemma MovedAway(g: Geometry, v: View, t: Tree, m: Dirs, to: Text, d0: nat, i0: nat, d: nat, i: nat)
    requires SoundIn(t, m) && SizedIn(g, t, m) && AllMapLike(m) && Unlabelled(g, m)
    requires GoesTo(g, v, t, to, d, i) && !OrdinaryName(to) && Shape(g, v, t) && m == AllSlots(g, v, t) && LiveIn(m, d0, i0)
    ensures d in m && i < |m[d]| && Accepted(NameIn(to)) && FirstFree(m[d], i) && MovedEntry(to, m[d0][i0])[0] == DELETED
    ensures var half := Put(m, d, i, MovedEntry(to, m[d0][i0]));
            && SoundIn(t, half) && AllMapLike(half) && Unlabelled(g, half) && LiveIn(half, d0, i0) && half[d0][i0] == m[d0][i0]
            && SoundIn(t, Moved(m, d0, i0, d, i, MovedEntry(to, m[d0][i0])))
            && Unlabelled(g, Moved(m, d0, i0, d, i, MovedEntry(to, m[d0][i0])))
  {
    hide AllSlots, Shape, SoundIn, SizedIn, AllMapLike, Unlabelled, GoesTo, NameIn, Accepted, FirstFree, Put, Live, MovedEntry,
         DeletedSlot, IsDot, ModelOf;
    GoesToFacts(g, v, t, to, d, i);
    var s := MovedEntry(to, m[d0][i0]);
    MovedEntryFacts(to, m[d0][i0]);
    DeletedIsDead(s);
    FirstFreeIsFree(m[d], i);
    FirstFreePlaceable(m[d], i, s);
    DeadSound(g, t, m, d, i, s);
    DeadModel(g, v, t, m, d, i, s);
    LiveAfterPut(m, d, i, s, d0, i0);
    var half := Put(m, d, i, s);
    DeletedPlaceable(half[d0], i0);
    DeadSound(g, t, half, d0, i0, DeletedSlot(half[d0][i0]));
    DeletedIsFree(half[d0][i0]);
    UnlabelledPut(g, half, d0, i0, DeletedSlot(half[d0][i0]));
  }

  lemma AwayModel(g: Geometry, w: View, t: Tree, m: Dirs, to: Text, d0: nat, i0: nat, d: nat, i: nat)
    requires AllMapLike(m) && Unlabelled(g, m) && d in m && i < |m[d]| && Accepted(NameIn(to)) && FirstFree(m[d], i)
    requires LiveIn(m, d0, i0) && MovedEntry(to, m[d0][i0])[0] == DELETED && Shape(g, w, t) && 0 !in m && 0 !in t.chains
    requires var half := Put(m, d, i, MovedEntry(to, m[d0][i0]));
             SoundIn(t, half) && LiveIn(half, d0, i0) && half[d0][i0] == m[d0][i0]
    ensures AllMapLike(Moved(m, d0, i0, d, i, MovedEntry(to, m[d0][i0])))
    ensures ModelOf(g, w, t, Moved(m, d0, i0, d, i, MovedEntry(to, m[d0][i0])))
         == Unbind(ModelOf(g, w, t, m), d0, NameOf(m[d0][i0]))
  {
    hide Shape, SoundIn, AllMapLike, Unlabelled, NameIn, Accepted, FirstFree, Put, Live, MovedEntry, DeletedSlot, ModelOf, ChainsStay,
         NameOf, Unbind;
    DeadModel(g, w, t, m, d, i, MovedEntry(to, m[d0][i0]));
    StaysItself(g, w, t);
    SecondHalf(g, w, t, Put(m, d, i, MovedEntry(to, m[d0][i0])), d0, i0);
  }

  /** The tree afterwards: well formed, with every chain an entry names where it was. */
  lemma AwayTree(g: Geometry, v: View, t: Tree, w: View, t': Tree, h: nat, m'': Dirs, d0: nat, i0: nat)
    requires Shape(g, v, t) && Shape(g, w, t') && OnlyHome(t', t) && AllSlots(g, w, t') == m''
    requires if h == 0 then WellFormed(g, w, t) else Orphaned(g, w, LostTree(t, h), h)
    ensures var t2 := RenamedAway(w, t, h);
            && WellFormed(g, w, t2) && Shape(g, w, t2) && AllSlots(g, w, t2) == m'' && ChainsStay(g, w, t, w, t2, h)
            && (h == 0 || Unnamed(m'', h)) && Shape(g, w, t) && AllSlots(g, w, t) == m''
  {
    hide AllSlots, Accounted, SoundIn, SizedIn, HousedIn, Unnamed, IsChain, SameBytes;
    SameButHome(g, w, t', t);
    ShapeFacts(g, w, t);
    StaysItself(g, w, t);
    if h != 0 {
      var t1 := LostTree(t, h);
      SameButHome(g, w, t, t1);
      DisownedWell(g, w, t1, h);
      HousedUnnamed(g, t1, m'', h);
      WellShape(g, w, Disowned(w, t1, h));
    }
  }
}
