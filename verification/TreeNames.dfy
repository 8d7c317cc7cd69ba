/** What naming, removing and moving an entry does to the tree conditions. */
module TreeNames {
  import opened Bytes
  import opened Geometry
  import opened Volumes
  import opened Chains
  import opened Allocation
  import opened Freeing
  import opened Contents
  import opened Slots
  import opened Trees
  import opened TreeSteps
  import opened TreeChains
  import opened TreeUnique

  /** t with slot i of directory d as the home of head h (nothing to note when h is 0). */
  function At(t: Tree, h: nat, d: nat, i: nat): Tree {
    if h == 0 then t else t.(home := t.home[h := (d, i)])
  }

  // ---------------------------------------------------------------- naming

  /** The conditions under which slot i of d may come to hold s, an entry for head h; x is a chain nobody names yet. */
  ghost predicate Nameable(g: Geometry, t: Tree, m: Dirs, d: nat, i: nat, s: Slot, x: nat) {
    && d in m && i < |m[d]| && Placeable(m[d], i, s) && Live(s) && Linked(t, d, s) && SizeFits(g, t, s)
    && var h := ClusterOf(s);
       && (x != 0 ==> h == x && h in t.chains && h != g.rootCluster)
       && (Live(m[d][i]) ==> ClusterOf(m[d][i]) == 0 || (ClusterOf(m[d][i]) == h && x == 0))
       && (h != 0 && x == 0 ==> Live(m[d][i]) && ClusterOf(m[d][i]) == h)
  }

  lemma NamedSound(g: Geometry, t: Tree, m: Dirs, d: nat, i: nat, s: Slot, x: nat)
    requires SoundIn(t, m) && Nameable(g, t, m, d, i, s, x)
    requires OthersFit(g, t, m, d, i)
    ensures SoundIn(At(t, ClusterOf(s), d, i), Put(m, d, i, s))
    ensures SizedIn(g, At(t, ClusterOf(s), d, i), Put(m, d, i, s))
  {
    hide Placeable, TailUnused, DotsFirst, Put, Live;
    PutKeeps(m, d, i, s);
    forall e: nat, j: nat | LiveIn(Put(m, d, i, s), e, j)
      ensures Linked(t, e, Put(m, d, i, s)[e][j]) && SizeFits(g, t, Put(m, d, i, s)[e][j])
    {
      LiveAfterPut(m, d, i, s, e, j);
    }
  }

  lemma NamedHoused(g: Geometry, t: Tree, m: Dirs, d: nat, i: nat, s: Slot, x: nat)
    requires HousedIn(g, t, m, x) && Nameable(g, t, m, d, i, s, x) && 0 !in t.chains
    ensures HousedIn(g, At(t, ClusterOf(s), d, i), Put(m, d, i, s), 0)
  {
    hide Placeable, Linked, SizeFits, Put, Live, ClusterOf;
    var h := ClusterOf(s);
    var t', m' := At(t, h, d, i), Put(m, d, i, s);
    LiveAfterPut(m, d, i, s, d, i);
    forall k | k in t'.home
      ensures LiveIn(m', t'.home[k].0, t'.home[k].1) && ClusterOf(m'[t'.home[k].0][t'.home[k].1]) == k
    {
      if k != h || h == 0 {
        LiveAfterPut(m, d, i, s, t.home[k].0, t.home[k].1);
      }
    }
    forall e: nat, j: nat | LiveIn(m', e, j) && ClusterOf(m'[e][j]) != 0
      ensures ClusterOf(m'[e][j]) in t'.home && t'.home[ClusterOf(m'[e][j])] == (e, j)
    {
      LiveAfterPut(m, d, i, s, e, j);
    }
  }

  /** The home map plays no part in the shape. */
  lemma HomeFree(g: Geometry, v: View, t: Tree, h: nat, d: nat, i: nat)
    requires Shape(g, v, t)
    ensures Shape(g, v, At(t, h, d, i)) && AllSlots(g, v, At(t, h, d, i)) == AllSlots(g, v, t)
    ensures Accounted(v, t) ==> Accounted(v, At(t, h, d, i))
    ensures OnlyHome(t, At(t, h, d, i))
  {
    SameButHome(g, v, t, At(t, h, d, i));
  }

  ghost predicate OnlyHome(t: Tree, t': Tree) {
    t'.chains == t.chains && t'.dirs == t.dirs && t'.other == t.other
  }

  lemma SameButHome(g: Geometry, v: View, t: Tree, t': Tree)
    requires Shape(g, v, t) && OnlyHome(t, t')
    ensures Shape(g, v, t') && AllSlots(g, v, t') == AllSlots(g, v, t)
    ensures Accounted(v, t) ==> Accounted(v, t')
  {
    hide ChainBytes, SlotsOf, IsChain;
    assert Shape(g, v, t');
    assert forall c :: Owned(t', c) == Owned(t, c);
  }

  ghost predicate OthersFit(g: Geometry, t: Tree, m: Dirs, d: nat, i: nat) {
    forall e: nat, j: nat | LiveIn(m, e, j) && (e, j) != (d, i) :: SizeFits(g, t, m[e][j])
  }

  lemma NameableBounds(g: Geometry, t: Tree, m: Dirs, d: nat, i: nat, s: Slot, x: nat)
    requires Nameable(g, t, m, d, i, s, x)
    ensures d in m && i < |m[d]|
  {
  }

  /** Writing an entry: a new empty file, a new directory, or a new extent of an existing file. */
  lemma Named(g: Geometry, v: View, t: Tree, m: Dirs, d: nat, i: nat, s: Slot, x: nat)
    requires Sound(g, v, t) && Housed(g, v, t, x) && m == AllSlots(g, v, t)
    requires Nameable(g, t, m, d, i, s, x) && OthersFit(g, t, m, d, i)
    ensures d in t.dirs && i < |m[d]|
    ensures var w, t' := WithSlot(g, v, t, d, i, s), At(t, ClusterOf(s), d, i);
            Safe(g, w, t') && Housed(g, w, t', 0) && (Accounted(v, t) ==> Accounted(w, t'))
  {
    hide AllSlots, Shape, WithSlot, Confined, SoundIn, SizedIn, HousedIn, Accounted, Nameable, OthersFit, At, Put, ClusterOf;
    NameableBounds(g, t, m, d, i, s, x);
    WithSlotEffect(g, v, t, d, i, s);
    var w, t' := WithSlot(g, v, t, d, i, s), At(t, ClusterOf(s), d, i);
    ShapeFacts(g, v, t);
    NamedSound(g, t, m, d, i, s, x);
    NamedHoused(g, t, m, d, i, s, x);
    HomeFree(g, w, t, ClusterOf(s), d, i);
    SameFat(v, w, t);
  }

  lemma SameFat(v: View, w: View, t: Tree)
    requires w.fat == v.fat
    ensures Accounted(v, t) ==> Accounted(w, t)
  {
  }

  // ---------------------------------------------------------------- slots that name nothing

  lemma DeletedPlaceable(ss: seq<Slot>, i: nat)
    requires i < |ss| && Live(ss[i])
    ensures Placeable(ss, i, DeletedSlot(ss[i])) && !Live(DeletedSlot(ss[i]))
  {
  }

  lemma DeadSound(g: Geometry, t: Tree, m: Dirs, d: nat, i: nat, s: Slot)
    requires SoundIn(t, m) && SizedIn(g, t, m) && d in m && Placeable(m[d], i, s) && !Live(s)
    ensures SoundIn(t, Put(m, d, i, s)) && SizedIn(g, t, Put(m, d, i, s))
  {
    hide Put, TailUnused, DotsFirst, Live;
    PutKeeps(m, d, i, s);
    forall e: nat, j: nat | LiveIn(Put(m, d, i, s), e, j)
      ensures Linked(t, e, Put(m, d, i, s)[e][j]) && SizeFits(g, t, Put(m, d, i, s)[e][j])
    {
      LiveAfterPut(m, d, i, s, e, j);
    }
  }

  lemma DeadHoused(g: Geometry, t: Tree, m: Dirs, d: nat, i: nat, s: Slot, x: nat)
    requires HousedIn(g, t, m, x) && d in m && i < |m[d]| && !Live(m[d][i]) && !Live(s)
    ensures HousedIn(g, t, Put(m, d, i, s), x)
  {
    hide Put, Live, ClusterOf;
    var m' := Put(m, d, i, s);
    forall k | k in t.home ensures LiveIn(m', t.home[k].0, t.home[k].1) && ClusterOf(m'[t.home[k].0][t.home[k].1]) == k {
      LiveAfterPut(m, d, i, s, t.home[k].0, t.home[k].1);
    }
    forall e: nat, j: nat | LiveIn(m', e, j) && ClusterOf(m'[e][j]) != 0
      ensures ClusterOf(m'[e][j]) in t.home && t.home[ClusterOf(m'[e][j])] == (e, j)
    {
      LiveAfterPut(m, d, i, s, e, j);
    }
  }

  /** The slots that name directories are still there when another slot is rewritten. */
  lemma NamedAfterPut(g: Geometry, t: Tree, m: Dirs, d: nat, i: nat, s: Slot)
    requires DirsNamed(g, t, m) && d in m && i < |m[d]| && !(Live(m[d][i]) && IsDirectory(m[d][i]))
    ensures DirsNamed(g, t, Put(m, d, i, s))
  {
    hide Put, Live, IsDirectory;
    forall e | e in t.dirs && e != g.rootCluster
      ensures LiveIn(Put(m, d, i, s), t.home[e].0, t.home[e].1)
      ensures Put(m, d, i, s)[t.home[e].0][t.home[e].1] == m[t.home[e].0][t.home[e].1]
    {
      LiveAfterPut(m, d, i, s, t.home[e].0, t.home[e].1);
    }
  }

  /** Writing a dead entry into the first free slot changes nothing the tree conditions know of. */
  lemma DeadPut(g: Geometry, v: View, t: Tree, m: Dirs, d: nat, i: nat, s: Slot)
    requires Safe(g, v, t) && m == AllSlots(g, v, t)
    requires d in m && FirstFree(m[d], i) && !Live(s) && s[0] != 0 && !IsDot(s)
    ensures d in t.dirs && i < |m[d]|
    ensures var w := WithSlot(g, v, t, d, i, s);
            && Safe(g, w, t) && AllSlots(g, w, t) == Put(m, d, i, s)
            && (forall x | Housed(g, v, t, x) :: Housed(g, w, t, x))
            && (Accounted(v, t) ==> Accounted(w, t))
            && (DirsNamed(g, t, m) ==> DirsNamed(g, t, Put(m, d, i, s)))
  {
    hide AllSlots, Shape, WithSlot, Confined, SoundIn, SizedIn, HousedIn, Accounted, Put, Live, FirstFree, DirsNamed, IsDot;
    FirstFreeIsFree(m[d], i);
    var w := WithSlot(g, v, t, d, i, s);
    WithSlotEffect(g, v, t, d, i, s);
    FirstFreePlaceable(m[d], i, s);
    DeadSound(g, t, m, d, i, s);
    forall x | Housed(g, v, t, x) ensures Housed(g, w, t, x) {
      DeadHoused(g, t, m, d, i, s, x);
    }
    SameFat(v, w, t);
    if DirsNamed(g, t, m) {
      NamedAfterPut(g, t, m, d, i, s);
    }
  }

  lemma FirstFreePlaceable(ss: seq<Slot>, i: nat, s: Slot)
    requires FirstFree(ss, i) && s[0] != 0 && !IsDot(s)
    ensures Placeable(ss, i, s)
  {
  }

  // ---------------------------------------------------------------- removing

  /** t without the chain at h and without the directories in gone. */
  function Shed(t: Tree, h: nat, gone: set<nat>): Tree {
    t.(chains := t.chains - {h}, dirs := t.dirs - gone, home := t.home - {h})
  }

  /** t without the chain at h, and without the directory it may be. */
  function Without(t: Tree, h: nat): Tree {
    Shed(t, h, {h})
  }

  /** Slot i of d names h, which is a file's chain, an empty directory, or nothing. */
  ghost predicate Removable(t: Tree, m: Dirs, d: nat, i: nat) {
    && LiveIn(m, d, i)
    && var h := ClusterOf(m[d][i]);
       h in m ==> forall j | 0 <= j < |m[h]| :: !Live(m[h][j])
  }

  /** No live entry of h, if it is a directory, has a chain. */
  ghost predicate NothingBelow(m: Dirs, h: nat) {
    forall j: nat | LiveIn(m, h, j) :: ClusterOf(m[h][j]) == 0
  }

  /** gone goes with the entry in slot i of d: it holds the directory that entry may name and is closed downwards. */
  ghost predicate Severed(t: Tree, m: Dirs, root: nat, d: nat, i: nat, gone: set<nat>) {
    && LiveIn(m, d, i) && d !in gone && root !in gone
    && (ClusterOf(m[d][i]) in t.dirs ==> ClusterOf(m[d][i]) in gone)
    && (forall e: nat, j: nat | LiveIn(m, e, j) && e !in gone && (e, j) != (d, i) && IsDirectory(m[e][j]) ::
          ClusterOf(m[e][j]) !in gone)
  }

  lemma SeveredFacts(t: Tree, m: Dirs, root: nat, d: nat, i: nat, gone: set<nat>)
    requires Severed(t, m, root, d, i, gone)
    ensures LiveIn(m, d, i) && d !in gone && root !in gone
    ensures ClusterOf(m[d][i]) in t.dirs ==> ClusterOf(m[d][i]) in gone
  {
  }

  lemma RemovedLive(m: Dirs, d: nat, i: nat, gone: set<nat>, e: nat, j: nat)
    requires LiveIn(m, d, i)
    ensures var m' := Put(m, d, i, DeletedSlot(m[d][i])) - gone;
            && (LiveIn(m', e, j) <==> LiveIn(m, e, j) && (e, j) != (d, i) && e !in gone)
            && (LiveIn(m', e, j) ==> m'[e][j] == m[e][j])
  {
    hide Put;
    LiveAfterPut(m, d, i, DeletedSlot(m[d][i]), e, j);
  }

  /** An entry whose head has no chain below it takes no other entry's chain with it. */
  lemma RemovedHoused(g: Geometry, t: Tree, m: Dirs, d: nat, i: nat)
    requires HousedIn(g, t, m, 0) && LiveIn(m, d, i) && NothingBelow(m, ClusterOf(m[d][i])) && 0 !in t.chains
    ensures HousedIn(g, Without(t, ClusterOf(m[d][i])), Put(m, d, i, DeletedSlot(m[d][i])) - {ClusterOf(m[d][i])}, 0)
  {
    hide Put, Live, Le16;
    var h, s := ClusterOf(m[d][i]), DeletedSlot(m[d][i]);
    var t', m' := Without(t, h), Put(m, d, i, s) - {h};
    forall k | k in t'.home
      ensures LiveIn(m', t'.home[k].0, t'.home[k].1) && ClusterOf(m'[t'.home[k].0][t'.home[k].1]) == k
    {
      assert LiveIn(m, t.home[k].0, t.home[k].1);
      RemovedLive(m, d, i, {h}, t.home[k].0, t.home[k].1);
    }
    forall e: nat, j: nat | LiveIn(m', e, j) && ClusterOf(m'[e][j]) != 0
      ensures ClusterOf(m'[e][j]) in t'.home && t'.home[ClusterOf(m'[e][j])] == (e, j)
    {
      RemovedLive(m, d, i, {h}, e, j);
    }
  }

  lemma RemovedSound(g: Geometry, t: Tree, m: Dirs, d: nat, i: nat, gone: set<nat>)
    requires SoundIn(t, m) && SizedIn(g, t, m) && HousedIn(g, t, m, 0) && Severed(t, m, g.rootCluster, d, i, gone)
    requires g.rootCluster in t.chains && t.dirs.Keys <= t.chains.Keys && 0 !in t.chains
    ensures var h := ClusterOf(m[d][i]);
            var t', m' := Shed(t, h, gone), Put(m, d, i, DeletedSlot(m[d][i])) - gone;
            h != g.rootCluster && SoundIn(t', m') && SizedIn(g, t', m')
  {
    hide TailUnused, DotsFirst, Put, DeletedSlot, SizeOf;
    var h, s := ClusterOf(m[d][i]), DeletedSlot(m[d][i]);
    DeletedPlaceable(m[d], i);
    var t', m' := Shed(t, h, gone), Put(m, d, i, s) - gone;
    assert Linked(t, d, m[d][i]) && Placeable(m[d], i, s);
    PutKeeps(m, d, i, s);
    forall e: nat, j: nat | LiveIn(m', e, j)
      ensures Linked(t', e, m'[e][j]) && SizeFits(g, t', m'[e][j])
    {
      RemovedLive(m, d, i, gone, e, j);
      assert Linked(t, e, m[e][j]) && SizeFits(g, t, m[e][j]);
    }
  }

  lemma WithoutShape(g: Geometry, v: View, t: Tree, h: nat, gone: set<nat>)
    requires Shape(g, v, t) && h != g.rootCluster && g.rootCluster !in gone && (h in t.dirs ==> h in gone)
    ensures Shape(g, v, Shed(t, h, gone))
    ensures AllSlots(g, v, Shed(t, h, gone)) == AllSlots(g, v, t) - gone
  {
    hide IsChain, ChainBytes, SlotsOf;
    var t' := Shed(t, h, gone);
    assert Shape(g, v, t');
    forall d | d in t'.dirs ensures BytesAt(g, v, t', d) == BytesAt(g, v, t, d) {
    }
  }

  /** Marking an entry deleted takes its chain, and what it severs, out of the tree before a single cluster is freed. */
  lemma Removed(g: Geometry, v: View, t: Tree, m: Dirs, d: nat, i: nat, gone: set<nat>)
    requires Safe(g, v, t) && Housed(g, v, t, 0) && m == AllSlots(g, v, t) && Severed(t, m, g.rootCluster, d, i, gone)
    ensures d in m && i < |m[d]|
    ensures var h, w := ClusterOf(m[d][i]), WithSlot(g, v, t, d, i, DeletedSlot(m[d][i]));
            && h != g.rootCluster
            && Safe(g, w, Shed(t, h, gone))
            && AllSlots(g, w, Shed(t, h, gone)) == Put(m, d, i, DeletedSlot(m[d][i])) - gone
            && (gone == {h} && NothingBelow(m, h) ==> Housed(g, w, Without(t, h), 0))
  {
    hide AllSlots, Shape, WithSlot, Confined, SoundIn, SizedIn, HousedIn, Put, DeletedSlot, Shed, ClusterOf, Severed,
         NothingBelow;
    SeveredFacts(t, m, g.rootCluster, d, i, gone);
    var h, w := ClusterOf(m[d][i]), WithSlot(g, v, t, d, i, DeletedSlot(m[d][i]));
    ShapeFacts(g, v, t);
    WithSlotEffect(g, v, t, d, i, DeletedSlot(m[d][i]));
    RemovedSound(g, t, m, d, i, gone);
    WithoutShape(g, w, t, h, gone);
    if gone == {h} && NothingBelow(m, h) {
      RemovedHoused(g, t, m, d, i);
    }
  }

  // ---------------------------------------------------------------- chains nobody names

  /** t with the clusters of the chain at x counted among those that belong to no chain. */
  ghost function Disowned(v: View, t: Tree, x: nat): Tree
    requires x in t.chains
  {
    Without(t, x).(other := t.other + map c | c in t.chains[x] && c < |v.fat| :: v.fat[c])
  }

  /** A chain nobody names is as good as foreign: with it so counted the volume is well formed. */
  lemma DisownedWell(g: Geometry, v: View, t: Tree, x: nat)
    requires Orphaned(g, v, t, x)
    ensures WellFormed(g, v, Disowned(v, t, x)) && Shape(g, v, t) && AllSlots(g, v, Disowned(v, t, x)) == AllSlots(g, v, t)
  {
    hide AllSlots, Shape, Accounted, SoundIn, SizedIn, HousedIn;
    var t', t1 := Disowned(v, t, x), Without(t, x);
    ShapeFacts(g, v, t);
    WithoutShape(g, v, t, x, {x});
    DisownedSlots(g, v, t, x);
    DisownedSound(g, t, AllSlots(g, v, t), x, t');
    DisownedAccounted(g, v, t, x);
  }

  lemma DisownedSlots(g: Geometry, v: View, t: Tree, x: nat)
    requires Shape(g, v, t) && Shape(g, v, Without(t, x)) && x in t.chains && x !in t.dirs
    requires AllSlots(g, v, Without(t, x)) == AllSlots(g, v, t) - {x}
    ensures Shape(g, v, Disowned(v, t, x)) && AllSlots(g, v, Disowned(v, t, x)) == AllSlots(g, v, t)
  {
    hide IsChain, ChainBytes, SlotsOf;
    var t' := Disowned(v, t, x);
    assert Shape(g, v, t');
    assert AllSlots(g, v, t').Keys == AllSlots(g, v, t).Keys;
  }

  lemma DisownedSound(g: Geometry, t: Tree, m: Dirs, x: nat, t': Tree)
    requires SoundIn(t, m) && SizedIn(g, t, m) && HousedIn(g, t, m, x) && x in t.chains && x !in t.dirs && 0 !in t.chains
    requires t'.chains == t.chains - {x} && t'.dirs == t.dirs - {x} && t'.home == t.home - {x}
    ensures SoundIn(t', m) && SizedIn(g, t', m) && HousedIn(g, t', m, 0)
  {
    hide TailUnused, DotsFirst, Live;
    HousedUnnamed(g, t, m, x);
    forall d: nat, i: nat | LiveIn(m, d, i) ensures Linked(t', d, m[d][i]) && SizeFits(g, t', m[d][i]) {
      assert Linked(t, d, m[d][i]) && SizeFits(g, t, m[d][i]);
    }
  }

  lemma DisownedAccounted(g: Geometry, v: View, t: Tree, x: nat)
    requires Shape(g, v, t) && Accounted(v, t) && x in t.chains
    ensures Accounted(v, Disowned(v, t, x))
  {
    hide IsChain, Shape, Owned;
    var t' := Disowned(v, t, x);
    forall c: nat | c in t.chains[x] ensures OnVolume(v.fat, c) && v.fat[c] != 0 && !Owned(t', c) && Owned(t, c) {
      OnlyOn(g, v, t, x, c);
      OwnedBy(t, x, c);
    }
    forall c: nat ensures Owned(t', c) ==> Owned(t, c) {
      DisownedOwned(v, t, x, c);
    }
    forall c: nat | Owned(t, c) && c !in t.chains[x] ensures Owned(t', c) {
      DisownedOwned(v, t, x, c);
    }
  }

  lemma DisownedOwned(v: View, t: Tree, x: nat, c: nat)
    requires x in t.chains
    ensures Owned(Disowned(v, t, x), c) ==> Owned(t, c)
    ensures Owned(t, c) && c !in t.chains[x] ==> Owned(Disowned(v, t, x), c)
  {
    WithoutOwned(t, x, c);
    assert Owned(Disowned(v, t, x), c) == Owned(Without(t, x), c);
  }

  lemma OnlyOn(g: Geometry, v: View, t: Tree, x: nat, c: nat)
    requires Shape(g, v, t) && x in t.chains && c in t.chains[x]
    ensures OnVolume(v.fat, c) && v.fat[c] != 0 && !Owned(Disowned(v, t, x), c)
  {
    hide Fitted;
    var k :| 0 <= k < |t.chains[x]| && t.chains[x][k] == c;
    PathStep(v.fat, t.chains[x], k);
  }

  /** What was counted as foreign still is, and has its value still. */
  ghost predicate ForeignKept(t: Tree, t': Tree) {
    forall c | c in t.other :: c in t'.other && t'.other[c] == t.other[c]
  }

  lemma ForeignElsewhere(w: View, t: Tree, x: nat)
    requires Accounted(w, t) && x in t.chains
    ensures ForeignKept(t, Disowned(w, t, x))
  {
    forall c | c in t.other ensures c !in t.chains[x] {
      assert !Owned(t, c);
    }
  }

  lemma ForeignTwice(t: Tree, t1: Tree, t2: Tree)
    requires ForeignKept(t, t1) && ForeignKept(t1, t2)
    ensures ForeignKept(t, t2)
    ensures t2.other == t.other <==> t1.other == t.other && t2.other == t1.other
  {
    if t2.other == t.other {
      assert forall c | c in t1.other :: c in t.other;
      assert t1.other == t.other;
    }
  }

  lemma ForeignSelf(t: Tree)
    ensures ForeignKept(t, t)
  {
  }

  /** t with a run of foreign clusters as a chain again. */
  function Adopted(t: Tree, x: nat, ch: seq<nat>): Tree {
    WithChain(t, x, ch).(other := map c | c in t.other && c !in ch :: t.other[c])
  }

  lemma ForeignNotOwned(v: View, t: Tree, ch: seq<nat>)
    requires Accounted(v, t) && forall c | c in ch :: c in t.other
    ensures forall k, c | k in t.chains && c in t.chains[k] :: c !in ch
    ensures forall c | c in ch :: OnVolume(v.fat, c)
  {
    forall k, c | k in t.chains && c in t.chains[k] ensures c !in ch {
      OwnedBy(t, k, c);
    }
  }

  /** Which clusters count as foreign plays no part in the slots. */
  lemma OtherFree(g: Geometry, v: View, t: Tree, t': Tree)
    requires Shape(g, v, t) && t'.chains == t.chains && t'.dirs == t.dirs
    ensures Shape(g, v, t') && AllSlots(g, v, t') == AllSlots(g, v, t)
  {
    hide IsChain, ChainBytes, SlotsOf;
    assert Shape(g, v, t');
    forall d | d in t.dirs ensures BytesAt(g, v, t', d) == BytesAt(g, v, t, d) {
    }
  }

  lemma AdoptedShape(g: Geometry, v: View, t: Tree, x: nat, ch: seq<nat>)
    requires Shape(g, v, t) && Accounted(v, t) && IsChain(v.fat, ch) && ch[0] == x && forall c | c in ch :: c in t.other
    ensures x !in t.chains && x != 0
    ensures Shape(g, v, Adopted(t, x, ch)) && AllSlots(g, v, Adopted(t, x, ch)) == AllSlots(g, v, t)
  {
    hide IsChain, BytesAt, AllSlots, Shape, Accounted;
    ForeignNotOwned(v, t, ch);
    HeadOf(v.fat, ch);
    if x in t.chains {
      HeadNotFree(g, v, t, x);
    }
    var t1 := WithChain(t, x, ch);
    AdoptedChain(g, v, t, x, ch);
    OtherFree(g, v, t1, Adopted(t, x, ch));
    WithChainSlots(g, v, t, x, ch);
  }

  lemma HeadOf(fat: seq<nat>, ch: seq<nat>)
    requires IsChain(fat, ch)
    ensures ch[0] in ch
  {
  }

  lemma AdoptedChain(g: Geometry, v: View, t: Tree, x: nat, ch: seq<nat>)
    requires Shape(g, v, t) && IsChain(v.fat, ch) && ch[0] == x && x !in t.chains
    requires forall k, c | k in t.chains && c in t.chains[k] :: c !in ch
    ensures Shape(g, v, WithChain(t, x, ch))
  {
    hide IsChain;
    ShapeWithChain(g, v, t, v, x, ch);
  }

  lemma WithChainSlots(g: Geometry, v: View, t: Tree, x: nat, ch: seq<nat>)
    requires Shape(g, v, t) && Shape(g, v, WithChain(t, x, ch)) && x !in t.chains
    ensures AllSlots(g, v, WithChain(t, x, ch)) == AllSlots(g, v, t)
  {
    hide IsChain, ChainBytes, SlotsOf;
    forall d | d in t.dirs ensures BytesAt(g, v, WithChain(t, x, ch), d) == BytesAt(g, v, t, d) {
    }
  }

  lemma AdoptedAccounted(v: View, t: Tree, x: nat, ch: seq<nat>)
    requires Accounted(v, t) && x !in t.chains && forall c | c in ch :: c in t.other
    ensures Accounted(v, Adopted(t, x, ch))
  {
    var t' := Adopted(t, x, ch);
    forall c ensures Owned(t', c) <==> Owned(t, c) || c in ch {
      if Owned(t, c) {
        var k :| k in t.chains && c in t.chains[k];
        OwnedBy(t', k, c);
      }
      if c in ch {
        OwnedBy(t', x, c);
      }
      if Owned(t', c) {
        var k :| k in t'.chains && c in t'.chains[k];
        if k != x {
          OwnedBy(t, k, c);
        }
      }
    }
  }

  lemma AdoptedSound(g: Geometry, t: Tree, m: Dirs, x: nat, ch: seq<nat>)
    requires SoundIn(t, m) && SizedIn(g, t, m) && HousedIn(g, t, m, 0) && x !in t.chains && 0 !in t.chains && x != 0
    ensures SoundIn(Adopted(t, x, ch), m) && SizedIn(g, Adopted(t, x, ch), m) && HousedIn(g, Adopted(t, x, ch), m, x)
    ensures x !in t.home
  {
    hide TailUnused, DotsFirst, Live;
    var t' := Adopted(t, x, ch);
    forall d: nat, i: nat | LiveIn(m, d, i) ensures Linked(t', d, m[d][i]) && SizeFits(g, t', m[d][i]) {
      assert Linked(t, d, m[d][i]) && SizeFits(g, t, m[d][i]);
    }
  }

  // ---------------------------------------------------------------- what a removed directory takes along

  /** e is h, or the homes of the tree lead from it to h. */
  ghost predicate Below(t: Tree, h: nat, e: nat)
    decreases if e in t.dirs then t.dirs[e] else 0
  {
    e == h || (e in t.dirs && e in t.home && t.home[e].0 in t.dirs && t.dirs[t.home[e].0] < t.dirs[e] && Below(t, h, t.home[e].0))
  }

  /** The directories that hang below h, h among them. */
  ghost function Subtree(t: Tree, h: nat): set<nat> {
    set e | e in t.dirs && Below(t, h, e)
  }

  lemma {:induction false} BelowIsDeeper(t: Tree, h: nat, e: nat)
    requires Below(t, h, e) && e in t.dirs
    ensures h in t.dirs && t.dirs[h] <= t.dirs[e]
    decreases t.dirs[e]
  {
    if e != h {
      BelowIsDeeper(t, h, t.home[e].0);
    }
  }

  /** Removing an entry severs what hangs below it, whether or not the directory was empty. */
  lemma SubtreeSevered(g: Geometry, t: Tree, m: Dirs, d: nat, i: nat)
    requires SoundIn(t, m) && HousedIn(g, t, m, 0) && DirsNamed(g, t, m) && LiveIn(m, d, i) && 0 !in t.dirs
    requires g.rootCluster in t.dirs && t.dirs[g.rootCluster] == 0
    ensures Severed(t, m, g.rootCluster, d, i, Subtree(t, ClusterOf(m[d][i])))
  {
    hide TailUnused, DotsFirst, Live;
    var h := ClusterOf(m[d][i]);
    assert Linked(t, d, m[d][i]);
    forall e | e in Subtree(t, h) ensures h in t.dirs && t.dirs[h] <= t.dirs[e] {
      BelowIsDeeper(t, h, e);
    }
    forall e: nat, j: nat | LiveIn(m, e, j) && e !in Subtree(t, h) && (e, j) != (d, i) && IsDirectory(m[e][j])
      ensures ClusterOf(m[e][j]) !in Subtree(t, h)
    {
      assert Linked(t, e, m[e][j]);
    }
  }

  /** Where nothing hangs below it, it severs its own directory only. */
  lemma NothingSevered(g: Geometry, t: Tree, m: Dirs, d: nat, i: nat)
    requires SoundIn(t, m) && HousedIn(g, t, m, 0) && LiveIn(m, d, i) && 0 !in t.dirs
    requires g.rootCluster in t.dirs && t.dirs[g.rootCluster] == 0 && NothingBelow(m, ClusterOf(m[d][i]))
    ensures Severed(t, m, g.rootCluster, d, i, {ClusterOf(m[d][i])})
  {
    hide TailUnused, DotsFirst, Live;
    assert Linked(t, d, m[d][i]);
    forall e: nat, j: nat | LiveIn(m, e, j) && (e, j) != (d, i) && IsDirectory(m[e][j])
      ensures ClusterOf(m[e][j]) != ClusterOf(m[d][i])
    {
      assert Linked(t, e, m[e][j]);
    }
  }

  /** The directories left are still named. */
  lemma SubtreeNamed(g: Geometry, t: Tree, m: Dirs, d: nat, i: nat)
    requires DirsNamed(g, t, m) && LiveIn(m, d, i)
    ensures var h := ClusterOf(m[d][i]);
            DirsNamed(g, Shed(t, h, Subtree(t, h)), Put(m, d, i, DeletedSlot(m[d][i])) - Subtree(t, h))
  {
    hide Live, Put, IsDirectory;
    var h := ClusterOf(m[d][i]);
    var gone := Subtree(t, h);
    var t', m' := Shed(t, h, gone), Put(m, d, i, DeletedSlot(m[d][i])) - gone;
    forall e | e in t'.dirs && e != g.rootCluster
      ensures e in t'.home && LiveIn(m', t'.home[e].0, t'.home[e].1)
      ensures IsDirectory(m'[t'.home[e].0][t'.home[e].1]) && ClusterOf(m'[t'.home[e].0][t'.home[e].1]) == e
      ensures t'.home[e].0 in t'.dirs && t'.dirs[t'.home[e].0] < t'.dirs[e]
    {
      RemovedLive(m, d, i, gone, t.home[e].0, t.home[e].1);
    }
  }

  /** The chain of a live entry of a removed directory is left without a name. */
  lemma SubtreeUnnamed(g: Geometry, t: Tree, m: Dirs, d: nat, i: nat, j: nat)
    requires HousedIn(g, t, m, 0) && SoundIn(t, m) && LiveIn(m, d, i) && 0 !in t.chains
    requires g.rootCluster in t.dirs && t.dirs[g.rootCluster] == 0
    requires var h := ClusterOf(m[d][i]); LiveIn(m, h, j) && ClusterOf(m[h][j]) != 0
    ensures var h := ClusterOf(m[d][i]); var c := ClusterOf(m[h][j]);
            && c in t.chains && c != h && c != g.rootCluster
            && Unnamed(Put(m, d, i, DeletedSlot(m[d][i])) - Subtree(t, h), c)
  {
    hide Live, Put, IsDirectory, TailUnused, DotsFirst;
    var h := ClusterOf(m[d][i]);
    var gone, c := Subtree(t, h), ClusterOf(m[h][j]);
    assert Linked(t, d, m[d][i]) && Below(t, h, h);
    forall e: nat, k: nat | LiveIn(Put(m, d, i, DeletedSlot(m[d][i])) - gone, e, k)
      ensures ClusterOf((Put(m, d, i, DeletedSlot(m[d][i])) - gone)[e][k]) != c
    {
      RemovedLive(m, d, i, gone, e, k);
    }
  }

  /** Nothing the tree without h knows is touched while h's chain is being freed. */
  lemma BeingFreed(g: Geometry, w: View, t: Tree, h: nat, gone: set<nat>, j: View)
    requires Shape(g, w, t) && h in t.chains && Safe(g, w, Shed(t, h, gone))
    requires j.data == w.data && |j.fat| == |w.fat|
    requires forall c: nat | c < |w.fat| && c !in t.chains[h] :: j.fat[c] == w.fat[c]
    ensures Safe(g, j, Shed(t, h, gone))
    ensures forall x | Housed(g, w, Shed(t, h, gone), x) :: Housed(g, j, Shed(t, h, gone), x)
    ensures AllSlots(g, j, Shed(t, h, gone)) == AllSlots(g, w, Shed(t, h, gone))
  {
    hide AllSlots, Sound, IsChain, HousedIn;
    SafeFacts(g, w, Shed(t, h, gone));
    assert Confined(g, w, j, ClustersOf(t.chains[h]), {});
    assert AwayFromChains(Shed(t, h, gone), ClustersOf(t.chains[h]));
    Untouched(g, w, j, Shed(t, h, gone), ClustersOf(t.chains[h]), {});
  }

  /** When the whole chain is zeroed, every cluster is accounted for again. */
  lemma FreedAccounted(g: Geometry, w: View, t: Tree, h: nat, u: View)
    requires Shape(g, w, t) && Accounted(w, t) && h in t.chains && u.fat == Wiped(w.fat, t.chains[h])
    ensures Accounted(u, Without(t, h))
  {
    hide Shape, IsChain, Owned;
    var t' := Without(t, h);
    forall c ensures Owned(t', c) ==> Owned(t, c) {
      WithoutOwned(t, h, c);
    }
    forall c ensures Owned(t, c) ==> Owned(t', c) || c in t.chains[h] {
      WithoutOwned(t, h, c);
    }
    forall c | c in t.chains[h] ensures Owned(t, c) {
      OwnedBy(t, h, c);
    }
  }

  lemma WithoutOwned(t: Tree, h: nat, c: nat)
    ensures Owned(Without(t, h), c) ==> Owned(t, c)
    ensures Owned(t, c) && (h in t.chains ==> c !in t.chains[h]) ==> Owned(Without(t, h), c)
  {
    if Owned(Without(t, h), c) {
      var o :| o in Without(t, h).chains && c in Without(t, h).chains[o];
      OwnedBy(t, o, c);
    }
    if Owned(t, c) && (h in t.chains ==> c !in t.chains[h]) {
      var o :| o in t.chains && c in t.chains[o];
      OwnedBy(Without(t, h), o, c);
    }
  }

  // ---------------------------------------------------------------- moving

  /** Slot i of d is the first free one, slot i0 of d0 names a file, and s is an entry for the same chain and size. */
  ghost predicate Movable(t: Tree, m: Dirs, d0: nat, i0: nat, d: nat, i: nat, s: Slot) {
    && LiveIn(m, d0, i0) && !IsDirectory(m[d0][i0])
    && d in m && FirstFree(m[d], i)
    && Live(s) && !IsDirectory(s) && ClusterOf(s) == ClusterOf(m[d0][i0]) && SizeOf(s) == SizeOf(m[d0][i0])
  }

  /** The slots after the new entry is written and the old one deleted. */
  function Moved(m: Dirs, d0: nat, i0: nat, d: nat, i: nat, s: Slot): Dirs
    requires d0 in m && i0 < |m[d0]| && d in m && i < |m[d]|
  {
    Put(Put(m, d, i, s), d0, i0, DeletedSlot(Put(m, d, i, s)[d0][i0]))
  }

  /** With the new entry written and the old one still there, two entries name the chain: safe, if not yet housed. */
  lemma MovedHalf(g: Geometry, t: Tree, m: Dirs, d0: nat, i0: nat, d: nat, i: nat, s: Slot)
    requires SoundIn(t, m) && SizedIn(g, t, m) && Movable(t, m, d0, i0, d, i, s)
    ensures SoundIn(t, Put(m, d, i, s)) && SizedIn(g, t, Put(m, d, i, s))
    ensures (d0, i0) != (d, i) && Put(m, d, i, s)[d0][i0] == m[d0][i0]
  {
    hide Put, TailUnused, DotsFirst;
    assert Linked(t, d0, m[d0][i0]) && SizeFits(g, t, m[d0][i0]);
    assert Placeable(m[d], i, s);
    PutKeeps(m, d, i, s);
    LiveAfterPut(m, d, i, s, d0, i0);
    forall e: nat, j: nat | LiveIn(Put(m, d, i, s), e, j)
      ensures Linked(t, e, Put(m, d, i, s)[e][j]) && SizeFits(g, t, Put(m, d, i, s)[e][j])
    {
      LiveAfterPut(m, d, i, s, e, j);
    }
  }

  lemma MovedHoused(g: Geometry, t: Tree, m: Dirs, d0: nat, i0: nat, d: nat, i: nat, s: Slot)
    requires HousedIn(g, t, m, 0) && Movable(t, m, d0, i0, d, i, s) && 0 !in t.chains
    ensures (d0, i0) != (d, i)
    ensures HousedIn(g, At(t, ClusterOf(s), d, i), Moved(m, d0, i0, d, i, s), 0)
  {
    hide Put, Live, ClusterOf, FirstFree;
    FirstFreeIsFree(m[d], i);
    var h, half, m' := ClusterOf(s), Put(m, d, i, s), Moved(m, d0, i0, d, i, s);
    var t' := At(t, h, d, i);
    LiveAfterPut(m, d, i, s, d, i);
    forall e: nat, j: nat
      ensures LiveIn(m', e, j) <==> (e, j) != (d0, i0) && ((e, j) == (d, i) || LiveIn(m, e, j))
      ensures LiveIn(m', e, j) ==> m'[e][j] == if (e, j) == (d, i) then s else m[e][j]
    {
      LiveAfterPut(m, d, i, s, e, j);
      LiveAfterPut(half, d0, i0, DeletedSlot(half[d0][i0]), e, j);
      DeletedNotLive(half[d0][i0]);
    }
    forall k | k in t'.home
      ensures LiveIn(m', t'.home[k].0, t'.home[k].1) && ClusterOf(m'[t'.home[k].0][t'.home[k].1]) == k
    {
      if k != h || h == 0 {
        assert LiveIn(m, t.home[k].0, t.home[k].1);
      }
    }
  }

  lemma DeletedNotLive(s: Slot)
    ensures !Live(DeletedSlot(s))
  {
  }

  lemma FirstFreeIsFree(ss: seq<Slot>, i: nat)
    requires FirstFree(ss, i)
    ensures i < |ss| && !Live(ss[i])
  {
  }

  /** Renaming, step by step: after the new entry is written two entries share the chain, safely; after the old one is
      deleted the tree is as before with the file at its new place. */
  lemma Renamed(g: Geometry, v: View, t: Tree, m: Dirs, d0: nat, i0: nat, d: nat, i: nat, s: Slot)
    requires WellFormed(g, v, t) && m == AllSlots(g, v, t) && Movable(t, m, d0, i0, d, i, s)
    ensures d in m && i < |m[d]| && d0 in m && i0 < |m[d0]|
    ensures var half := WithSlot(g, v, t, d, i, s);
            && Safe(g, half, t) && AllSlots(g, half, t) == Put(m, d, i, s)
            && Put(m, d, i, s)[d0][i0] == m[d0][i0]
            && var done, t' := WithSlot(g, half, t, d0, i0, DeletedSlot(m[d0][i0])), At(t, ClusterOf(s), d, i);
               && WellFormed(g, done, t') && AllSlots(g, done, t') == Moved(m, d0, i0, d, i, s)
               && done.fat == v.fat
  {
    hide AllSlots, Shape, WithSlot, Confined, SoundIn, SizedIn, HousedIn, Accounted, At, OnlyHome, Put, ClusterOf, DeletedSlot,
         Live;
    FirstFreeIsFree(m[d], i);
    ShapeFacts(g, v, t);
    var half := WithSlot(g, v, t, d, i, s);
    WithSlotEffect(g, v, t, d, i, s);
    MovedHalf(g, t, m, d0, i0, d, i, s);
    SameFat(v, half, t);
    MovedHoused(g, t, m, d0, i0, d, i, s);
    HomeFree(g, half, t, ClusterOf(s), d, i);
    OldPlaceDeleted(g, half, t, Put(m, d, i, s), d0, i0, At(t, ClusterOf(s), d, i));
  }

  /** The second step: the old entry is deleted, and the chain has its home at the new one. */
  lemma OldPlaceDeleted(g: Geometry, v: View, t: Tree, m: Dirs, d0: nat, i0: nat, t': Tree)
    requires Safe(g, v, t) && Accounted(v, t) && m == AllSlots(g, v, t) && OnlyHome(t, t') && LiveIn(m, d0, i0)
    requires HousedIn(g, t', Put(m, d0, i0, DeletedSlot(m[d0][i0])), 0)
    ensures var w := WithSlot(g, v, t, d0, i0, DeletedSlot(m[d0][i0]));
            && WellFormed(g, w, t') && AllSlots(g, w, t') == Put(m, d0, i0, DeletedSlot(m[d0][i0])) && w.fat == v.fat
  {
    hide AllSlots, Shape, WithSlot, Confined, SoundIn, SizedIn, HousedIn, Accounted, Put, ClusterOf, DeletedSlot, Live;
    var s := DeletedSlot(m[d0][i0]);
    WithSlotEffect(g, v, t, d0, i0, s);
    DeletedPlaceable(m[d0], i0);
    DeletedNotLive(m[d0][i0]);
    DeadSound(g, t, m, d0, i0, s);
    SameButHome(g, WithSlot(g, v, t, d0, i0, s), t, t');
    SameFat(v, WithSlot(g, v, t, d0, i0, s), t);
    SameSound(g, t, t', Put(m, d0, i0, s));
  }

  lemma SameSound(g: Geometry, t: Tree, t': Tree, m: Dirs)
    requires SoundIn(t, m) && SizedIn(g, t, m) && OnlyHome(t, t')
    ensures SoundIn(t', m) && SizedIn(g, t', m)
  {
    hide TailUnused, DotsFirst, Live;
  }
}
