/** A volume that is in order but for what one slot says: a file's entry whose first cluster and size are yet to be recorded. */
module LooseSlots {
  import opened Bytes
  import opened Geometry
  import opened Volumes
  import opened Chains
  import opened Contents
  import opened Slots
  import opened Trees
  import opened TreeSteps
  import opened TreeChains
  import opened TreeUnique
  import opened TreeNames

  /** Slot i of d is a live file entry. */
  ghost predicate FileEntry(m: Dirs, d: nat, i: nat) {
    LiveIn(m, d, i) && !IsDirectory(m[d][i])
  }

  /** Every other slot names what is there, of a size that fits. */
  ghost predicate SoundBut(g: Geometry, t: Tree, m: Dirs, d: nat, i: nat) {
    && m.Keys == t.dirs.Keys
    && (forall e | e in m :: TailUnused(m[e]) && DotsFirst(m[e]) && |m[e]| <= U32)
    && (forall e: nat, j: nat | LiveIn(m, e, j) && (e, j) != (d, i) :: Linked(t, e, m[e][j]) && SizeFits(g, t, m[e][j]))
  }

  /** Every chain but the root's and x's is named by one of the other slots, and names it back. */
  ghost predicate HousedBut(g: Geometry, t: Tree, m: Dirs, x: nat, d: nat, i: nat) {
    && (forall h | h in t.chains && h != g.rootCluster && h != x :: h in t.home)
    && (forall h | h in t.home ::
          && h in t.chains && h != g.rootCluster && h != x && t.home[h] != (d, i)
          && LiveIn(m, t.home[h].0, t.home[h].1)
          && ClusterOf(m[t.home[h].0][t.home[h].1]) == h)
    && (forall e: nat, j: nat | LiveIn(m, e, j) && (e, j) != (d, i) && ClusterOf(m[e][j]) != 0 ::
          ClusterOf(m[e][j]) in t.home && t.home[ClusterOf(m[e][j])] == (e, j))
  }

  /** All is in order but for slot i of d, and nobody names the chain at x (if there is one). */
  ghost predicate InOrderBut(g: Geometry, v: View, t: Tree, x: nat, d: nat, i: nat) {
    && Shape(g, v, t) && Accounted(v, t)
    && SoundBut(g, t, AllSlots(g, v, t), d, i) && HousedBut(g, t, AllSlots(g, v, t), x, d, i)
    && FileEntry(AllSlots(g, v, t), d, i)
  }

  /** t without a home for h. */
  function Unhomed(t: Tree, h: nat): Tree {
    t.(home := t.home - {h})
  }

  // ---------------------------------------------------------------- chains grow

  lemma GrewSoundBut(g: Geometry, t: Tree, t': Tree, m: Dirs, d: nat, i: nat)
    requires g.Valid() && SoundBut(g, t, m, d, i) && t'.dirs == t.dirs && 0 !in t'.chains && 0 !in t.chains
    requires forall h | h in t.chains :: h in t'.chains && |t.chains[h]| <= |t'.chains[h]|
    ensures SoundBut(g, t', m, d, i)
  {
    hide TailUnused, DotsFirst, Live;
    forall e: nat, j: nat | LiveIn(m, e, j) && (e, j) != (d, i) ensures Linked(t', e, m[e][j]) && SizeFits(g, t', m[e][j]) {
      var h := ClusterOf(m[e][j]);
      assert Linked(t, e, m[e][j]) && SizeFits(g, t, m[e][j]);
      if h in t.chains {
        TimesMonotone(|t.chains[h]|, |t'.chains[h]|, g.sectorsPerCluster);
      }
    }
  }

  lemma GrewBut(g: Geometry, v: View, t: Tree, w: View, t': Tree, y: nat, x: nat, d: nat, i: nat)
    requires InOrderBut(g, v, t, y, d, i) && Grew(g, v, t, w, t') && Accounted(w, t')
    requires (y == 0 || y == x) && x !in t.home && forall h | h in t'.chains :: h in t.chains || h == x
    ensures InOrderBut(g, w, t', x, d, i)
  {
    hide AllSlots, Shape, Accounted, SoundBut, FileEntry, Live, ClusterOf;
    ShapeFacts(g, v, t);
    GrewSoundBut(g, t, t', AllSlots(g, v, t), d, i);
  }

  // ---------------------------------------------------------------- where one comes from

  /** A file whose entry names its chain, that entry aside. */
  lemma NamedBut(g: Geometry, v: View, t: Tree, h: nat, d: nat, i: nat)
    requires Safe(g, v, t) && Housed(g, v, t, 0) && Accounted(v, t) && FileEntry(AllSlots(g, v, t), d, i)
    requires ClusterOf(AllSlots(g, v, t)[d][i]) == h != 0
    ensures InOrderBut(g, v, Unhomed(t, h), h, d, i)
  {
    hide AllSlots, Shape, Accounted, SoundIn, SizedIn, HousedIn, SoundBut, HousedBut, FileEntry, ClusterOf;
    SameButHome(g, v, t, Unhomed(t, h));
    ShapeFacts(g, v, t);
    EntryLive(AllSlots(g, v, t), d, i);
    AsideSound(g, t, AllSlots(g, v, t), Unhomed(t, h), d, i);
    AsideHoused(g, t, AllSlots(g, v, t), h, d, i);
  }

  lemma AsideSound(g: Geometry, t: Tree, m: Dirs, t': Tree, d: nat, i: nat)
    requires SoundIn(t, m) && SizedIn(g, t, m) && OnlyHome(t, t')
    ensures SoundBut(g, t', m, d, i)
  {
    hide TailUnused, DotsFirst, Live;
  }

  lemma AsideHoused(g: Geometry, t: Tree, m: Dirs, h: nat, d: nat, i: nat)
    requires HousedIn(g, t, m, 0) && LiveIn(m, d, i) && ClusterOf(m[d][i]) == h && h != 0 && 0 !in t.chains
    ensures HousedBut(g, Unhomed(t, h), m, h, d, i)
  {
    hide Live, ClusterOf;
    assert t.home[h] == (d, i);
  }

  /** A file whose entry has no cluster; a chain x may wait to be named. */
  lemma EmptyBut(g: Geometry, v: View, t: Tree, x: nat, d: nat, i: nat)
    requires Safe(g, v, t) && Housed(g, v, t, x) && Accounted(v, t) && FileEntry(AllSlots(g, v, t), d, i)
    requires ClusterOf(AllSlots(g, v, t)[d][i]) == 0
    ensures InOrderBut(g, v, t, x, d, i)
  {
    hide AllSlots, Shape, Accounted, TailUnused, DotsFirst, Live;
    ShapeFacts(g, v, t);
  }

  // ---------------------------------------------------------------- and how it ends

  lemma RecordedSound(g: Geometry, t: Tree, m: Dirs, h: nat, d: nat, i: nat, s: Slot)
    requires SoundBut(g, t, m, d, i) && FileEntry(m, d, i) && Placeable(m[d], i, s) && Live(s) && !IsDirectory(s)
    requires ClusterOf(s) == h && h in t.chains && h !in t.dirs && SizeOf(s) <= 512 * Sectors(g, |t.chains[h]|)
    ensures SoundIn(At(t, h, d, i), Put(m, d, i, s)) && SizedIn(g, At(t, h, d, i), Put(m, d, i, s))
  {
    hide Placeable, TailUnused, DotsFirst, Put, Live;
    PutKeeps(m, d, i, s);
    forall e: nat, j: nat | LiveIn(Put(m, d, i, s), e, j)
      ensures Linked(t, e, Put(m, d, i, s)[e][j]) && SizeFits(g, t, Put(m, d, i, s)[e][j])
    {
      LiveAfterPut(m, d, i, s, e, j);
    }
  }

  lemma RecordedHoused(g: Geometry, t: Tree, m: Dirs, h: nat, d: nat, i: nat, s: Slot)
    requires HousedBut(g, t, m, h, d, i) && LiveIn(m, d, i) && Live(s) && ClusterOf(s) == h
    requires h in t.chains && h != 0 && h != g.rootCluster && 0 !in t.chains
    ensures HousedIn(g, At(t, h, d, i), Put(m, d, i, s), 0)
  {
    hide Put, Live, ClusterOf;
    var t', m' := At(t, h, d, i), Put(m, d, i, s);
    LiveAfterPut(m, d, i, s, d, i);
    forall k | k in t'.home
      ensures LiveIn(m', t'.home[k].0, t'.home[k].1) && ClusterOf(m'[t'.home[k].0][t'.home[k].1]) == k
    {
      if k != h {
        LiveAfterPut(m, d, i, s, t.home[k].0, t.home[k].1);
      }
    }
    forall e: nat, j: nat | LiveIn(m', e, j) && ClusterOf(m'[e][j]) != 0
      ensures ClusterOf(m'[e][j]) in t'.home && t'.home[ClusterOf(m'[e][j])] == (e, j)
    {
      LiveAfterPut(m, d, i, s, e, j);
    }
  }

  lemma EntryPlaceable(m: Dirs, d: nat, i: nat, s: Slot)
    requires FileEntry(m, d, i) && Live(s)
    ensures d in m && i < |m[d]| && Placeable(m[d], i, s)
  {
  }

  /** Recording the chain at h in that slot puts all in order, whatever the slot said before. */
  lemma RecordedWell(g: Geometry, v: View, t: Tree, h: nat, d: nat, i: nat, s: Slot)
    requires InOrderBut(g, v, t, h, d, i) && h in t.chains && h !in t.dirs && Live(s) && !IsDirectory(s)
    requires ClusterOf(s) == h && SizeOf(s) <= 512 * Sectors(g, |t.chains[h]|)
    ensures d in t.dirs && i < |AllSlots(g, v, t)[d]|
    ensures var w := WithSlot(g, v, t, d, i, s);
            && WellFormed(g, w, At(t, h, d, i)) && w.fat == v.fat
            && AllSlots(g, w, At(t, h, d, i)) == Put(AllSlots(g, v, t), d, i, s)
  {
    hide AllSlots, Shape, WithSlot, SoundBut, HousedBut, SoundIn, SizedIn, HousedIn, Accounted, FileEntry, Put, ClusterOf,
         SizeOf, Live, IsDirectory, BytesAt, Placeable, At;
    var m := AllSlots(g, v, t);
    EntryPlaceable(m, d, i, s);
    ShapeFacts(g, v, t);
    assert LiveIn(m, d, i) by { EntryLive(m, d, i); }
    RecordedSound(g, t, m, h, d, i, s);
    RecordedHoused(g, t, m, h, d, i, s);
    WithSlotEffect(g, v, t, d, i, s);
    var w := WithSlot(g, v, t, d, i, s);
    HomeFree(g, w, t, h, d, i);
    SameFat(v, w, t);
  }

  lemma EntryLive(m: Dirs, d: nat, i: nat)
    requires FileEntry(m, d, i)
    ensures LiveIn(m, d, i) && !IsDirectory(m[d][i])
  {
  }

  // ---------------------------------------------------------------- when all is in order as it stands

  /** The slot names the chain that waits (or nothing if there is none), with a size that fits. */
  ghost predicate Settling(g: Geometry, t: Tree, s: Slot, x: nat) {
    ClusterOf(s) == x && SizeFits(g, t, s)
  }

  lemma NamedButOne(g: Geometry, t: Tree, m: Dirs, x: nat, d: nat, i: nat)
    requires SoundBut(g, t, m, d, i) && HousedBut(g, t, m, x, d, i) && x !in t.dirs && t.dirs.Keys <= t.chains.Keys && 0 !in t.chains
    ensures DirsNamed(g, t, m)
  {
    hide TailUnused, DotsFirst, Live;
    forall e | e in t.dirs && e != g.rootCluster
      ensures e in t.home && LiveIn(m, t.home[e].0, t.home[e].1)
      ensures IsDirectory(m[t.home[e].0][t.home[e].1]) && ClusterOf(m[t.home[e].0][t.home[e].1]) == e
      ensures t.home[e].0 in t.dirs && t.dirs[t.home[e].0] < t.dirs[e]
    {
      assert e in t.chains && e in t.home;
      assert LiveIn(m, t.home[e].0, t.home[e].1);
      assert Linked(t, t.home[e].0, m[t.home[e].0][t.home[e].1]);
    }
  }

  /** A directory of a tree that fits the volume is one of t, since the loose slot is a file's. */
  lemma {:induction false} DirOf(g: Geometry, v: View, t: Tree, d: nat, i: nat, tb: Tree, e: nat)
    requires Shape(g, v, t) && SoundBut(g, t, AllSlots(g, v, t), d, i) && FileEntry(AllSlots(g, v, t), d, i)
    requires Shape(g, v, tb) && DirsNamed(g, tb, AllSlots(g, v, tb)) && e in tb.dirs
    ensures e in t.dirs && e in tb.chains && e in t.chains && t.chains[e] == tb.chains[e]
    ensures AllSlots(g, v, t)[e] == AllSlots(g, v, tb)[e]
    decreases tb.dirs[e]
  {
    hide IsChain, ChainBytes, SlotsOf, Live, TailUnused, DotsFirst;
    if e != g.rootCluster {
      var e0, i0 := tb.home[e].0, tb.home[e].1;
      DirOf(g, v, t, d, i, tb, e0);
      var m := AllSlots(g, v, t);
      assert LiveIn(AllSlots(g, v, tb), e0, i0);
      assert LiveIn(m, e0, i0);
      assert Linked(t, e0, m[e0][i0]);
    }
    ChainUnique(v.fat, tb.chains[e], t.chains[e]);
  }

  /** Such a tree has the same directories with the same slots. */
  lemma SlotsBut(g: Geometry, v: View, t: Tree, x: nat, d: nat, i: nat, tb: Tree)
    requires InOrderBut(g, v, t, x, d, i) && x !in t.dirs && WellFormed(g, v, tb)
    ensures Shape(g, v, t) && Shape(g, v, tb) && AllSlots(g, v, tb) == AllSlots(g, v, t)
    ensures forall e | e in t.dirs :: e in tb.dirs && e in t.chains && e in tb.chains && t.chains[e] == tb.chains[e]
    ensures t.dirs.Keys == tb.dirs.Keys
  {
    hide AllSlots, Shape, SoundBut, HousedBut, Accounted, Housed, SoundIn, SizedIn, FileEntry, DirsNamed;
    WellFormedNamed(g, v, tb);
    ShapeFacts(g, v, t);
    NamedButOne(g, t, AllSlots(g, v, t), x, d, i);
    forall e | e in t.dirs
      ensures e in tb.dirs && e in t.chains && e in tb.chains && t.chains[e] == tb.chains[e]
      ensures AllSlots(g, v, tb)[e] == AllSlots(g, v, t)[e]
    {
      SameDir(g, v, t, tb, e);
    }
    forall e | e in tb.dirs ensures e in t.dirs {
      DirOf(g, v, t, d, i, tb, e);
    }
  }

  /** A chain that another slot names is a chain of both trees, if it is of one. */
  lemma OthersChain(g: Geometry, v: View, t: Tree, m: Dirs, d: nat, i: nat, tb: Tree, e: nat, j: nat)
    requires Shape(g, v, t) && Shape(g, v, tb) && SoundBut(g, t, m, d, i) && SoundIn(tb, m)
    requires LiveIn(m, e, j) && (e, j) != (d, i) && ClusterOf(m[e][j]) != 0
    ensures var k := ClusterOf(m[e][j]); k in t.chains && k in tb.chains && t.chains[k] == tb.chains[k]
  {
    hide IsChain, TailUnused, DotsFirst, Live, ClusterOf;
    assert Linked(t, e, m[e][j]) && Linked(tb, e, m[e][j]);
    ShapeFacts(g, v, t);
    ShapeFacts(g, v, tb);
    ChainUnique(v.fat, t.chains[ClusterOf(m[e][j])], tb.chains[ClusterOf(m[e][j])]);
  }

  /** What one tree owns belongs to a chain of the other, if both count the same clusters as foreign. */
  lemma OwnedToo(g: Geometry, v: View, ta: Tree, tb: Tree, k: nat) returns (h: nat)
    requires Shape(g, v, ta) && Accounted(v, ta) && Accounted(v, tb) && tb.other == ta.other && k in ta.chains
    ensures h in tb.chains && k in tb.chains[h]
  {
    hide Shape;
    HeadNotFree(g, v, ta, k);
    HeadNotForeign(g, v, ta, k);
    assert Owned(tb, k);
    h :| h in tb.chains && k in tb.chains[h];
  }

  /** The waiting chain is one that the loose slot's chain runs through. */
  lemma WaitingOwned(g: Geometry, v: View, t: Tree, m: Dirs, x: nat, d: nat, i: nat, tb: Tree)
    requires Shape(g, v, t) && Shape(g, v, tb) && Accounted(v, t) && Accounted(v, tb) && tb.other == t.other
    requires SoundBut(g, t, m, d, i) && HousedBut(g, t, m, x, d, i) && SoundIn(tb, m) && HousedIn(g, tb, m, 0) && LiveIn(m, d, i)
    requires x in t.chains && x !in t.dirs && g.rootCluster in tb.chains && tb.chains[g.rootCluster] == t.chains[g.rootCluster]
    requires g.rootCluster in t.dirs && g.rootCluster in t.chains
    ensures ClusterOf(m[d][i]) in tb.chains && x in tb.chains[ClusterOf(m[d][i])]
  {
    hide TailUnused, DotsFirst, Live, ClusterOf, IsChain;
    ShapeFacts(g, v, t);
    ShapeFacts(g, v, tb);
    HeadNotFree(g, v, t, x);
    var k := OwnedToo(g, v, t, tb, x);
    if k != g.rootCluster {
      var e, j := tb.home[k].0, tb.home[k].1;
      assert LiveIn(m, e, j) && ClusterOf(m[e][j]) == k;
      if (e, j) != (d, i) {
        OthersChain(g, v, t, m, d, i, tb, e, j);
        assert false;
      }
    }
  }

  lemma TailChain(fat: seq<nat>, ch: seq<nat>, k: nat)
    requires IsChain(fat, ch) && k < |ch|
    ensures IsChain(fat, ch[k..]) && (k > 0 ==> ch[0] !in ch[k..])
  {
    forall j | 0 <= j < |ch| - k - 1 ensures LinkOf(fat, ch[k..][j]) == To(ch[k..][j + 1]) {
      PathStep(fat, ch, k + j);
    }
  }

  /** If the loose slot names a chain at all it is the waiting one. */
  lemma NamesWaiting(g: Geometry, v: View, t: Tree, m: Dirs, x: nat, d: nat, i: nat, tb: Tree, c: nat)
    requires Shape(g, v, t) && Shape(g, v, tb) && Accounted(v, t) && Accounted(v, tb) && tb.other == t.other
    requires SoundBut(g, t, m, d, i) && HousedBut(g, t, m, x, d, i) && SoundIn(tb, m) && HousedIn(g, tb, m, 0) && FileEntry(m, d, i)
    requires g.rootCluster in tb.chains && g.rootCluster in t.chains && tb.chains[g.rootCluster] == t.chains[g.rootCluster]
    requires c == ClusterOf(m[d][i]) && c != 0 && g.rootCluster in tb.dirs && (x in t.chains ==> c in tb.chains && x in tb.chains[c])
    ensures c == x
  {
    hide TailUnused, DotsFirst, Live, ClusterOf, IsChain, IsDirectory;
    EntryLive(m, d, i);
    assert Linked(tb, d, m[d][i]);
    ShapeFacts(g, v, t);
    ShapeFacts(g, v, tb);
    var k := OwnedToo(g, v, tb, t, c);
    HeadNotFree(g, v, tb, c);
    if k == x && c != x {
      var p :| 0 <= p < |t.chains[x]| && t.chains[x][p] == c;
      TailChain(v.fat, t.chains[x], p);
      ChainUnique(v.fat, t.chains[x][p..], tb.chains[c]);
      assert false;
    } else if k != x {
      if k != g.rootCluster {
        OthersChain(g, v, t, m, d, i, tb, t.home[k].0, t.home[k].1);
      }
      assert false;
    }
  }

  lemma SettledWell(g: Geometry, v: View, t: Tree, x: nat, d: nat, i: nat)
    requires InOrderBut(g, v, t, x, d, i) && (x != 0 ==> x in t.chains && x !in t.dirs)
    requires Settling(g, t, AllSlots(g, v, t)[d][i], x)
    ensures WellFormed(g, v, At(t, x, d, i)) && At(t, x, d, i).other == t.other
  {
    hide AllSlots, Shape, Accounted, SoundBut, HousedBut, FileEntry, ClusterOf, SizeOf, Live, IsDirectory, Put;
    var m := AllSlots(g, v, t);
    EntryLive(m, d, i);
    ShapeFacts(g, v, t);
    if x != 0 {
      EntryPlaceable(m, d, i, m[d][i]);
      PutSame(m, d, i);
      RecordedSound(g, t, m, x, d, i, m[d][i]);
      RecordedHoused(g, t, m, x, d, i, m[d][i]);
      HomeFree(g, v, t, x, d, i);
    } else {
      SettledEmpty(g, t, m, d, i);
    }
  }

  lemma PutSame(m: Dirs, d: nat, i: nat)
    requires d in m && i < |m[d]|
    ensures Put(m, d, i, m[d][i]) == m
  {
    assert m[d][i := m[d][i]] == m[d];
  }

  lemma SettledEmpty(g: Geometry, t: Tree, m: Dirs, d: nat, i: nat)
    requires SoundBut(g, t, m, d, i) && HousedBut(g, t, m, 0, d, i) && FileEntry(m, d, i) && Settling(g, t, m[d][i], 0)
    ensures SoundIn(t, m) && SizedIn(g, t, m) && HousedIn(g, t, m, 0)
  {
    hide TailUnused, DotsFirst, Live, IsDirectory, ClusterOf, SizeOf;
  }

  lemma SettledSlot(g: Geometry, v: View, t: Tree, x: nat, d: nat, i: nat, tb: Tree)
    requires InOrderBut(g, v, t, x, d, i) && (x != 0 ==> x in t.chains && x !in t.dirs)
    requires WellFormed(g, v, tb) && tb.other == t.other
    ensures Settling(g, t, AllSlots(g, v, t)[d][i], x)
  {
    hide AllSlots, Shape, Accounted, SoundBut, HousedBut, HousedIn, FileEntry, ClusterOf, SizeOf, Live, IsDirectory, IsChain,
         TailUnused, DotsFirst;
    var m := AllSlots(g, v, t);
    EntryLive(m, d, i);
    ShapeFacts(g, v, t);
    ShapeFacts(g, v, tb);
    SlotsBut(g, v, t, x, d, i, tb);
    if x in t.chains {
      WaitingOwned(g, v, t, m, x, d, i, tb);
    }
    if ClusterOf(m[d][i]) != 0 {
      NamesWaiting(g, v, t, m, x, d, i, tb, ClusterOf(m[d][i]));
      ChainUnique(v.fat, t.chains[x], tb.chains[x]);
    }
    assert LiveIn(m, d, i) && SizeFits(g, tb, m[d][i]);
  }

  /** As it stands such a volume is well formed for some tree that counts the same clusters as foreign if and only if the slot
      happens to name the chain that waits, with a size that fits; and if none waits, no chain. */
  lemma LooseSettled(g: Geometry, v: View, t: Tree, x: nat, d: nat, i: nat)
    requires InOrderBut(g, v, t, x, d, i) && (x != 0 ==> x in t.chains && x !in t.dirs)
    ensures FileEntry(AllSlots(g, v, t), d, i) && Shape(g, v, t)
    ensures (exists tb :: WellFormed(g, v, tb) && tb.other == t.other) <==> Settling(g, t, AllSlots(g, v, t)[d][i], x)
  {
    hide InOrderBut, WellFormed, Settling, At, AllSlots, Shape, FileEntry;
    LooseFacts(g, v, t, x, d, i);
    forall tb | WellFormed(g, v, tb) && tb.other == t.other ensures Settling(g, t, AllSlots(g, v, t)[d][i], x) {
      SettledSlot(g, v, t, x, d, i, tb);
    }
    if Settling(g, t, AllSlots(g, v, t)[d][i], x) {
      SettledWell(g, v, t, x, d, i);
    }
  }

  lemma LooseFacts(g: Geometry, v: View, t: Tree, x: nat, d: nat, i: nat)
    requires InOrderBut(g, v, t, x, d, i)
    ensures FileEntry(AllSlots(g, v, t), d, i) && Shape(g, v, t) && d in AllSlots(g, v, t) && i < |AllSlots(g, v, t)[d]|
  {
    hide AllSlots, Shape, Accounted, SoundBut, HousedBut, Live, IsDirectory;
  }
}
