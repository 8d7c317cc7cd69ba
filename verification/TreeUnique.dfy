/** The tree is not a matter of choice: a view determines it. */
module TreeUnique {
  import opened Geometry
  import opened Volumes
  import opened Chains
  import opened Contents
  import opened Slots
  import opened Trees

  /** Every directory but the root is named by a live entry of a directory nearer the root. */
  ghost predicate DirsNamed(g: Geometry, t: Tree, m: Dirs) {
    forall e | e in t.dirs && e != g.rootCluster ::
      && e in t.home && LiveIn(m, t.home[e].0, t.home[e].1)
      && IsDirectory(m[t.home[e].0][t.home[e].1]) && ClusterOf(m[t.home[e].0][t.home[e].1]) == e
      && t.home[e].0 in t.dirs && t.dirs[t.home[e].0] < t.dirs[e]
  }

  lemma DirsAreNamed(g: Geometry, t: Tree, m: Dirs, x: nat)
    requires SoundIn(t, m) && HousedIn(g, t, m, x) && x !in t.dirs && t.dirs.Keys <= t.chains.Keys && 0 !in t.chains
    ensures DirsNamed(g, t, m)
  {
    hide TailUnused, DotsFirst, Live;
    forall e | e in t.dirs && e != g.rootCluster
      ensures e in t.home && LiveIn(m, t.home[e].0, t.home[e].1)
      ensures IsDirectory(m[t.home[e].0][t.home[e].1]) && ClusterOf(m[t.home[e].0][t.home[e].1]) == e
      ensures t.home[e].0 in t.dirs && t.dirs[t.home[e].0] < t.dirs[e]
    {
      assert e in t.chains && e in t.home;
      assert LiveIn(m, t.home[e].0, t.home[e].1);
      assert Linked(t, t.home[e].0, m[t.home[e].0][t.home[e].1]);
    }
  }

  /** Whatever tree is sound for the view has the directories that its names lead to, with the same slots. */
  lemma {:induction false} SameDir(g: Geometry, v: View, ta: Tree, tb: Tree, e: nat)
    requires Shape(g, v, ta) && DirsNamed(g, ta, AllSlots(g, v, ta)) && Sound(g, v, tb) && e in ta.dirs
    ensures e in tb.dirs && e in ta.chains && e in tb.chains && tb.chains[e] == ta.chains[e]
    ensures AllSlots(g, v, tb)[e] == AllSlots(g, v, ta)[e]
    decreases ta.dirs[e]
  {
    hide IsChain, ChainBytes, SlotsOf, Live, TailUnused, DotsFirst;
    if e != g.rootCluster {
      var d, i := ta.home[e].0, ta.home[e].1;
      SameDir(g, v, ta, tb, d);
      var m := AllSlots(g, v, tb);
      assert LiveIn(AllSlots(g, v, ta), d, i);
      assert LiveIn(m, d, i);
      assert Linked(tb, d, m[d][i]);
    }
    ChainUnique(v.fat, ta.chains[e], tb.chains[e]);
  }

  /** Two trees for which the same view is well formed have the same directories and the same chains. */
  lemma TreeDetermined(g: Geometry, v: View, ta: Tree, tb: Tree)
    requires WellFormed(g, v, ta) && WellFormed(g, v, tb)
    ensures ta.dirs.Keys == tb.dirs.Keys && ta.chains == tb.chains && ta.other == tb.other
    ensures AllSlots(g, v, ta) == AllSlots(g, v, tb)
  {
    hide AllSlots, Safe, Housed, Accounted, Sound, DirsNamed;
    WellFormedNamed(g, v, ta);
    WellFormedNamed(g, v, tb);
    SameSlots(g, v, ta, tb);
    SameHeads(g, v, ta, tb);
    SameHeads(g, v, tb, ta);
    assert ta.chains == tb.chains;
    SameForeign(v, ta, tb);
  }

  lemma SameForeign(v: View, ta: Tree, tb: Tree)
    requires Accounted(v, ta) && Accounted(v, tb) && ta.chains == tb.chains
    ensures ta.other == tb.other
  {
    assert forall c :: Owned(ta, c) == Owned(tb, c);
  }

  lemma SameHeads(g: Geometry, v: View, ta: Tree, tb: Tree)
    requires WellFormed(g, v, ta) && Sound(g, v, tb) && AllSlots(g, v, ta) == AllSlots(g, v, tb)
    ensures forall h | h in ta.chains :: h in tb.chains && tb.chains[h] == ta.chains[h]
  {
    hide AllSlots, Accounted, SizedIn, TailUnused, DotsFirst, Live;
    var m := AllSlots(g, v, ta);
    ShapeFacts(g, v, ta);
    ShapeFacts(g, v, tb);
    forall h | h in ta.chains ensures h in tb.chains && tb.chains[h] == ta.chains[h] {
      if h != g.rootCluster {
        var d, i := ta.home[h].0, ta.home[h].1;
        assert LiveIn(m, d, i) && ClusterOf(m[d][i]) == h;
        assert Linked(tb, d, m[d][i]);
      }
      ChainUnique(v.fat, ta.chains[h], tb.chains[h]);
    }
  }

  // ---------------------------------------------------------------- leaks

  /** No live entry names the chain at h. */
  ghost predicate Unnamed(m: Dirs, h: nat) {
    forall d: nat, i: nat | LiveIn(m, d, i) :: ClusterOf(m[d][i]) != h
  }

  lemma HeadNotFree(g: Geometry, v: View, t: Tree, h: nat)
    requires Shape(g, v, t) && h in t.chains
    ensures h < |v.fat| && v.fat[h] != 0 && h in t.chains[h] && OnVolume(v.fat, h)
  {
    ShapeFacts(g, v, t);
    PathStep(v.fat, t.chains[h], 0);
  }

  lemma SameSlots(g: Geometry, v: View, ta: Tree, tb: Tree)
    requires Sound(g, v, ta) && DirsNamed(g, ta, AllSlots(g, v, ta)) && Sound(g, v, tb) && DirsNamed(g, tb, AllSlots(g, v, tb))
    ensures AllSlots(g, v, ta) == AllSlots(g, v, tb)
  {
    hide AllSlots, SoundIn, Shape, DirsNamed;
    forall e | e in ta.dirs ensures e in tb.dirs && AllSlots(g, v, tb)[e] == AllSlots(g, v, ta)[e] {
      SameDir(g, v, ta, tb, e);
    }
    forall e | e in tb.dirs ensures e in ta.dirs {
      SameDir(g, v, tb, ta, e);
    }
  }

  lemma WellFormedNamed(g: Geometry, v: View, t: Tree)
    requires WellFormed(g, v, t)
    ensures Sound(g, v, t) && DirsNamed(g, t, AllSlots(g, v, t))
  {
    hide AllSlots, Accounted, SoundIn, SizedIn, HousedIn;
    ShapeFacts(g, v, t);
    DirsAreNamed(g, t, AllSlots(g, v, t), 0);
  }

  /** A chain that no live entry names is lost: in any tree for which the volume is well formed, its head is one of the
      entries that belong to no chain. */
  lemma LeakIsForGood(g: Geometry, v: View, ta: Tree, h: nat, tb: Tree)
    requires Sound(g, v, ta) && DirsNamed(g, ta, AllSlots(g, v, ta)) && WellFormed(g, v, tb)
    requires h in ta.chains && h != g.rootCluster && Unnamed(AllSlots(g, v, ta), h)
    ensures h in tb.other
  {
    hide AllSlots, SoundIn, SizedIn, IsChain, DirsNamed;
    WellFormedNamed(g, v, tb);
    SameSlots(g, v, ta, tb);
    HeadNotFree(g, v, ta, h);
    SameHeads(g, v, tb, ta);
    assert !Owned(tb, h);
  }

  /** So no tree with the same foreign entries fits such a volume. */
  lemma NoSuchTree(g: Geometry, v: View, ta: Tree, h: nat)
    requires Sound(g, v, ta) && DirsNamed(g, ta, AllSlots(g, v, ta))
    requires h in ta.chains && h != g.rootCluster && Unnamed(AllSlots(g, v, ta), h) && h !in ta.other
    ensures !exists tb :: WellFormed(g, v, tb) && tb.other == ta.other
  {
    hide WellFormed, Sound, DirsNamed, Unnamed;
    forall tb | WellFormed(g, v, tb) ensures tb.other != ta.other {
      LeakIsForGood(g, v, ta, h, tb);
    }
  }

  /** Everything is in order, except that no entry names the file's chain at x. */
  ghost predicate Orphaned(g: Geometry, v: View, t: Tree, x: nat) {
    Safe(g, v, t) && Housed(g, v, t, x) && Accounted(v, t) && x in t.chains && x !in t.dirs
  }

  /** Such a chain is lost: no tree that counts no cluster as foreign that was not fits the volume. */
  lemma OrphanIsLost(g: Geometry, v: View, t: Tree, x: nat)
    requires Orphaned(g, v, t, x)
    ensures !exists tb :: WellFormed(g, v, tb) && tb.other == t.other
  {
    hide AllSlots, Accounted, SoundIn, SizedIn, IsChain, DirsNamed, Unnamed;
    var m := AllSlots(g, v, t);
    ShapeFacts(g, v, t);
    DirsAreNamed(g, t, m, x);
    HousedUnnamed(g, t, m, x);
    HeadNotForeign(g, v, t, x);
    NoSuchTree(g, v, t, x);
  }

  lemma HousedUnnamed(g: Geometry, t: Tree, m: Dirs, x: nat)
    requires HousedIn(g, t, m, x) && x != 0
    ensures Unnamed(m, x)
  {
    hide Live, ClusterOf;
  }

  lemma HeadNotForeign(g: Geometry, v: View, t: Tree, c: nat)
    requires Shape(g, v, t) && Accounted(v, t) && c in t.chains
    ensures c !in t.other
  {
    hide IsChain, Shape;
    HeadNotFree(g, v, t, c);
    assert Owned(t, c);
  }
}
