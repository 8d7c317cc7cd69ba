/** The tree of names a view holds, and the conditions every operation keeps. */
module Trees {
  import opened Bytes
  import opened Geometry
  import opened Volumes
  import opened Chains
  import opened Allocation
  import opened Contents
  import opened FileRead
  import opened Slots

  /** chains: every chain by its first cluster. dirs: which heads are directories, with their depth below the root.
      home: the directory and slot that name each head. other: non-zero entries that belong to no chain. */
  datatype Tree = Tree(
    chains: map<nat, seq<nat>>,
    dirs: map<nat, nat>,
    home: map<nat, (nat, nat)>,
    other: map<nat, nat>)

  /** The slots of every directory, by its first cluster. */
  type Dirs = map<nat, seq<Slot>>

  predicate Owned(t: Tree, c: nat) {
    exists h | h in t.chains :: c in t.chains[h]
  }

  // ---------------------------------------------------------------- the view's side

  /** The chains are disjoint, acyclic, on the volume and end in an end-of-chain mark; directories are among them. */
  ghost predicate Shape(g: Geometry, v: View, t: Tree) {
    && g.Valid() && Fitted(g, v)
    && (forall h | h in t.chains :: IsChain(v.fat, t.chains[h]) && t.chains[h][0] == h)
    && (forall h1, h2, c | h1 in t.chains && h2 in t.chains && c in t.chains[h1] && c in t.chains[h2] :: h1 == h2)
    && (forall d | d in t.dirs :: d in t.chains)
    && g.rootCluster in t.dirs && t.dirs[g.rootCluster] == 0
  }

  ghost function BytesAt(g: Geometry, v: View, t: Tree, h: nat): (b: seq<byte>)
    requires Shape(g, v, t) && h in t.chains
    ensures |b| == 512 * Sectors(g, |t.chains[h]|)
  {
    ChainPlaced(g, v, t.chains[h]);
    ChainBytes(g, v, t.chains[h])
  }

  ghost function AllSlots(g: Geometry, v: View, t: Tree): (m: Dirs)
    requires Shape(g, v, t)
    ensures m.Keys == t.dirs.Keys
    ensures forall d | d in m :: |m[d]| == 16 * Sectors(g, |t.chains[d]|)
  {
    map d | d in t.dirs :: SlotsOf(BytesAt(g, v, t, d))
  }

  // ---------------------------------------------------------------- the directories' side

  ghost predicate LiveIn(m: Dirs, d: nat, i: nat) {
    d in m && i < |m[d]| && Live(m[d][i])
  }

  /** What slot s of directory d names is there: a directory one level down, a file's chain, or nothing at all. */
  ghost predicate Linked(t: Tree, d: nat, s: Slot) {
    var h := ClusterOf(s);
    if IsDirectory(s) then h in t.dirs && d in t.dirs && t.dirs[h] == t.dirs[d] + 1
    else h == 0 || (h in t.chains && h !in t.dirs)
  }

  /** The size in slot s fits the chain it names. */
  ghost predicate SizeFits(g: Geometry, t: Tree, s: Slot) {
    !IsDirectory(s) ==>
      if ClusterOf(s) in t.chains then SizeOf(s) <= 512 * Sectors(g, |t.chains[ClusterOf(s)]|) else SizeOf(s) == 0
  }

  ghost predicate SoundIn(t: Tree, m: Dirs) {
    && m.Keys == t.dirs.Keys
    && (forall d | d in m :: TailUnused(m[d]) && DotsFirst(m[d]) && |m[d]| <= U32)
    && (forall d: nat, i: nat | LiveIn(m, d, i) :: Linked(t, d, m[d][i]))
  }

  /** The 32-bit running index of a scan reaches every slot. */
  lemma SlotsFit(t: Tree, m: Dirs, d: nat)
    requires SoundIn(t, m) && d in m
    ensures |m[d]| <= U32
  {
  }

  ghost predicate SizedIn(g: Geometry, t: Tree, m: Dirs) {
    forall d: nat, i: nat | LiveIn(m, d, i) :: SizeFits(g, t, m[d][i])
  }

  /** Every chain but the root's and x's has exactly one live entry, and every live entry with a first cluster has its
      chain. (0 heads no chain, so x == 0 makes no exception.) */
  ghost predicate HousedIn(g: Geometry, t: Tree, m: Dirs, x: nat) {
    && (forall h | h in t.chains && h != g.rootCluster && h != x :: h in t.home)
    && (forall h | h in t.home ::
          && h in t.chains && h != g.rootCluster && h != x
          && LiveIn(m, t.home[h].0, t.home[h].1)
          && ClusterOf(m[t.home[h].0][t.home[h].1]) == h)
    && (forall d: nat, i: nat | LiveIn(m, d, i) && ClusterOf(m[d][i]) != 0 ::
          ClusterOf(m[d][i]) in t.home && t.home[ClusterOf(m[d][i])] == (d, i))
  }

  // ---------------------------------------------------------------- the invariants

  /** No live entry reaches a free, bad or foreign cluster. */
  ghost predicate Sound(g: Geometry, v: View, t: Tree) {
    Shape(g, v, t) && SoundIn(t, AllSlots(g, v, t))
  }

  /** Moreover every entry's size fits its chain. */
  ghost predicate Safe(g: Geometry, v: View, t: Tree) {
    Sound(g, v, t) && SizedIn(g, t, AllSlots(g, v, t))
  }

  ghost predicate Housed(g: Geometry, v: View, t: Tree, x: nat) {
    Shape(g, v, t) && HousedIn(g, t, AllSlots(g, v, t), x)
  }

  /** Every entry outside the chains is free, or is one of `other` and has that value still. */
  ghost predicate Accounted(v: View, t: Tree) {
    && (forall c: nat | c in t.other :: OnVolume(v.fat, c) && !Owned(t, c) && t.other[c] != 0 && v.fat[c] == t.other[c])
    && (forall c: nat | OnVolume(v.fat, c) && !Owned(t, c) && c !in t.other :: v.fat[c] == 0)
  }

  /** The invariant between operations. */
  ghost predicate WellFormed(g: Geometry, v: View, t: Tree) {
    Safe(g, v, t) && Housed(g, v, t, 0) && Accounted(v, t)
  }

  /** What every block boundary must satisfy, whatever the tree. */
  ghost predicate Consistent(g: Geometry, v: View) {
    exists t :: Safe(g, v, t)
  }

  lemma ShapeFacts(g: Geometry, v: View, t: Tree)
    requires Shape(g, v, t)
    ensures g.Valid() && Fitted(g, v) && g.rootCluster in t.dirs
    ensures forall d | d in t.dirs :: d in t.chains
    ensures forall h | h in t.chains :: IsChain(v.fat, t.chains[h]) && t.chains[h][0] == h && g.InRange(h)
  {
    forall h | h in t.chains ensures g.InRange(h) {
      PathStep(v.fat, t.chains[h], 0);
    }
  }

  lemma OneClusterSlots(g: Geometry, v: View, t: Tree, d: nat)
    requires Shape(g, v, t) && d in t.dirs && |t.chains[d]| == 1
    ensures |AllSlots(g, v, t)[d]| <= U32
  {
    hide IsChain, BytesAt;
    TimesIsProduct(1, g.sectorsPerCluster);
  }

  lemma SafeFacts(g: Geometry, v: View, t: Tree)
    requires Safe(g, v, t)
    ensures Shape(g, v, t) && Sound(g, v, t) && Consistent(g, v)
  {
  }

  // ---------------------------------------------------------------- frames

  ghost predicate AwayFromChains(t: Tree, entries: set<nat>) {
    forall h, c | h in t.chains && c in t.chains[h] :: c !in entries
  }

  ghost predicate AwayFromDirs(t: Tree, clusters: set<nat>) {
    forall d, c | d in t.dirs && d in t.chains && c in t.chains[d] :: c !in clusters
  }

  lemma ShapeFrame(g: Geometry, v: View, w: View, t: Tree, entries: set<nat>, clusters: set<nat>)
    requires Shape(g, v, t) && Confined(g, v, w, entries, clusters) && AwayFromChains(t, entries)
    ensures Shape(g, w, t)
  {
    forall h | h in t.chains ensures IsChain(w.fat, t.chains[h]) {
      ChainFrame(v.fat, w.fat, t.chains[h]);
    }
  }

  lemma BytesFrame(g: Geometry, v: View, t: Tree, w: View, t': Tree, entries: set<nat>, clusters: set<nat>, h: nat)
    requires Shape(g, v, t) && Shape(g, w, t') && Confined(g, v, w, entries, clusters)
    requires h in t.chains && h in t'.chains && t'.chains[h] == t.chains[h]
    requires forall c | c in t.chains[h] :: c !in clusters
    ensures BytesAt(g, w, t', h) == BytesAt(g, v, t, h)
  {
    ChainPlaced(g, v, t.chains[h]);
    ChainBytesFrame(g, v, w, t.chains[h], entries, clusters);
  }

  /** Directories keep their slots when neither their chains nor their sectors change. */
  lemma SlotsFrame(g: Geometry, v: View, t: Tree, w: View, t': Tree, entries: set<nat>, clusters: set<nat>)
    requires Shape(g, v, t) && Shape(g, w, t') && Confined(g, v, w, entries, clusters) && AwayFromDirs(t, clusters)
    requires t'.dirs.Keys == t.dirs.Keys && forall d | d in t.dirs :: d in t.chains && d in t'.chains && t'.chains[d] == t.chains[d]
    ensures AllSlots(g, w, t') == AllSlots(g, v, t)
  {
    hide BytesAt, Confined;
    forall d | d in t.dirs ensures BytesAt(g, w, t', d) == BytesAt(g, v, t, d) {
      BytesFrame(g, v, t, w, t', entries, clusters, d);
    }
  }

  /** Changes that touch no chain's entries and no directory's sectors are harmless. */
  lemma Untouched(g: Geometry, v: View, w: View, t: Tree, entries: set<nat>, clusters: set<nat>)
    requires Shape(g, v, t) && Confined(g, v, w, entries, clusters)
    requires AwayFromChains(t, entries) && AwayFromDirs(t, clusters)
    ensures Shape(g, w, t) && AllSlots(g, w, t) == AllSlots(g, v, t)
    ensures Sound(g, v, t) ==> Sound(g, w, t)
    ensures Safe(g, v, t) ==> Safe(g, w, t)
    ensures forall x | Housed(g, v, t, x) :: Housed(g, w, t, x)
  {
    hide AllSlots, SoundIn, SizedIn, HousedIn, Confined;
    ShapeFrame(g, v, w, t, entries, clusters);
    SlotsFrame(g, v, t, w, t, entries, clusters);
  }
}
