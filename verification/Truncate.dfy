/** fat32_truncate: cutting a file's chain, and the one case in which the directory entry is left behind. */
module Truncating {
  import opened Bytes
  import opened Geometry
  import opened Volumes
  import opened Chains
  import opened Allocation
  import opened Freeing
  import opened Contents
  import opened FileRead
  import opened Slots
  import opened Trees
  import opened TreeSteps
  import opened TreeChains
  import opened TreeNames
  import opened LooseSlots
  import opened SlotStore
  import opened FileWrite
  import opened TreeUnique

  // ---------------------------------------------------------------- the cut

  /** No live entry reaches a cluster that is not its own; sizes may be ahead of their chains. */
  ghost predicate Coherent(g: Geometry, v: View) {
    exists t :: Sound(g, v, t)
  }

  /** At every boundary since the journal was `before`, no live entry reached a cluster that was not its own. */
  ghost predicate AllSound(g: Geometry, before: seq<View>, after: seq<View>) {
    before <= after && forall i | |before| <= i < |after| :: Coherent(g, after[i])
  }

  lemma CuttingBoundary(v: View, t: Tree, h: nat, k: nat, j: View, final: seq<nat>)
    requires h in t.chains && k < |t.chains[h]| && IsChain(v.fat, t.chains[h]) && t.chains[h][k] < |v.fat|
    requires final == Wiped(v.fat, t.chains[h][k + 1..])[t.chains[h][k] := EOC]
    requires j.data == v.data && Thinned(v.fat[t.chains[h][k] := EOC], j.fat, final)
    ensures Cutting(v, t, j, h, k)
  {
    var ch := t.chains[h];
    assert ch[k..] == [ch[k]] + ch[k + 1..];
  }

  /** Everything known once the chain has been cut and its tail freed, before the size is recorded. */
  ghost predicate CutDone(g: Geometry, v: View, t: Tree, w: View, h: nat, k: nat) {
    && h in t.chains && k < |t.chains[h]| && t.chains[h][k] < |v.fat|
    && var t' := WithChain(t, h, t.chains[h][..k + 1]);
       && w.data == v.data && w.fat == Wiped(v.fat, t.chains[h][k + 1..])[t.chains[h][k] := EOC]
       && Sound(g, w, t') && Housed(g, w, t', 0) && Accounted(w, t')
       && OthersKept(g, v, t, w, t', h)
  }

  /** At every boundary since the journal was `before`, and there is one, the chain had been cut. */
  ghost predicate AllCutting(v: View, t: Tree, before: seq<View>, after: seq<View>, h: nat, k: nat)
    requires h in t.chains && k < |t.chains[h]|
  {
    before <= after && |before| < |after| && forall i | |before| <= i < |after| :: Cutting(v, t, after[i], h, k)
  }

  /** While the chain is cut and the old size still stands, the volume is consistent if and only if that size fits the
      clusters kept. */
  lemma CutConsistent(g: Geometry, v: View, t: Tree, j: View, d: nat, i: nat, h: nat, k: nat, size0: nat)
    requires WellFormed(g, v, t) && SlotIs(g, v, t, d, i, h, size0) && h != 0
    requires h in t.chains && k < |t.chains[h]| && Cutting(v, t, j, h, k)
    ensures Consistent(g, j) <==> size0 <= 512 * Sectors(g, k + 1)
  {
    hide AllSlots, Shape, SoundIn, SizedIn, HousedIn, Accounted, Cutting, Live, IsDirectory, ClusterOf, SizeOf, OthersKept,
         DirsNamed;
    var m, t1 := AllSlots(g, v, t), WithChain(t, h, t.chains[h][..k + 1]);
    SlotFacts(g, v, t, d, i, h, size0);
    CutChain(g, v, t, j, h, k);
    CutOthers(g, v, t, j, h, k);
    CutSlots(g, v, t, j, t1, h);
    ShapeFacts(g, j, t1);
    DirsAreNamed(g, t1, m, 0);
    if size0 <= 512 * Sectors(g, k + 1) {
      OthersStillFit(g, t, m, d, i, h, t1);
      AllFit(g, t1, m, d, i);
      SafeFacts(g, j, t1);
    }
    forall tb | Safe(g, j, tb) ensures size0 <= 512 * Sectors(g, k + 1) {
      CutFits(g, j, t1, d, i, h, tb);
    }
  }

  lemma CutSlots(g: Geometry, v: View, t: Tree, w: View, t': Tree, h: nat)
    requires OthersKept(g, v, t, w, t', h)
    ensures Shape(g, v, t) && Shape(g, w, t') && AllSlots(g, w, t') == AllSlots(g, v, t)
  {
  }

  lemma AllFit(g: Geometry, t: Tree, m: Dirs, d: nat, i: nat)
    requires OthersFit(g, t, m, d, i) && d in m && i < |m[d]| && SizeFits(g, t, m[d][i])
    ensures SizedIn(g, t, m)
  {
    hide Live, SizeFits;
  }

  /** In whatever tree is safe the entry's size fits the chain it has now. */
  lemma CutFits(g: Geometry, j: View, ta: Tree, d: nat, i: nat, h: nat, tb: Tree)
    requires Shape(g, j, ta) && DirsNamed(g, ta, AllSlots(g, j, ta)) && Safe(g, j, tb) && h in ta.chains && h != 0
    requires LiveIn(AllSlots(g, j, ta), d, i)
    requires var s := AllSlots(g, j, ta)[d][i]; !IsDirectory(s) && ClusterOf(s) == h
    ensures SizeOf(AllSlots(g, j, ta)[d][i]) <= 512 * Sectors(g, |ta.chains[h]|)
  {
    hide AllSlots, IsChain, BytesAt, TailUnused, DotsFirst, DirsNamed;
    SameDir(g, j, ta, tb, d);
    var m := AllSlots(g, j, tb);
    assert LiveIn(m, d, i);
    assert Linked(tb, d, m[d][i]) && SizeFits(g, tb, m[d][i]);
    ChainUnique(j.fat, ta.chains[h], tb.chains[h]);
  }

  /** The cut of fat32_truncate: find the cluster of the last byte kept, and free what follows. */
  method CutFile(fs: Volume, first: nat, clusterIndex: nat, ghost t: Tree) returns (r: Status)
    requires fs.Ready() && WellFormed(fs.g, fs.Now(), t) && first in t.chains && first !in t.dirs
    requires clusterIndex < |ChainAt(t, first)|
    modifies fs`journal, fs.device, fs.sectorBuffer
    ensures fs.Ready() && r == Ok && AllSound(fs.g, old(fs.journal), fs.journal)
    ensures AllCutting(old(fs.Now()), t, old(fs.journal), fs.journal, first, clusterIndex)
    ensures CutDone(fs.g, old(fs.Now()), t, fs.Now(), first, clusterIndex)
  {
    hide Kept, ViewOf, AllSlots, Sound, SizedIn, Housed, Accounted, Wiped, Thinned, CutDone, FreeWalk, IsPath, Cutting, CutAfter;
    ghost var v, j, ch := fs.Now(), fs.journal, t.chains[first];
    ShapeFacts(fs.g, v, t) by { SafeFacts(fs.g, v, t); }
    PathLength(v.fat, ch);
    WalkChain(v.fat, ch, 0, clusterIndex);
    var lastCluster;
    r, lastCluster := GetClusterAt(fs, first, clusterIndex);
    if r != Ok {
      return;
    }
    CutAfterChain(v.fat, ch, clusterIndex);
    r := FreeClusterChainAfter(fs, lastCluster);
    CutEnds(fs.g, v, t, fs.Now(), first, clusterIndex);
    forall i | |j| <= i < |fs.journal|
      ensures Coherent(fs.g, fs.journal[i]) && Cutting(v, t, fs.journal[i], first, clusterIndex)
    {
      CuttingBoundary(v, t, first, clusterIndex, fs.journal[i], fs.Now().fat);
      CutChain(fs.g, v, t, fs.journal[i], first, clusterIndex);
    }
  }

  lemma CutEnds(g: Geometry, v: View, t: Tree, w: View, h: nat, k: nat)
    requires WellFormed(g, v, t) && h in t.chains && h !in t.dirs && k < |t.chains[h]| && t.chains[h][k] < |v.fat|
    requires w.data == v.data && w.fat == Wiped(v.fat, t.chains[h][k + 1..])[t.chains[h][k] := EOC]
    requires IsChain(v.fat, t.chains[h])
    ensures CutDone(g, v, t, w, h, k)
  {
    hide AllSlots, SoundIn, SizedIn, Housed, Accounted, OthersKept, Shape, Wiped;
    var ch := t.chains[h];
    SafeFacts(g, v, t);
    EndCutting(v, t, w, h, k);
    CutChain(g, v, t, w, h, k);
    CutAccounted(g, v, t, w, h, k);
    CutOthers(g, v, t, w, h, k);
  }

  lemma EndCutting(v: View, t: Tree, w: View, h: nat, k: nat)
    requires h in t.chains && k < |t.chains[h]| && IsChain(v.fat, t.chains[h]) && t.chains[h][k] < |v.fat|
    requires w.data == v.data && w.fat == Wiped(v.fat, t.chains[h][k + 1..])[t.chains[h][k] := EOC]
    ensures Cutting(v, t, w, h, k)
    ensures forall c: nat | c in t.chains[h][k + 1..] && c < |w.fat| :: w.fat[c] == 0
  {
    var ch := t.chains[h];
    assert ch[k..] == [ch[k]] + ch[k + 1..];
    assert ch[k] !in ch[k + 1..];
  }

  lemma CutOthers(g: Geometry, v: View, t: Tree, w: View, h: nat, k: nat)
    requires Shape(g, v, t) && h in t.chains && h !in t.dirs && k < |t.chains[h]| && Cutting(v, t, w, h, k)
    requires Shape(g, w, WithChain(t, h, t.chains[h][..k + 1]))
    ensures OthersKept(g, v, t, w, WithChain(t, h, t.chains[h][..k + 1]), h)
  {
    hide IsChain, BytesAt, AllSlots;
    var ch, t' := t.chains[h], WithChain(t, h, t.chains[h][..k + 1]);
    assert forall c | c in ch[k..] :: c in ch;
    assert Confined(g, v, w, ClustersOf(ch), {});
    SlotsFrame(g, v, t, w, t', ClustersOf(ch), {});
    forall o | o in t.chains && o != h ensures BytesAt(g, w, t', o) == BytesAt(g, v, t, o) {
      BytesFrame(g, v, t, w, t', ClustersOf(ch), {}, o);
    }
  }

  lemma OthersStillFit(g: Geometry, t: Tree, m: Dirs, d: nat, i: nat, h: nat, t': Tree)
    requires SizedIn(g, t, m) && HousedIn(g, t, m, 0) && LiveIn(m, d, i) && ClusterOf(m[d][i]) == h && h != 0
    requires forall k | k != h :: (k in t.chains <==> k in t'.chains) && (k in t.chains ==> t'.chains[k] == t.chains[k])
    ensures OthersFit(g, t', m, d, i)
  {
    hide Live, IsDirectory;
    forall e: nat, j: nat | LiveIn(m, e, j) && (e, j) != (d, i) ensures SizeFits(g, t', m[e][j]) {
      assert SizeFits(g, t, m[e][j]);
    }
  }

  lemma SizedIsExtent(s: Slot, size: nat)
    requires size < U32
    ensures SameButExtent(s, SizedSlot(s, size))
  {
  }

  /** Recording the smaller size completes a truncation. */
  lemma SizeRecorded(g: Geometry, v: View, t: Tree, w: View, d: nat, i: nat, h: nat, k: nat, size0: nat, size: nat)
    requires WellFormed(g, v, t) && SlotIs(g, v, t, d, i, h, size0) && CutDone(g, v, t, w, h, k)
    requires size < U32 && size <= 512 * Sectors(g, k + 1) && h != 0
    ensures var t1 := WithChain(t, h, t.chains[h][..k + 1]);
            && Shape(g, w, t1) && d in t1.dirs && i < |AllSlots(g, w, t1)[d]|
            && var u, t2 := WithSlot(g, w, t1, d, i, SizedSlot(AllSlots(g, w, t1)[d][i], size)), At(t1, h, d, i);
               && WellFormed(g, u, t2) && OnlyFile(g, v, t, u, t2, d, i, h) && SlotIs(g, u, t2, d, i, h, size)
               && SameBytes(g, w, u, t1.chains[h]) && u.fat == w.fat
  {
    hide AllSlots, Shape, BytesAt, SoundIn, Accounted, Confined, WithSlot, Put, SizedSlot, ClusterOf, SizeOf, Live, IsDirectory,
         Wiped, HousedIn, SizedIn;
    var t1 := WithChain(t, h, t.chains[h][..k + 1]);
    var m := AllSlots(g, v, t);
    var s := SizedSlot(m[d][i], size);
    ShapeFacts(g, w, t1);
    SizedSlotFields(m[d][i], size);
    SizedIsExtent(m[d][i], size);
    OthersStillFit(g, t, m, d, i, h, t1);
    CutNameable(g, t1, m, d, i, s);
    Named(g, w, t1, m, d, i, s, 0);
    WithSlotEffect(g, w, t1, d, i, s);
    var u, t2 := WithSlot(g, w, t1, d, i, s), At(t1, h, d, i);
    HomeFree(g, u, t1, h, d, i);
    PutAt(m, d, i, s);
    forall o | o in t1.chains && o !in t1.dirs ensures SameBytes(g, w, u, t1.chains[o]) {
      SameBytesAt(g, w, u, t1, o);
    }
    KeptElsewhere(g, v, t, w, t1, u, t2, d, i, h);
  }

  lemma CutNameable(g: Geometry, t: Tree, m: Dirs, d: nat, i: nat, s: Slot)
    requires SoundIn(t, m) && LiveIn(m, d, i) && !IsDirectory(m[d][i]) && ClusterOf(m[d][i]) == ClusterOf(s)
    requires Live(s) && !IsDirectory(s) && ClusterOf(s) != 0
    requires ClusterOf(s) in t.chains ==> SizeOf(s) <= 512 * Sectors(g, |t.chains[ClusterOf(s)]|)
    ensures Nameable(g, t, m, d, i, s, 0)
  {
    hide TailUnused, DotsFirst;
    assert Linked(t, d, m[d][i]);
  }

  /** The room in the clusters a truncation to that size keeps. */
  ghost function RoomKept(g: Geometry, size: nat): nat
    requires g.Valid() && size > 0
  {
    512 * Sectors(g, Quot(size - 1, g.ClusterSize()) + 1)
  }

  /** What a truncation to a positive smaller size does to the volume. */
  ghost predicate TruncateDone(g: Geometry, v: View, t: Tree, w: View, t': Tree, d: nat, i: nat, h: nat, size: nat, old_: seq<byte>) {
    && g.Valid() && 0 < size <= |old_| && Quot(size - 1, g.ClusterSize()) < |ChainAt(t, h)|
    && ChainAt(t', h) == ChainAt(t, h)[..Quot(size - 1, g.ClusterSize()) + 1]
    && (forall c: nat | c < |v.fat| && c < |w.fat| && c in ChainAt(t, h)[Quot(size - 1, g.ClusterSize()) + 1..] :: w.fat[c] == 0)
    && Shows(g, w, ChainAt(t', h), size, old_[..size])
    && WellFormed(g, w, t') && OnlyFile(g, v, t, w, t', d, i, h)
  }

  /** In plain numbers: the chain keeps its first clusters, as few as hold the file, and the others are free. */
  lemma KeptMeans(g: Geometry, v: View, t: Tree, w: View, t': Tree, d: nat, i: nat, h: nat, size: nat, old_: seq<byte>)
    requires TruncateDone(g, v, t, w, t', d, i, h, size, old_)
    ensures var n := |ChainAt(t', h)|;
            && 0 < n <= |ChainAt(t, h)| && ChainAt(t', h) == ChainAt(t, h)[..n]
            && (n - 1) * (512 * g.sectorsPerCluster) < size <= n * (512 * g.sectorsPerCluster)
            && forall c: nat | c < |v.fat| && c < |w.fat| && c in ChainAt(t, h)[n..] :: w.fat[c] == 0
  {
    hide Shows, WellFormed, OnlyFile, Quot;
    var n := |ChainAt(t', h)|;
    TimesIsProduct(n, g.ClusterSize());
    QuotLess(size - 1, g.ClusterSize(), n);
    TimesIsProduct(n - 1, g.ClusterSize());
    QuotLess(size - 1, g.ClusterSize(), n - 1);
  }

  lemma CutShows(g: Geometry, v: View, t: Tree, w: View, u: View, h: nat, k: nat, size: nat, old_: seq<byte>)
    requires h in t.chains && k < |t.chains[h]| && Fitted(g, v) && Fitted(g, w) && w.data == v.data
    requires Shows(g, v, t.chains[h], |old_|, old_) && size <= |old_| && size <= 512 * Sectors(g, k + 1)
    requires SameBytes(g, w, u, t.chains[h][..k + 1])
    ensures Shows(g, u, t.chains[h][..k + 1], size, old_[..size])
  {
    hide ChainBytes;
    ChainBytesPrefix(g, v, t.chains[h], k + 1);
    SameData(g, v, w, t.chains[h][..k + 1]);
    assert ChainBytes(g, v, t.chains[h])[..512 * Sectors(g, k + 1)][..size] == ChainBytes(g, v, t.chains[h])[..|old_|][..size];
  }

  lemma SameData(g: Geometry, v: View, w: View, ch: seq<nat>)
    requires Placed(g, ch) && Fitted(g, v) && Fitted(g, w) && w.data == v.data
    ensures ChainBytes(g, w, ch) == ChainBytes(g, v, ch)
  {
    forall p | 0 <= p < 512 * Sectors(g, |ch|) ensures ChainByte(g, w, ch, p) == ChainByte(g, v, ch, p) {
    }
  }

  /** All boundaries of a truncation are consistent if and only if the old size fits the clusters kept. */
  lemma CutBoundaries(g: Geometry, v: View, t: Tree, d: nat, i: nat, h: nat, k: nat, size0: nat, a: seq<View>, b: seq<View>, u: View)
    requires WellFormed(g, v, t) && SlotIs(g, v, t, d, i, h, size0) && h != 0
    requires h in t.chains && k < |t.chains[h]| && AllCutting(v, t, a, b, h, k) && Consistent(g, u)
    ensures AllConsistent(g, a, b + [u]) <==> size0 <= 512 * Sectors(g, k + 1)
  {
    hide WellFormed, SlotIs, Cutting, Consistent;
    forall n | |a| <= n < |b| ensures Consistent(g, b[n]) <==> size0 <= 512 * Sectors(g, k + 1) {
      CutConsistent(g, v, t, b[n], d, i, h, k, size0);
    }
    assert (b + [u])[|a|] == b[|a|];
  }

  /** The positive case of fat32_truncate. */
  method TruncateTo(fs: Volume, file: FileHandle, size: nat, ghost t: Tree, ghost h: nat, ghost old_: seq<byte>)
    returns (r: Status, ghost t': Tree)
    requires fs.Ready() && WellFormed(fs.g, fs.Now(), t) && HandleOk(fs.g, fs.Now(), t, file) && file.firstCluster == h
    requires 0 < size < file.size == |old_| && Shows(fs.g, fs.Now(), ChainAt(t, h), |old_|, old_)
    modifies fs`journal, fs.device, fs.sectorBuffer, file`size, file`position
    ensures fs.Ready() && r == Ok && AllSound(fs.g, old(fs.journal), fs.journal)
    ensures AllConsistent(fs.g, old(fs.journal), fs.journal) <==> old(file.size) <= RoomKept(fs.g, size)
    ensures file.size == size && file.position == Min(old(file.position), size)
    ensures HandleOk(fs.g, fs.Now(), t', file)
    ensures TruncateDone(fs.g, old(fs.Now()), t, fs.Now(), t', file.directoryCluster, file.entryIndex, h, size, old_)
  {
    hide Kept, ViewOf, AllSlots, Shape, Safe, Housed, Accounted, CutDone, SlotIs, Shows, OnlyFile, WithSlot, SizedSlot, Wiped,
         SameBytes, AllSound, AllCutting, AllConsistent, Quot, TruncateDone, RoomKept;
    ghost var v, j, d, i := fs.Now(), fs.journal, file.directoryCluster, file.entryIndex;
    SlotFacts(fs.g, v, t, d, i, h, file.size);
    t' := t;
    var clusterIndex := Quot(size - 1, fs.g.ClusterSize());
    FirstClusters(fs.g, ChainAt(t, h), size);
    r := CutFile(fs, file.firstCluster, clusterIndex, t);
    if r != Ok {
      return;
    }
    ghost var w, j1 := fs.Now(), fs.journal;
    SizeRecorded(fs.g, v, t, w, d, i, h, clusterIndex, file.size, size);
    ghost var t1 := WithChain(t, h, t.chains[h][..clusterIndex + 1]);
    r := UpdateEntrySize(fs, file.directoryCluster, file.entryIndex, size, t1);
    t' := At(t1, h, d, i);
    file.size := size;
    if file.position > size {
      file.position := size;
    }
    TruncateEnds(fs.g, v, t, w, fs.Now(), d, i, h, clusterIndex, size, old_, j, j1);
  }

  /** What the cut and the recorded size come to, on the volume and at the boundaries. */
  lemma TruncateEnds(g: Geometry, v: View, t: Tree, w: View, u: View, d: nat, i: nat, h: nat, k: nat, size: nat, old_: seq<byte>,
                     j: seq<View>, j1: seq<View>)
    requires WellFormed(g, v, t) && SlotIs(g, v, t, d, i, h, |old_|) && CutDone(g, v, t, w, h, k) && h != 0
    requires g.Valid() && 0 < size <= |old_| && size < U32 && size <= 512 * Sectors(g, k + 1)
    requires k == Quot(size - 1, g.ClusterSize()) && h in t.chains && k < |t.chains[h]|
    requires Shows(g, v, t.chains[h], |old_|, old_) && AllSound(g, j, j1) && AllCutting(v, t, j, j1, h, k)
    requires Shape(g, w, WithChain(t, h, t.chains[h][..k + 1])) && d in t.dirs
    requires i < |AllSlots(g, w, WithChain(t, h, t.chains[h][..k + 1]))[d]|
    requires var t1 := WithChain(t, h, t.chains[h][..k + 1]);
             u == WithSlot(g, w, t1, d, i, SizedSlot(AllSlots(g, w, t1)[d][i], size))
    ensures var t2 := At(WithChain(t, h, t.chains[h][..k + 1]), h, d, i);
            TruncateDone(g, v, t, u, t2, d, i, h, size, old_) && SlotIs(g, u, t2, d, i, h, size)
    ensures AllSound(g, j, j1 + [u])
    ensures AllConsistent(g, j, j1 + [u]) <==> |old_| <= RoomKept(g, size)
  {
    hide AllSlots, Shape, Safe, Housed, Accounted, CutDone, SlotIs, Shows, OnlyFile, WithSlot, SizedSlot, SameBytes, AllSound,
         AllCutting, AllConsistent, Quot, Coherent, Consistent;
    var t1 := WithChain(t, h, t.chains[h][..k + 1]);
    SizeRecorded(g, v, t, w, d, i, h, k, |old_|, size);
    CutFacts(g, v, t, w, h, k);
    CutShows(g, v, t, w, u, h, k, size, old_);
    SoundToo(g, u, At(t1, h, d, i));
    AllSoundNext(g, j, j1, u);
    CutBoundaries(g, v, t, d, i, h, k, |old_|, j, j1, u);
  }

  lemma SoundToo(g: Geometry, v: View, t: Tree)
    requires WellFormed(g, v, t)
    ensures Coherent(g, v) && Consistent(g, v)
  {
  }

  lemma AllSoundNext(g: Geometry, a: seq<View>, b: seq<View>, v: View)
    requires AllSound(g, a, b) && Coherent(g, v)
    ensures AllSound(g, a, b + [v])
  {
  }

  lemma FirstClusters(g: Geometry, ch: seq<nat>, size: nat)
    requires g.Valid() && 0 < size <= 512 * Sectors(g, |ch|)
    ensures Quot(size - 1, g.ClusterSize()) < |ch|
    ensures size <= 512 * Sectors(g, Quot(size - 1, g.ClusterSize()) + 1)
  {
    ByteSector(size - 1, g.sectorsPerCluster);
    QuotLess((size - 1) / 512, g.sectorsPerCluster, |ch|);
    RoomFor(g, ch[..Quot(size - 1, g.ClusterSize()) + 1], size);
  }

  lemma CutFacts(g: Geometry, v: View, t: Tree, w: View, h: nat, k: nat)
    requires CutDone(g, v, t, w, h, k)
    ensures Fitted(g, v) && Fitted(g, w) && w.data == v.data
    ensures forall c: nat | c < |v.fat| && c < |w.fat| && c in t.chains[h][k + 1..] && c != t.chains[h][k] :: w.fat[c] == 0
    ensures IsChain(v.fat, t.chains[h])
    ensures t.chains[h][k] !in t.chains[h][k + 1..]
  {
    hide Sound, Housed, Accounted, AllSlots, BytesAt, FatKept, SameBytes;
  }

  // ---------------------------------------------------------------- truncating to nothing

  /** What truncating a file with bytes to size 0 does: its chain is freed and its size zeroed, but the first-cluster
      field of the entry, and nothing else, still says h. */
  ghost predicate ZeroDone(g: Geometry, v: View, t: Tree, w: View, d: nat, i: nat, h: nat) {
    && Shape(g, v, t) && h in t.chains && Shape(g, w, Without(t, h)) && LiveIn(AllSlots(g, v, t), d, i)
    && w.fat == Wiped(v.fat, t.chains[h])
    && AllSlots(g, w, Without(t, h)) == Put(AllSlots(g, v, t), d, i, SizedSlot(AllSlots(g, v, t)[d][i], 0))
    && forall k | k in t.chains && k != h && k !in t.dirs :: SameBytes(g, v, w, t.chains[k])
  }

  lemma FreedShape(g: Geometry, v: View, t: Tree, h: nat, w: View)
    requires Shape(g, v, t) && h in t.chains && h !in t.dirs && w.data == v.data && w.fat == Wiped(v.fat, t.chains[h])
    ensures Shape(g, w, Without(t, h)) && AllSlots(g, w, Without(t, h)) == AllSlots(g, v, t)
    ensures forall k | k in t.chains && k != h :: BytesAt(g, w, Without(t, h), k) == BytesAt(g, v, t, k)
  {
    hide AllSlots, BytesAt, IsChain;
    var cs, t' := ClustersOf(t.chains[h]), Without(t, h);
    WithoutShape(g, v, t, h, {h});
    assert Confined(g, v, w, cs, {});
    ShapeFrame(g, v, w, t', cs, {});
    SlotsFrame(g, v, t', w, t', cs, {});
    assert AllSlots(g, v, t') == AllSlots(g, v, t);
    forall k | k in t.chains && k != h ensures BytesAt(g, w, t', k) == BytesAt(g, v, t, k) {
      BytesFrame(g, v, t, w, t', cs, {}, k);
    }
  }

  lemma ZeroAssembled(g: Geometry, v: View, t: Tree, w: View, d: nat, i: nat, h: nat)
    requires Shape(g, v, t) && h in t.chains && h !in t.dirs && w.data == v.data && w.fat == Wiped(v.fat, t.chains[h])
    requires LiveIn(AllSlots(g, v, t), d, i)
    ensures Shape(g, w, Without(t, h)) && AllSlots(g, w, Without(t, h)) == AllSlots(g, v, t)
    ensures d in Without(t, h).dirs
    ensures ZeroDone(g, v, t, WithSlot(g, w, Without(t, h), d, i, SizedSlot(AllSlots(g, v, t)[d][i], 0)), d, i, h)
  {
    hide AllSlots, IsChain, BytesAt, WithSlot, SizedSlot, Shape, Wiped, Put, Confined, Live;
    var t' := Without(t, h);
    ShapeFacts(g, v, t);
    FreedShape(g, v, t, h, w);
    var u := WithSlot(g, w, t', d, i, SizedSlot(AllSlots(g, v, t)[d][i], 0));
    WithSlotEffect(g, w, t', d, i, SizedSlot(AllSlots(g, v, t)[d][i], 0));
    forall k | k in t.chains && k != h && k !in t.dirs ensures SameBytes(g, v, u, t.chains[k]) {
      SameBytesAtTrees(g, v, t, u, t', k);
    }
  }

  /** The zero case of fat32_truncate. */
  method TruncateToZero(fs: Volume, file: FileHandle, ghost t: Tree, ghost h: nat) returns (r: Status)
    requires fs.Ready() && WellFormed(fs.g, fs.Now(), t) && HandleOk(fs.g, fs.Now(), t, file)
    requires file.firstCluster == h && file.size > 0
    modifies fs`journal, fs.device, fs.sectorBuffer, file`size, file`position, file`firstCluster
    ensures fs.Ready() && r == Ok && h in t.chains
    ensures file.size == 0 && file.position == 0 && file.firstCluster == 0
    ensures ZeroDone(fs.g, old(fs.Now()), t, fs.Now(), file.directoryCluster, file.entryIndex, h)
  {
    hide Kept, ViewOf, AllSlots, Shape, Housed, Accounted, WithSlot, SizedSlot, Wiped, SameBytes, Sound, SizedIn, FreeWalk,
         IsChain, BytesAt, ZeroDone;
    ghost var v, d, i := fs.Now(), file.directoryCluster, file.entryIndex;
    SlotFacts(fs.g, v, t, d, i, h, file.size);
    SafeFacts(fs.g, v, t);
    ShapeFacts(fs.g, v, t);
    if file.firstCluster != 0 {
      ChainHead(v.fat, t.chains[h]);
      r := FreeClusterChain(fs, file.firstCluster);
      if r != Ok {
        return;
      }
    }
    ghost var w, t' := fs.Now(), Without(t, h);
    ZeroAssembled(fs.g, v, t, w, d, i, h);
    r := UpdateEntrySize(fs, file.directoryCluster, file.entryIndex, 0, t');
    if r != Ok {
      return;
    }
    file.firstCluster := 0;
    file.size := 0;
    file.position := 0;
  }

  lemma ChainHead(fat: seq<nat>, ch: seq<nat>)
    requires IsChain(fat, ch)
    ensures OnVolume(fat, ch[0]) && FreeWalk(fat, ch[0]) == (Wiped(fat, ch), Ok)
  {
    FreeWalkChain(fat, ch, 0);
    assert Wiped(fat, ch[..0]) == fat;
  }

  lemma NamedAfterZero(g: Geometry, t: Tree, m: Dirs, d: nat, i: nat, h: nat, s: Slot)
    requires DirsNamed(g, t, m) && LiveIn(m, d, i) && !IsDirectory(m[d][i]) && h !in t.dirs
    ensures DirsNamed(g, Without(t, h), Put(m, d, i, s))
  {
    hide Put, Live;
    NamedAfterPut(g, t, m, d, i, s);
  }

  lemma NamesFreeCluster(g: Geometry, w: View, ta: Tree, tb: Tree, d: nat, i: nat, h: nat)
    requires Shape(g, w, ta) && DirsNamed(g, ta, AllSlots(g, w, ta)) && LiveIn(AllSlots(g, w, ta), d, i)
    requires !IsDirectory(AllSlots(g, w, ta)[d][i]) && ClusterOf(AllSlots(g, w, ta)[d][i]) == h != 0
    requires h < |w.fat| && w.fat[h] == 0
    ensures !Sound(g, w, tb)
  {
    hide AllSlots, IsChain, BytesAt, TailUnused, DotsFirst, DirsNamed, Shape;
    if Sound(g, w, tb) {
      SameDir(g, w, ta, tb, d);
      var m := AllSlots(g, w, tb);
      assert LiveIn(m, d, i);
      assert Linked(tb, d, m[d][i]);
      HeadNotFree(g, w, tb, h);
    }
  }

  /** After truncating a file with bytes to size 0 no tree at all is sound: its entry names a free cluster. */
  lemma ZeroUnsound(g: Geometry, v: View, t: Tree, w: View, d: nat, i: nat, h: nat, size: nat, tb: Tree)
    requires WellFormed(g, v, t) && SlotIs(g, v, t, d, i, h, size) && size > 0
    requires ZeroDone(g, v, t, w, d, i, h)
    ensures !Sound(g, w, tb)
  {
    hide AllSlots, Accounted, IsChain, BytesAt, Put, SizedSlot, Shape, SoundIn, SizedIn, HousedIn;
    var m, t', s := AllSlots(g, v, t), Without(t, h), SizedSlot(AllSlots(g, v, t)[d][i], 0);
    SlotFacts(g, v, t, d, i, h, size);
    ShapeFacts(g, v, t);
    assert t.chains[h][0] in t.chains[h];
    SizedSlotFields(m[d][i], 0);
    DirsAreNamed(g, t, m, 0);
    NamedAfterZero(g, t, m, d, i, h, s);
    LiveAfterPut(m, d, i, s, d, i);
    NamesFreeCluster(g, w, t', tb, d, i, h);
  }

  /** fat32_truncate. A truncation to a positive size leaves a well-formed volume; one to zero of a file with bytes leaves
      an entry that names a freed cluster, and no tree for which the volume is sound, but the handle is ready to write. */
  method Truncate(fs: Volume, file: FileHandle, size: nat, ghost t: Tree, ghost old_: seq<byte>)
    returns (r: Status, ghost t': Tree)
    requires fs.Ready() && WellFormed(fs.g, fs.Now(), t)
    requires !file.directory ==> HandleOk(fs.g, fs.Now(), t, file)
    requires !file.directory ==> Shows(fs.g, fs.Now(), ChainAt(t, file.firstCluster), file.size, old_)
    modifies fs`journal, fs.device, fs.sectorBuffer, file`size, file`position, file`firstCluster
    ensures fs.Ready()
    ensures r == if file.directory then NotAFile else if size > old(file.size) then Error else Ok
    ensures r != Ok || size == old(file.size) ==>
              fs.Now() == old(fs.Now()) && fs.journal == old(fs.journal) && t' == t && file.size == old(file.size)
              && file.position == old(file.position) && file.firstCluster == old(file.firstCluster)
    ensures r == Ok ==> file.size == size
    ensures r == Ok && 0 < size < old(file.size) ==>
              && HandleOk(fs.g, fs.Now(), t', file) && file.position == Min(old(file.position), size)
              && file.firstCluster == old(file.firstCluster) && AllSound(fs.g, old(fs.journal), fs.journal)
              && (AllConsistent(fs.g, old(fs.journal), fs.journal) <==> old(file.size) <= RoomKept(fs.g, size))
              && TruncateDone(fs.g, old(fs.Now()), t, fs.Now(), t', file.directoryCluster, file.entryIndex,
                              file.firstCluster, size, old_)
    ensures r == Ok && size == 0 < old(file.size) ==>
              && file.position == 0 && file.firstCluster == 0
              && ZeroDone(fs.g, old(fs.Now()), t, fs.Now(), file.directoryCluster, file.entryIndex, old(file.firstCluster))
              && t' == Without(t, old(file.firstCluster)) && WriteReady(fs.g, fs.Now(), t', file, 0)
              && Shows(fs.g, fs.Now(), ChainAt(t', 0), 0, [])
    ensures r == Ok ==> ((exists tb :: WellFormed(fs.g, fs.Now(), tb)) <==> size > 0 || old(file.size) == 0)
  {
    hide Kept, ViewOf, AllSlots, Shape, Safe, Housed, Accounted, SlotIs, Shows, OnlyFile, ZeroDone, Quot, AllConsistent, Writable,
         Stale, Without;
    r, t' := NotAFile, t;
    if file.directory {
      return;
    }
    if size > file.size {
      r := Error;
      return;
    }
    r := Ok;
    if size == file.size {
      return;
    }
    ghost var v, d, i, h, size0 := fs.Now(), file.directoryCluster, file.entryIndex, file.firstCluster, file.size;
    ShowsLength(fs.g, v, ChainAt(t, h), size0, old_);
    if size == 0 {
      r := TruncateToZero(fs, file, t, h);
      forall tb ensures !WellFormed(fs.g, fs.Now(), tb) {
        ZeroUnsound(fs.g, v, t, fs.Now(), d, i, h, size0, tb);
        NotWell(fs.g, fs.Now(), tb);
      }
      ZeroStale(fs.g, v, t, fs.Now(), d, i, h, size0);
      t' := Without(t, h);
      return;
    }
    r, t' := TruncateTo(fs, file, size, t, h, old_);
  }

  lemma ZeroSound(g: Geometry, t: Tree, m: Dirs, h: nat, d: nat, i: nat, s: Slot)
    requires SoundIn(t, m) && SizedIn(g, t, m) && HousedIn(g, t, m, 0) && h in t.chains && h !in t.dirs && 0 !in t.chains
    requires LiveIn(m, d, i) && !IsDirectory(m[d][i]) && ClusterOf(m[d][i]) == h && Placeable(m[d], i, s) && Live(s)
    ensures SoundBut(g, Without(t, h), Put(m, d, i, s), d, i)
  {
    hide Put, Placeable, TailUnused, DotsFirst, Live, IsDirectory, ClusterOf, SizeOf;
    var t', m' := Without(t, h), Put(m, d, i, s);
    PutKeeps(m, d, i, s);
    PutSizes(m, d, i, s);
    assert t'.dirs == t.dirs;
    forall e: nat, j: nat | LiveIn(m', e, j) && (e, j) != (d, i) ensures Linked(t', e, m'[e][j]) && SizeFits(g, t', m'[e][j]) {
      LiveAfterPut(m, d, i, s, e, j);
      assert Linked(t, e, m[e][j]) && SizeFits(g, t, m[e][j]);
      assert ClusterOf(m[e][j]) != h;
    }
  }

  lemma PutSizes(m: Dirs, d: nat, i: nat, s: Slot)
    requires d in m && i < |m[d]|
    ensures Put(m, d, i, s).Keys == m.Keys && forall e | e in m :: |Put(m, d, i, s)[e]| == |m[e]|
  {
  }

  lemma ZeroHoused(g: Geometry, t: Tree, m: Dirs, h: nat, d: nat, i: nat, s: Slot)
    requires HousedIn(g, t, m, 0) && h in t.chains && h !in t.dirs && 0 !in t.chains
    requires LiveIn(m, d, i) && ClusterOf(m[d][i]) == h && Live(s)
    ensures HousedBut(g, Without(t, h), Put(m, d, i, s), 0, d, i)
  {
    hide Put, Live, ClusterOf;
    var t', m' := Without(t, h), Put(m, d, i, s);
    forall k | k in t'.home
      ensures t'.home[k] != (d, i) && LiveIn(m', t'.home[k].0, t'.home[k].1) && ClusterOf(m'[t'.home[k].0][t'.home[k].1]) == k
    {
      LiveAfterPut(m, d, i, s, t.home[k].0, t.home[k].1);
    }
    forall e: nat, j: nat | LiveIn(m', e, j) && (e, j) != (d, i) && ClusterOf(m'[e][j]) != 0
      ensures ClusterOf(m'[e][j]) in t'.home && t'.home[ClusterOf(m'[e][j])] == (e, j)
    {
      LiveAfterPut(m, d, i, s, e, j);
    }
  }

  /** But that entry is all that is amiss. */
  lemma ZeroStale(g: Geometry, v: View, t: Tree, w: View, d: nat, i: nat, h: nat, size: nat)
    requires WellFormed(g, v, t) && SlotIs(g, v, t, d, i, h, size) && size > 0
    requires ZeroDone(g, v, t, w, d, i, h)
    ensures Stale(g, w, Without(t, h), d, i, 0, 0, 0) && Shows(g, w, ChainAt(Without(t, h), 0), 0, [])
  {
    hide AllSlots, Accounted, IsChain, BytesAt, Put, SizedSlot, Shape, SoundIn, SizedIn, HousedIn, SoundBut, HousedBut, Live,
         IsDirectory, ClusterOf, SizeOf, SameBytes, Without, Wiped, Placeable;
    var m, s := AllSlots(g, v, t), SizedSlot(AllSlots(g, v, t)[d][i], 0);
    SlotFacts(g, v, t, d, i, h, size);
    ShapeFacts(g, v, t);
    ShapeFacts(g, w, Without(t, h));
    SizedSlotFields(m[d][i], 0);
    EntryPlaceable(m, d, i, s) by { assert FileEntry(m, d, i); }
    ZeroSound(g, t, m, h, d, i, s);
    ZeroHoused(g, t, m, h, d, i, s);
    FreedAccounted(g, v, t, h, w);
    LiveAfterPut(m, d, i, s, d, i);
  }

  lemma NotWell(g: Geometry, v: View, t: Tree)
    requires !Sound(g, v, t)
    ensures !WellFormed(g, v, t)
  {
  }

  // ---------------------------------------------------------------- and writing again

  /** Truncating a file with bytes to 0 and writing through the same handle: a write that finds its clusters records them, and
      the volume is well formed again. Until then it was not, whatever the tree. After one that fails it is again if and only
      if the cluster it took first happens to be the one the entry still names. */
  method Refill(fs: Volume, file: FileHandle, data: seq<byte>, ghost t: Tree, ghost old_: seq<byte>)
    returns (r: Status, ghost between: View, ghost t': Tree)
    requires fs.Ready() && WellFormed(fs.g, fs.Now(), t) && HandleOk(fs.g, fs.Now(), t, file)
    requires Shows(fs.g, fs.Now(), ChainAt(t, file.firstCluster), file.size, old_) && file.size > 0
    requires 0 < |data| < U32
    modifies fs`journal, fs.device, fs.sectorBuffer, file`firstCluster, file`size, file`position
    ensures fs.Ready() && !exists tb :: WellFormed(fs.g, between, tb)
    ensures ZeroDone(fs.g, old(fs.Now()), t, between, file.directoryCluster, file.entryIndex, old(file.firstCluster))
    ensures r == if Lacks(fs.g, 0, |data|) <= FreeCount(between.fat) then Ok else Error
    ensures r == Ok ==> WellFormed(fs.g, fs.Now(), t') && t'.other == t.other && HandleOk(fs.g, fs.Now(), t', file)
    ensures r == Ok ==> file.size == |data| && Shows(fs.g, fs.Now(), ChainAt(t', file.firstCluster), |data|, data)
    ensures r == Ok ==> OnlyFile(fs.g, between, Without(t, old(file.firstCluster)), fs.Now(), t',
                                 file.directoryCluster, file.entryIndex, file.firstCluster)
    ensures r != Ok ==> ((exists tb :: WellFormed(fs.g, fs.Now(), tb) && tb.other == t.other)
                         <==> file.firstCluster == old(file.firstCluster))
  {
    hide Kept, ViewOf, AllSlots, Shape, WellFormed, SlotIs, Shows, ZeroDone, FreeCount, Lacks, Writable, Stale, AllConsistent,
         TruncateDone, Spliced, OnlyFile, WriteFailed;
    ghost var x, v, h := 0, fs.Now(), file.firstCluster;
    var n;
    BytesLive(fs.g, v, t, file.directoryCluster, file.entryIndex, h, file.size);
    r, t' := Truncate(fs, file, 0, t, old_);
    between := fs.Now();
    ghost var t0 := t';
    ReadyFacts(fs.g, between, t0, file.directoryCluster, file.entryIndex, 0, 0, 0);
    r, n, t', x := Write(fs, file, data, t0, 0, []);
    if r == Ok {
      Refilled(fs.g, between, t0, fs.Now(), t', file.directoryCluster, file.entryIndex, file.firstCluster, data);
    } else {
      RefillFailed(fs.g, v, t, between, fs.Now(), t', file.directoryCluster, file.entryIndex, h, file.firstCluster, x);
    }
  }

  lemma RefillFailed(g: Geometry, v: View, t: Tree, u: View, w: View, t': Tree, d: nat, i: nat, h: nat, h': nat, x: nat)
    requires ZeroDone(g, v, t, u, d, i, h) && h != 0 && LiveFile(g, v, t, d, i, h)
    requires WriteFailed(g, u, Without(t, h), w, t', 0, 0, h', x, []) && FileReady(g, w, t', d, i, h', 0, x)
    ensures (exists tb :: WellFormed(g, w, tb) && tb.other == t.other) <==> h' == h
  {
    hide AllSlots, Shape, Writable, InOrderBut, WellFormed, Live, IsDirectory, ClusterOf, SizeOf, FreeCount, FatKept, BytesAt, Shows,
         SizedSlot, Put, Wiped, Settling, Without;
    StuckSlot(g, v, t, u, w, t', d, i, h, h', x);
    NotWritable(g, w, t', d, i, h, h', x);
    LooseSettled(g, w, t', x, d, i);
    EmptyFits(g, t', AllSlots(g, w, t')[d][i], h, x);
  }

  lemma Refilled(g: Geometry, v: View, t: Tree, w: View, t': Tree, d: nat, i: nat, h: nat, data: seq<byte>)
    requires WriteDone(g, v, t, w, t', d, i, 0, h, 0, data, [])
    ensures WellFormed(g, w, t') && OnlyFile(g, v, t, w, t', d, i, h) && t'.other == t.other
    ensures Spliced([], 0, data) == data && Shows(g, w, ChainAt(t', h), |data|, data)
  {
    hide AllSlots, Shape, WellFormed, Shows, Quot, FatKept, SameBytes, Live, SameButExtent;
  }

  ghost predicate LiveFile(g: Geometry, v: View, t: Tree, d: nat, i: nat, h: nat) {
    && Shape(g, v, t) && LiveIn(AllSlots(g, v, t), d, i)
    && !IsDirectory(AllSlots(g, v, t)[d][i]) && ClusterOf(AllSlots(g, v, t)[d][i]) == h
  }

  lemma BytesLive(g: Geometry, v: View, t: Tree, d: nat, i: nat, h: nat, size: nat)
    requires WellFormed(g, v, t) && SlotIs(g, v, t, d, i, h, size) && size > 0
    ensures LiveFile(g, v, t, d, i, h) && h != 0
  {
    hide AllSlots, SoundIn, SizedIn, Housed, Accounted, Live, IsDirectory, ClusterOf, SizeOf;
    SlotFacts(g, v, t, d, i, h, size);
  }

  /** The entry says what the truncation has left in it. */
  lemma StuckSlot(g: Geometry, v: View, t: Tree, u: View, w: View, t': Tree, d: nat, i: nat, h: nat, h': nat, x: nat)
    requires ZeroDone(g, v, t, u, d, i, h) && LiveFile(g, v, t, d, i, h)
    requires WriteFailed(g, u, Without(t, h), w, t', 0, 0, h', x, [])
    ensures LiveFile(g, w, t', d, i, h) && SizeOf(AllSlots(g, w, t')[d][i]) == 0 && h' == x && t'.other == t.other
  {
    hide AllSlots, Shape, Live, IsDirectory, ClusterOf, SizeOf, FreeCount, FatKept, BytesAt, Shows, SizedSlot, Put, Wiped;
    var m, s := AllSlots(g, v, t), SizedSlot(AllSlots(g, v, t)[d][i], 0);
    SizedSlotFields(m[d][i], 0);
    LiveAfterPut(m, d, i, s, d, i);
  }

  lemma NotWritable(g: Geometry, w: View, t: Tree, d: nat, i: nat, h: nat, h': nat, x: nat)
    requires LiveFile(g, w, t, d, i, h) && h != 0 && h' == x
    ensures !Writable(g, w, t, d, i, h', 0, x)
  {
    hide AllSlots, Shape, Live, IsDirectory, ClusterOf, SizeOf, Working;
  }

  lemma EmptyFits(g: Geometry, t: Tree, s: Slot, h: nat, x: nat)
    requires ClusterOf(s) == h && SizeOf(s) == 0
    ensures Settling(g, t, s, x) <==> h == x
  {
  }
}
