/** What allocating, linking, cutting and freeing clusters does to the tree conditions. */
module TreeChains {
  import opened Geometry
  import opened Volumes
  import opened Chains
  import opened Allocation
  import opened Contents
  import opened Slots
  import opened Trees
  import opened TreeSteps

  /** t with the chain at head h replaced by (or created as) ch. */
  function WithChain(t: Tree, h: nat, ch: seq<nat>): Tree {
    t.(chains := t.chains[h := ch])
  }

  lemma ShapeWithChain(g: Geometry, v: View, t: Tree, w: View, h: nat, ch: seq<nat>)
    requires Shape(g, v, t) && Fitted(g, w) && IsChain(w.fat, ch) && ch[0] == h
    requires forall k | k in t.chains && k != h :: IsChain(w.fat, t.chains[k])
    requires forall k, c | k in t.chains && k != h && c in t.chains[k] :: c !in ch
    ensures Shape(g, w, WithChain(t, h, ch))
  {
    hide IsChain;
  }

  lemma FreeNotOwned(g: Geometry, v: View, t: Tree, c: nat)
    requires Shape(g, v, t) && c < |v.fat| && v.fat[c] == 0
    ensures !Owned(t, c) && forall h | h in t.chains :: c !in t.chains[h]
  {
    forall h | h in t.chains ensures c !in t.chains[h] {
      FreeNotOnChain(v.fat, t.chains[h], c);
    }
  }

  /** Only files' chains changed: every entry keeps what it names. */
  ghost predicate FilesKept(g: Geometry, v: View, t: Tree, w: View, t': Tree) {
    && Shape(g, v, t) && Shape(g, w, t') && t'.dirs == t.dirs && t'.home == t.home && t'.other == t.other
    && 0 !in t'.chains
    && (forall h | h in t.chains :: h in t'.chains)
    && AllSlots(g, w, t') == AllSlots(g, v, t)
  }

  lemma FilesKeptSound(g: Geometry, v: View, t: Tree, w: View, t': Tree)
    requires Sound(g, v, t) && FilesKept(g, v, t, w, t')
    ensures Sound(g, w, t')
  {
    hide AllSlots, Shape, TailUnused, DotsFirst;
  }

  /** If none of them got shorter, every size still fits. */
  lemma FilesGrewSafe(g: Geometry, v: View, t: Tree, w: View, t': Tree)
    requires Safe(g, v, t) && FilesKept(g, v, t, w, t')
    requires forall h | h in t.chains :: h in t'.chains && |t.chains[h]| <= |t'.chains[h]|
    ensures Safe(g, w, t')
  {
    hide AllSlots, Shape, TailUnused, DotsFirst;
    ShapeFacts(g, v, t);
    FilesKeptSound(g, v, t, w, t');
    var m := AllSlots(g, v, t);
    forall d: nat, i: nat | LiveIn(m, d, i) ensures SizeFits(g, t', m[d][i]) {
      var h := ClusterOf(m[d][i]);
      assert Linked(t, d, m[d][i]) && SizeFits(g, t, m[d][i]);
      if h in t.chains {
        TimesMonotone(|t.chains[h]|, |t'.chains[h]|, g.sectorsPerCluster);
      }
    }
  }

  /** (w, t') is (v, t) with files' chains begun or grown, at most. */
  ghost predicate Grew(g: Geometry, v: View, t: Tree, w: View, t': Tree) {
    FilesKept(g, v, t, w, t') && forall h | h in t.chains :: h in t'.chains && |t.chains[h]| <= |t'.chains[h]|
  }

  /** That keeps a volume safe. */
  lemma GrewSafe(g: Geometry, v: View, t: Tree, w: View, t': Tree)
    requires Safe(g, v, t) && Grew(g, v, t, w, t')
    ensures Safe(g, w, t')
  {
    hide FilesKept, Safe;
    FilesGrewSafe(g, v, t, w, t');
  }

  lemma GrewTwice(g: Geometry, u: View, t: Tree, v: View, t1: Tree, w: View, t2: Tree)
    requires Grew(g, u, t, v, t1) && Grew(g, v, t1, w, t2)
    ensures Grew(g, u, t, w, t2)
  {
    hide AllSlots, Shape;
  }

  /** Every block boundary since the journal was `before` was (v, t) with files' chains begun or grown. */
  ghost predicate AllGrew(g: Geometry, v: View, t: Tree, before: seq<View>, after: seq<View>) {
    before <= after && forall i | |before| <= i < |after| :: GrewTo(g, v, t, after[i])
  }

  ghost predicate GrewTo(g: Geometry, v: View, t: Tree, w: View) {
    exists t' :: Grew(g, v, t, w, t')
  }

  lemma AllGrewCompose(g: Geometry, u: View, t: Tree, v: View, t1: Tree, a: seq<View>, b: seq<View>, c: seq<View>)
    requires AllGrew(g, u, t, a, b) && Grew(g, u, t, v, t1) && AllGrew(g, v, t1, b, c)
    ensures AllGrew(g, u, t, a, c)
  {
    hide Grew;
    forall i | |a| <= i < |c| ensures GrewTo(g, u, t, c[i]) {
      if i < |b| {
        assert c[i] == b[i];
      } else {
        assert GrewTo(g, v, t1, c[i]);
        var t' :| Grew(g, v, t1, c[i], t');
        GrewTwice(g, u, t, v, t1, c[i], t');
      }
    }
  }

  lemma FilesKeptHoused(g: Geometry, v: View, t: Tree, w: View, t': Tree, y: nat, x: nat)
    requires FilesKept(g, v, t, w, t') && Housed(g, v, t, y) && (y == 0 || y == x) && x !in t.home
    requires forall h | h in t'.chains :: h in t.chains || h == x
    ensures Housed(g, w, t', x)
  {
    hide AllSlots, Shape;
  }

  // ---------------------------------------------------------------- allocation

  /** w is v after fat32_allocate_cluster took the free cluster c. */
  ghost predicate Took(g: Geometry, v: View, w: View, c: nat) {
    && Fitted(g, v) && g.InRange(c) && v.fat[c] == 0 && w.fat == v.fat[c := EOC] && Confined(g, v, w, {c}, {c})
  }

  /** w is v after fat32_append_cluster took c and linked it behind `last`. */
  ghost predicate Appended(g: Geometry, v: View, w: View, c: nat, last: nat) {
    && Fitted(g, v) && g.InRange(c) && g.InRange(last) && v.fat[c] == 0
    && w.fat == v.fat[c := EOC][last := c] && Confined(g, v, w, {c, last}, {c})
  }

  /** A cluster just taken belongs to nobody: nothing of the tree has changed. */
  lemma TookGrew(g: Geometry, v: View, t: Tree, w: View, c: nat)
    requires Shape(g, v, t) && c < |v.fat| && v.fat[c] == 0 && Confined(g, v, w, {c}, {c})
    ensures Grew(g, v, t, w, t)
  {
    hide Confined, Shape, AllSlots;
    ShapeFacts(g, v, t);
    FreeNotOwned(g, v, t, c);
    Untouched(g, v, w, t, {c}, {c});
  }

  lemma TookSafe(g: Geometry, v: View, t: Tree, w: View, c: nat)
    requires Safe(g, v, t) && Fitted(g, v) && c < |v.fat| && v.fat[c] == 0 && Confined(g, v, w, {c}, {c})
    ensures Safe(g, w, t)
  {
    hide Safe, Confined, Grew;
    SafeFacts(g, v, t);
    TookGrew(g, v, t, w, c);
    GrewSafe(g, v, t, w, t);
  }

  lemma OwnedWithChain(t: Tree, h: nat, ch: seq<nat>, c: nat)
    requires c in ch <==> (h in t.chains && c in t.chains[h])
    ensures Owned(WithChain(t, h, ch), c) <==> Owned(t, c)
  {
    var t' := WithChain(t, h, ch);
    if Owned(t, c) {
      var k :| k in t.chains && c in t.chains[k];
      assert k in t'.chains && c in t'.chains[k];
    }
    if Owned(t', c) {
      var k :| k in t'.chains && c in t'.chains[k];
      assert k in t.chains && c in t.chains[k];
    }
  }

  lemma AccountedGrew(v: View, t: Tree, w: View, h: nat, c: nat, ch: seq<nat>)
    requires Accounted(v, t) && OnVolume(v.fat, c) && v.fat[c] == 0 && |w.fat| == |v.fat|
    requires c in ch && forall x | x != c :: x in ch <==> h in t.chains && x in t.chains[h]
    requires forall x: nat | x < |v.fat| && x != c && !Owned(t, x) :: w.fat[x] == v.fat[x]
    ensures Accounted(w, WithChain(t, h, ch))
  {
    forall x: nat | x != c ensures Owned(WithChain(t, h, ch), x) <==> Owned(t, x) {
      OwnedWithChain(t.(chains := t.chains), h, ch, x) by {
        assert x in ch <==> (h in t.chains && x in t.chains[h]);
      }
    }
    assert h in WithChain(t, h, ch).chains && c in WithChain(t, h, ch).chains[h];
  }

  lemma HeadsAreOwned(g: Geometry, v: View, t: Tree, c: nat)
    requires Shape(g, v, t) && c in t.chains
    ensures Owned(t, c)
  {
    assert t.chains[c][0] in t.chains[c];
  }

  lemma HousedHeads(g: Geometry, v: View, t: Tree, x: nat, c: nat)
    requires Shape(g, v, t) && Housed(g, v, t, x) && c !in t.chains
    ensures c !in t.home
  {
  }

  /** The chain at h became ch, which is t's chain there (if any) plus the cluster c, free until now. */
  lemma GrewBy(g: Geometry, v: View, t: Tree, w: View, h: nat, ch: seq<nat>, c: nat, entries: set<nat>)
    requires Shape(g, v, t) && Confined(g, v, w, entries, {c}) && OnVolume(v.fat, c) && v.fat[c] == 0
    requires Shape(g, w, WithChain(t, h, ch)) && h !in t.dirs && c in ch
    requires h in t.chains ==> |t.chains[h]| <= |ch|
    requires forall x | x != c :: x in ch <==> h in t.chains && x in t.chains[h]
    requires forall e | e in entries :: e == c || Owned(t, e)
    ensures Grew(g, v, t, w, WithChain(t, h, ch))
    ensures Accounted(v, t) ==> Accounted(w, WithChain(t, h, ch))
  {
    hide AllSlots, Shape, Owned, IsChain, Accounted;
    var t' := WithChain(t, h, ch);
    ShapeFacts(g, v, t);
    ShapeFacts(g, w, t');
    FreeNotOwned(g, v, t, c);
    SlotsFrame(g, v, t, w, t', entries, {c});
    if Accounted(v, t) {
      AccountedGrew(v, t, w, h, c, ch);
    }
  }

  /** A taken cluster as a chain of its own. */
  lemma BegunChain(g: Geometry, v: View, t: Tree, w: View, c: nat)
    requires Shape(g, v, t) && Took(g, v, w, c)
    ensures c !in t.chains && Grew(g, v, t, w, WithChain(t, c, [c])) && Shape(g, w, WithChain(t, c, [c]))
    ensures Accounted(v, t) ==> Accounted(w, WithChain(t, c, [c]))
  {
    hide AllSlots, Accounted, Owned, Shape, Confined, Grew;
    ShapeFacts(g, v, t);
    FreeNotOwned(g, v, t, c);
    if c in t.chains {
      HeadsAreOwned(g, v, t, c);
    }
    assert AwayFromChains(t, {c});
    ShapeFrame(g, v, w, t, {c}, {c});
    ShapeWithChain(g, w, t, w, c, [c]);
    GrewBy(g, v, t, w, c, [c], c, {c});
  }

  /** A taken cluster as a chain of its own, named by nobody yet. */
  lemma NewChain(g: Geometry, v: View, t: Tree, w: View, c: nat)
    requires Safe(g, v, t) && Took(g, v, w, c)
    ensures c !in t.chains && Safe(g, w, WithChain(t, c, [c]))
    ensures Shape(g, v, t) && (Housed(g, v, t, 0) ==> Housed(g, w, WithChain(t, c, [c]), c))
    ensures Accounted(v, t) ==> Accounted(w, WithChain(t, c, [c]))
  {
    hide Safe, AllSlots, Housed, Accounted, Took, Shape, FilesKept;
    SafeFacts(g, v, t);
    BegunChain(g, v, t, w, c);
    GrewSafe(g, v, t, w, WithChain(t, c, [c]));
    if Housed(g, v, t, 0) {
      HousedHeads(g, v, t, 0, c);
      FilesKeptHoused(g, v, t, w, WithChain(t, c, [c]), 0, c);
    }
  }

  lemma LongerShape(g: Geometry, v: View, t: Tree, w: View, c: nat, h: nat)
    requires Shape(g, v, t) && h in t.chains && Fitted(g, w)
    requires Appended(g, v, w, c, t.chains[h][|t.chains[h]| - 1])
    ensures Shape(g, w, WithChain(t, h, t.chains[h] + [c]))
    ensures t.chains[h][|t.chains[h]| - 1] in t.chains[h] && c !in t.chains[h]
  {
    hide Confined;
    var ch := t.chains[h];
    var last := ch[|ch| - 1];
    FreeNotOwned(g, v, t, c);
    ChainFrame(v.fat, v.fat[c := EOC], ch);
    ChainExtend(v.fat[c := EOC], ch, c);
    assert last in ch;
    forall k | k in t.chains && k != h ensures IsChain(w.fat, t.chains[k]) {
      assert last !in t.chains[k];
      ChainFrame(v.fat, w.fat, t.chains[k]);
    }
    ShapeWithChain(g, v, t, w, h, ch + [c]);
  }

  /** A taken cluster linked behind the last of a file's chain. */
  lemma LongerChain(g: Geometry, v: View, t: Tree, w: View, c: nat, h: nat)
    requires Shape(g, v, t) && h in t.chains && h !in t.dirs && |t.chains[h]| > 0
    requires Appended(g, v, w, c, t.chains[h][|t.chains[h]| - 1])
    ensures Grew(g, v, t, w, WithChain(t, h, t.chains[h] + [c])) && Shape(g, w, WithChain(t, h, t.chains[h] + [c]))
    ensures Accounted(v, t) ==> Accounted(w, WithChain(t, h, t.chains[h] + [c]))
  {
    hide AllSlots, Accounted, Owned, Shape, IsChain, Grew;
    ShapeFacts(g, v, t);
    var last := t.chains[h][|t.chains[h]| - 1];
    LongerShape(g, v, t, w, c, h);
    OwnedBy(t, h, last);
    GrewBy(g, v, t, w, h, t.chains[h] + [c], c, {c, last});
  }

  lemma OwnedBy(t: Tree, h: nat, c: nat)
    requires h in t.chains && c in t.chains[h]
    ensures Owned(t, c)
  {
  }

  // ---------------------------------------------------------------- cutting and freeing

  /** j has v's data and, outside the k-th and later clusters of the chain at h, v's FAT; the k-th is marked last. */
  ghost predicate Cutting(v: View, t: Tree, j: View, h: nat, k: nat)
    requires h in t.chains && k < |t.chains[h]|
  {
    var ch := t.chains[h];
    && j.data == v.data && |j.fat| == |v.fat|
    && ch[k] < |v.fat| && j.fat[ch[k]] == EOC
    && forall c: nat | c < |v.fat| && c !in ch[k..] :: j.fat[c] == v.fat[c]
  }

  lemma CutShape(g: Geometry, v: View, t: Tree, j: View, h: nat, k: nat)
    requires Shape(g, v, t) && h in t.chains && k < |t.chains[h]| && Cutting(v, t, j, h, k)
    ensures Shape(g, j, WithChain(t, h, t.chains[h][..k + 1]))
  {
    var ch := t.chains[h];
    ChainCut(v.fat, ch, k, EOC);
    forall a | 0 <= a < k ensures ch[a] !in ch[k..] {
    }
    forall c: nat | c in ch[..k + 1] && c < |v.fat| ensures j.fat[c] == v.fat[ch[k] := EOC][c] {
      var a :| 0 <= a <= k && ch[a] == c;
    }
    ChainFrame(v.fat[ch[k] := EOC], j.fat, ch[..k + 1]);
    forall o | o in t.chains && o != h ensures IsChain(j.fat, t.chains[o]) {
      assert forall c | c in t.chains[o] :: c !in ch;
      ChainFrame(v.fat, j.fat, t.chains[o]);
    }
    assert forall c | c in ch[..k + 1] :: c in ch;
    ShapeWithChain(g, v, t, j, h, ch[..k + 1]);
  }

  /** A file's chain cut after its k-th cluster, whatever has become of the rest. */
  lemma CutChain(g: Geometry, v: View, t: Tree, j: View, h: nat, k: nat)
    requires Sound(g, v, t) && h in t.chains && h !in t.dirs && k < |t.chains[h]| && Cutting(v, t, j, h, k)
    ensures Sound(g, j, WithChain(t, h, t.chains[h][..k + 1]))
    ensures Shape(g, v, t)
    ensures Housed(g, v, t, 0) ==> Housed(g, j, WithChain(t, h, t.chains[h][..k + 1]), 0)
  {
    hide AllSlots, SoundIn, Housed, Shape, IsChain;
    var ch := t.chains[h];
    var t' := WithChain(t, h, ch[..k + 1]);
    CutShape(g, v, t, j, h, k);
    ShapeFacts(g, v, t);
    ShapeFacts(g, j, t');
    assert forall c | c in ch[k..] :: c in ch;
    assert Confined(g, v, j, ClustersOf(ch), {});
    SlotsFrame(g, v, t, j, t', ClustersOf(ch), {});
    FilesKeptSound(g, v, t, j, t');
    if Housed(g, v, t, 0) {
      HousedHeads(g, v, t, 0, 0);
      FilesKeptHoused(g, v, t, j, t', 0, 0);
    }
  }

  /** Once the rest is zeroed the books balance again. */
  lemma CutAccounted(g: Geometry, v: View, t: Tree, j: View, h: nat, k: nat)
    requires Shape(g, v, t) && h in t.chains && k < |t.chains[h]| && Cutting(v, t, j, h, k) && Accounted(v, t)
    requires forall c: nat | c in t.chains[h][k + 1..] && c < |j.fat| :: j.fat[c] == 0
    ensures Accounted(j, WithChain(t, h, t.chains[h][..k + 1]))
  {
    hide Shape, Owned;
    var ch := t.chains[h];
    var t' := WithChain(t, h, ch[..k + 1]);
    CutOwned(t, h, k);
    assert forall c | c in ch[k..] :: c in ch;
    forall c: nat | OnVolume(v.fat, c) && c in ch ensures Owned(t, c) {
      OwnedBy(t, h, c);
    }
  }

  lemma CutOwned(t: Tree, h: nat, k: nat)
    requires h in t.chains && k < |t.chains[h]|
    ensures var t' := WithChain(t, h, t.chains[h][..k + 1]);
            && (forall c | Owned(t', c) :: Owned(t, c))
            && (forall c | Owned(t, c) && !Owned(t', c) :: c in t.chains[h][k + 1..])
  {
    var ch := t.chains[h];
    var t' := WithChain(t, h, ch[..k + 1]);
    assert ch == ch[..k + 1] + ch[k + 1..];
    forall c | Owned(t', c) ensures Owned(t, c) {
      var o :| o in t'.chains && c in t'.chains[o];
      OwnedBy(t, o, c);
    }
    forall c | Owned(t, c) && c !in ch[k + 1..] ensures Owned(t', c) {
      var o :| o in t.chains && c in t.chains[o];
      OwnedBy(t', o, c);
    }
  }
}
