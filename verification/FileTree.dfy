/** The volume as a tree of named byte strings. */
module FileTree {
  import opened Bytes
  import opened Geometry
  import opened Volumes
  import opened Contents
  import opened FileRead
  import opened Slots
  import opened Trees
  import opened TreeSteps
  import opened TreeUnique
  import opened FileWrite
  import opened NameMaps
  import opened EmptyDirs

  /** What a name stands for: a file with its bytes, or one of the directories. */
  datatype Node = File(bytes: seq<byte>) | Directory(id: nat)

  type Names = map<Name83, Node>

  /** Every directory's names. */
  type Model = map<nat, Names>

  // ---------------------------------------------------------------- abstraction

  /** The bytes of a file with that first cluster and size; nothing if the chain is too short for them. */
  ghost function BytesOf(g: Geometry, v: View, t: Tree, h: nat, size: nat): seq<byte> {
    if Placed(g, ChainAt(t, h)) && Fitted(g, v) && size <= 512 * Sectors(g, |ChainAt(t, h)|)
    then Content(g, v, ChainAt(t, h), size) else []
  }

  ghost function NodeOf(g: Geometry, v: View, t: Tree, s: Slot): Node {
    if IsDirectory(s) then Directory(ClusterOf(s)) else File(BytesOf(g, v, t, ClusterOf(s), SizeOf(s)))
  }

  ghost function NamesOf(g: Geometry, v: View, t: Tree, ss: seq<Slot>): (ns: Names)
    requires UniqueNames(ss)
    ensures ns.Keys == Bindings(ss).Keys
    ensures forall n | n in ns :: ns[n] == NodeOf(g, v, t, Bindings(ss)[n])
  {
    map n | n in Bindings(ss) :: NodeOf(g, v, t, Bindings(ss)[n])
  }

  /** No directory but the root holds a volume label. */
  ghost predicate Unlabelled(g: Geometry, m: Dirs) {
    forall d | d in m && d != g.rootCluster :: NoLabels(m[d])
  }

  /** Well formed, and every directory a map. */
  ghost predicate Good(g: Geometry, v: View, t: Tree) {
    WellFormed(g, v, t) && AllMapLike(AllSlots(g, v, t)) && Unlabelled(g, AllSlots(g, v, t))
  }

  lemma UnlabelledPut(g: Geometry, m: Dirs, d: nat, i: nat, s: Slot)
    requires Unlabelled(g, m) && d in m && i < |m[d]| && (IsFree(s) || Live(s))
    ensures Unlabelled(g, Put(m, d, i, s))
  {
    hide IsFree, IsLong, IsDot;
  }

  lemma MapLikeUnique(m: Dirs, d: nat)
    requires AllMapLike(m) && d in m
    ensures UniqueNames(m[d]) && MapLike(m[d])
  {
  }

  ghost function ModelOf(g: Geometry, v: View, t: Tree, m: Dirs): (r: Model)
    requires AllMapLike(m)
    ensures r.Keys == m.Keys
    ensures forall d | d in m :: UniqueNames(m[d]) && r[d] == NamesOf(g, v, t, m[d])
  {
    map d | d in m :: MapLikeUnique(m, d); NamesOf(g, v, t, m[d])
  }

  // ---------------------------------------------------------------- nodes that stay

  /** Off head h, every file chain is where it was and holds what it held. */
  ghost predicate ChainsStay(g: Geometry, v: View, t: Tree, w: View, t': Tree, h: nat) {
    && Fitted(g, v) && Fitted(g, w) && 0 !in t.chains && 0 !in t'.chains
    && forall k | k in t.chains && k != h && k !in t.dirs ::
         k in t'.chains && t'.chains[k] == t.chains[k] && SameBytes(g, v, w, t.chains[k])
  }

  lemma BytesStay(g: Geometry, v: View, t: Tree, w: View, t': Tree, h: nat, k: nat, size: nat)
    requires ChainsStay(g, v, t, w, t', h)
    requires k != 0 ==> k != h && k in t.chains && k !in t.dirs
    ensures BytesOf(g, w, t', k, size) == BytesOf(g, v, t, k, size)
  {
    hide ChainBytes;
    if k == 0 {
      assert ChainAt(t, k) == [] == ChainAt(t', k);
      assert size > 0 ==> BytesOf(g, w, t', k, size) == [];
    }
  }

  /** A live entry other than that of the file at h stands for what it stood for. */
  lemma NodeStays(g: Geometry, v: View, t: Tree, w: View, t': Tree, h: nat, m: Dirs, e: nat, j: nat)
    requires SoundIn(t, m) && LiveIn(m, e, j) && ChainsStay(g, v, t, w, t', h)
    requires ClusterOf(m[e][j]) == h && h != 0 ==> IsDirectory(m[e][j])
    ensures NodeOf(g, w, t', m[e][j]) == NodeOf(g, v, t, m[e][j])
  {
    hide TailUnused, DotsFirst, Live, ChainsStay, BytesOf, ClusterOf, SizeOf;
    assert Linked(t, e, m[e][j]);
    if !IsDirectory(m[e][j]) {
      BytesStay(g, v, t, w, t', h, ClusterOf(m[e][j]), SizeOf(m[e][j]));
    }
  }

  /** Two live entries with the same first cluster are the same entry. */
  lemma OneHome(g: Geometry, t: Tree, m: Dirs, d: nat, i: nat, e: nat, j: nat)
    requires HousedIn(g, t, m, 0) && LiveIn(m, d, i) && LiveIn(m, e, j)
    requires ClusterOf(m[d][i]) == ClusterOf(m[e][j]) != 0
    ensures (d, i) == (e, j)
  {
  }

  /** The names of a directory keep their nodes, that of slot i of d aside. */
  lemma NamesStay(g: Geometry, v: View, t: Tree, w: View, t': Tree, h: nat, m: Dirs, e: nat, d: nat, i: nat)
    requires SoundIn(t, m) && AllMapLike(m) && e in m && ChainsStay(g, v, t, w, t', h)
    requires forall j: nat | LiveIn(m, e, j) && (e, j) != (d, i) && ClusterOf(m[e][j]) == h && h != 0 :: IsDirectory(m[e][j])
    ensures UniqueNames(m[e])
    ensures var ns, ns' := NamesOf(g, v, t, m[e]), NamesOf(g, w, t', m[e]);
            && ns.Keys == ns'.Keys
            && forall n | n in ns && !(LiveIn(m, d, i) && e == d && n == NameOf(m[d][i])) :: ns'[n] == ns[n]
  {
    hide TailUnused, DotsFirst, Live, ChainsStay, ClusterOf, NodeOf, IsDirectory, NameOf, LongFree, PlainDots, Bindings,
         NamesOf;
    MapLikeUnique(m, e);
    var ns, ns' := NamesOf(g, v, t, m[e]), NamesOf(g, w, t', m[e]);
    forall n | n in ns && !(LiveIn(m, d, i) && e == d && n == NameOf(m[d][i])) ensures ns'[n] == ns[n] {
      var j :| 0 <= j < |m[e]| && Live(m[e][j]) && NameOf(m[e][j]) == n;
      assert LiveIn(m, e, j);
      NodeStays(g, v, t, w, t', h, m, e, j);
    }
  }

  // ---------------------------------------------------------------- changes

  /** The model with name n of directory d standing for x. */
  function Bind(a: Model, d: nat, n: Name83, x: Node): (r: Model)
    requires d in a
    ensures r.Keys == a.Keys
  {
    var names: Names := a[d][n := x];
    a[d := names]
  }

  /** The model without name n of directory d. */
  function Unbind(a: Model, d: nat, n: Name83): (r: Model)
    requires d in a
    ensures r.Keys == a.Keys
  {
    var names: Names := a[d] - {n};
    a[d := names]
  }

  /** The file chain at h is named by no live entry, unless by slot i of d. */
  ghost predicate OnlyUser(m: Dirs, d: nat, i: nat, h: nat) {
    forall e: nat, j: nat | LiveIn(m, e, j) && (e, j) != (d, i) && ClusterOf(m[e][j]) == h && h != 0 :: IsDirectory(m[e][j])
  }

  /** A directory without slot i of d keeps its names and their nodes. */
  lemma NamesSame(g: Geometry, v: View, t: Tree, w: View, t': Tree, h: nat, m: Dirs, e: nat, d: nat, i: nat)
    requires SoundIn(t, m) && AllMapLike(m) && e in m && ChainsStay(g, v, t, w, t', h) && OnlyUser(m, d, i, h) && e != d
    ensures UniqueNames(m[e]) && NamesOf(g, w, t', m[e]) == NamesOf(g, v, t, m[e])
  {
    hide SoundIn, Live, ChainsStay, ClusterOf, NodeOf, IsDirectory, MapLike, NamesOf;
    NamesStay(g, v, t, w, t', h, m, e, d, i);
  }

  lemma NamesPut(g: Geometry, v: View, t: Tree, w: View, t': Tree, h: nat, m: Dirs, d: nat, i: nat, ss: seq<Slot>, n: Name83, s: Slot)
    requires SoundIn(t, m) && AllMapLike(m) && d in m && ChainsStay(g, v, t, w, t', h) && OnlyUser(m, d, i, h)
    requires LiveIn(m, d, i) ==> NameOf(m[d][i]) == n
    requires UniqueNames(m[d]) && UniqueNames(ss) && Bindings(ss) == Bindings(m[d])[n := s]
    ensures NamesOf(g, w, t', ss) == NamesOf(g, v, t, m[d])[n := NodeOf(g, w, t', s)]
  {
    hide SoundIn, Live, ChainsStay, ClusterOf, NodeOf, IsDirectory, MapLike, NamesOf, Bindings, UniqueNames, NameOf;
    NamesStay(g, v, t, w, t', h, m, d, d, i);
    var ns, ns' := NamesOf(g, v, t, m[d])[n := NodeOf(g, w, t', s)], NamesOf(g, w, t', ss);
    forall x | x in ns' ensures x in ns && ns'[x] == ns[x] {
      if x != n {
        assert ns'[x] == NodeOf(g, w, t', Bindings(m[d])[x]) == NamesOf(g, w, t', m[d])[x];
      }
    }
    assert ns.Keys == ns'.Keys;
  }

  lemma NamesDrop(g: Geometry, v: View, t: Tree, w: View, t': Tree, h: nat, m: Dirs, d: nat, i: nat, ss: seq<Slot>, n: Name83)
    requires SoundIn(t, m) && AllMapLike(m) && ChainsStay(g, v, t, w, t', h) && OnlyUser(m, d, i, h)
    requires LiveIn(m, d, i) && NameOf(m[d][i]) == n
    requires UniqueNames(m[d]) && UniqueNames(ss) && Bindings(ss) == Bindings(m[d]) - {n}
    ensures NamesOf(g, w, t', ss) == NamesOf(g, v, t, m[d]) - {n}
  {
    hide SoundIn, Live, ChainsStay, ClusterOf, NodeOf, IsDirectory, MapLike, NamesOf, Bindings, UniqueNames, NameOf;
    NamesStay(g, v, t, w, t', h, m, d, d, i);
    var ns, ns' := NamesOf(g, v, t, m[d]) - {n}, NamesOf(g, w, t', ss);
    forall x | x in ns' ensures x in ns && ns'[x] == ns[x] {
      assert ns'[x] == NodeOf(g, w, t', Bindings(m[d])[x]) == NamesOf(g, w, t', m[d])[x];
    }
    assert ns.Keys == ns'.Keys;
  }

  lemma BindIs(a: Model, d: nat, n: Name83, x: Node, r: Model)
    requires d in a && r.Keys == a.Keys && r[d] == a[d][n := x] && forall e | e in a && e != d :: r[e] == a[e]
    ensures r == Bind(a, d, n, x)
  {
  }

  lemma BindMakeIs(a: Model, d: nat, n: Name83, x: Node, c: nat, r: Model)
    requires d in a && c !in a && r.Keys == a.Keys + {c} && r[d] == a[d][n := x] && r[c] == map[]
    requires forall e | e in a && e != d :: r[e] == a[e]
    ensures r == Bind(a, d, n, x)[c := map[]]
  {
  }

  /** One name bound in one directory: create, write and truncate. */
  lemma ModelPut(g: Geometry, v: View, t: Tree, w: View, t': Tree, h: nat, m: Dirs, m': Dirs, d: nat, i: nat, n: Name83, s: Slot)
    requires SoundIn(t, m) && AllMapLike(m) && AllMapLike(m') && d in m && ChainsStay(g, v, t, w, t', h) && OnlyUser(m, d, i, h)
    requires LiveIn(m, d, i) ==> NameOf(m[d][i]) == n
    requires m'.Keys == m.Keys && (forall e | e in m && e != d :: m'[e] == m[e])
    requires UniqueNames(m[d]) && UniqueNames(m'[d]) && Bindings(m'[d]) == Bindings(m[d])[n := s]
    ensures var a := ModelOf(g, v, t, m);
            ModelOf(g, w, t', m') == Bind(a, d, n, NodeOf(g, w, t', s))
  {
    hide SoundIn, LiveIn, ChainsStay, OnlyUser, NodeOf, MapLike, NamesOf, Bindings, UniqueNames, NameOf, ModelOf, AllMapLike, Bind;
    NamesPut(g, v, t, w, t', h, m, d, i, m'[d], n, s);
    forall e | e in m && e != d ensures ModelOf(g, w, t', m')[e] == ModelOf(g, v, t, m)[e] {
      NamesSame(g, v, t, w, t', h, m, e, d, i);
    }
    BindIs(ModelOf(g, v, t, m), d, n, NodeOf(g, w, t', s), ModelOf(g, w, t', m'));
  }

  /** One name bound, to a directory that is new and empty: mkdir. */
  lemma ModelMake(g: Geometry, v: View, t: Tree, w: View, t': Tree, m: Dirs, m': Dirs, d: nat, i: nat, n: Name83, s: Slot, c: nat)
    requires SoundIn(t, m) && AllMapLike(m) && AllMapLike(m') && d in m && ChainsStay(g, v, t, w, t', 0) && !LiveIn(m, d, i)
    requires c !in m && m'.Keys == m.Keys + {c} && (forall e | e in m && e != d :: m'[e] == m[e])
    requires UniqueNames(m[d]) && UniqueNames(m'[d]) && Bindings(m'[d]) == Bindings(m[d])[n := s]
    requires UniqueNames(m'[c]) && Bindings(m'[c]) == map[]
    ensures var a := ModelOf(g, v, t, m);
            ModelOf(g, w, t', m') == Bind(a, d, n, NodeOf(g, w, t', s))[c := map[]]
  {
    hide SoundIn, LiveIn, ChainsStay, NodeOf, MapLike, NamesOf, Bindings, UniqueNames, NameOf, ModelOf, AllMapLike, Bind;
    NamesPut(g, v, t, w, t', 0, m, d, i, m'[d], n, s);
    forall e | e in m && e != d ensures ModelOf(g, w, t', m')[e] == ModelOf(g, v, t, m)[e] {
      NamesSame(g, v, t, w, t', 0, m, e, d, i);
    }
    assert NamesOf(g, w, t', m'[c]) == map[];
    BindMakeIs(ModelOf(g, v, t, m), d, n, NodeOf(g, w, t', s), c, ModelOf(g, w, t', m'));
  }

  /** One name unbound, and the directory at h (if there is one) with it: remove, rmdir, and half of rename. */
  lemma ModelDrop(g: Geometry, v: View, t: Tree, w: View, t': Tree, h: nat, m: Dirs, m': Dirs, d: nat, i: nat, n: Name83)
    requires SoundIn(t, m) && AllMapLike(m) && AllMapLike(m') && d in m && ChainsStay(g, v, t, w, t', h) && OnlyUser(m, d, i, h)
    requires LiveIn(m, d, i) && NameOf(m[d][i]) == n && d != h
    requires m'.Keys == m.Keys - {h} && (forall e | e in m' && e != d :: m'[e] == m[e])
    requires UniqueNames(m[d]) && UniqueNames(m'[d]) && Bindings(m'[d]) == Bindings(m[d]) - {n}
    ensures var a := ModelOf(g, v, t, m);
            ModelOf(g, w, t', m') == Unbind(a, d, n) - {h}
  {
    hide SoundIn, LiveIn, ChainsStay, OnlyUser, NodeOf, MapLike, NamesOf, Bindings, UniqueNames, NameOf, ModelOf, AllMapLike;
    NamesDrop(g, v, t, w, t', h, m, d, i, m'[d], n);
    forall e | e in m' && e != d ensures ModelOf(g, w, t', m')[e] == ModelOf(g, v, t, m)[e] {
      NamesSame(g, v, t, w, t', h, m, e, d, i);
    }
  }

  // ---------------------------------------------------------------- the tree of a good volume

  ghost function TreeOf(g: Geometry, v: View, t: Tree): Model
    requires Good(g, v, t)
  {
    ModelOf(g, v, t, AllSlots(g, v, t))
  }

  lemma GoodFacts(g: Geometry, v: View, t: Tree)
    requires Good(g, v, t)
    ensures WellFormed(g, v, t) && Shape(g, v, t) && AllMapLike(AllSlots(g, v, t)) && Unlabelled(g, AllSlots(g, v, t))
    ensures SoundIn(t, AllSlots(g, v, t)) && Fitted(g, v) && 0 !in t.chains && 0 !in t.dirs && g.rootCluster in t.dirs
    ensures HousedIn(g, t, AllSlots(g, v, t), 0) && SizedIn(g, t, AllSlots(g, v, t))
  {
    hide AllSlots, SoundIn, SizedIn, HousedIn, Accounted, AllMapLike, Unlabelled;
    ShapeFacts(g, v, t);
  }

  /** If file chains kept their bytes wherever they stayed, they stay. */
  lemma AllStay(g: Geometry, v: View, t: Tree, w: View, t': Tree, h: nat)
    requires Fitted(g, v) && Fitted(g, w) && 0 !in t.chains && 0 !in t'.chains
    requires forall k | k in t.chains && k != h && k !in t.dirs :: k in t'.chains && t'.chains[k] == t.chains[k]
    requires forall k | k in t.chains && k != h && k !in t.dirs :: SameBytes(g, v, w, t.chains[k])
    ensures ChainsStay(g, v, t, w, t', h)
  {
    hide SameBytes;
  }

  lemma NobodyUses(m: Dirs, d: nat, i: nat)
    ensures OnlyUser(m, d, i, 0)
  {
  }

  /** In a well-formed volume a file's chain has one user. */
  lemma HomeIsOnlyUser(g: Geometry, t: Tree, m: Dirs, d: nat, i: nat)
    requires HousedIn(g, t, m, 0) && LiveIn(m, d, i)
    ensures OnlyUser(m, d, i, ClusterOf(m[d][i]))
  {
    hide Live, ClusterOf, IsDirectory;
  }

  /** If every file chain stays that an entry names, the tree of names does. */
  lemma ModelSame(g: Geometry, v: View, t: Tree, w: View, t': Tree, h: nat, m: Dirs)
    requires SoundIn(t, m) && AllMapLike(m) && ChainsStay(g, v, t, w, t', h) && (h == 0 || Unnamed(m, h))
    ensures ModelOf(g, w, t', m) == ModelOf(g, v, t, m)
  {
    hide SoundIn, ChainsStay, NamesOf, ModelOf, AllMapLike, Live, ClusterOf;
    forall e | e in m ensures ModelOf(g, w, t', m)[e] == ModelOf(g, v, t, m)[e] {
      assert OnlyUser(m, e + 1, 0, h);
      NamesSame(g, v, t, w, t', h, m, e, e + 1, 0);
    }
  }
}
