/** Directories without long names refine maps: what each operation does to the bindings of the whole tree. */
module Directories {
  import opened Bytes
  import opened Volumes
  import opened Slots
  import opened Names83
  import opened LongNames
  import opened Trees
  import opened TreeSteps
  import opened TreeNames
  import opened Paths
  import opened Resolving
  import opened NameMaps
  import opened Plans
  import opened Creating
  import opened MakingDirs
  import opened Renaming
  import opened FileWrite
  import opened Listing

  /** The bindings of directory d. */
  ghost function BindingsOf(m: Dirs, d: nat): map<Name83, Slot>
    requires AllMapLike(m) && d in m
  {
    Bindings(m[d])
  }

  // ---------------------------------------------------------------- create and mkdir

  /** A new entry adds one binding, which was not there, to one directory. */
  lemma NewEntryAddsBinding(m: Dirs, root: nat, path: Text, d: nat, i: nat, s: Slot)
    requires AllMapLike(m) && NewPlace(m, root, path) == Place(d, i)
    requires Accepted(NameIn(path)) && Live(s) && s[0] != DOT && NameOf(s) == Encode(NameIn(path))
    ensures AllMapLike(Put(m, d, i, s)) && NameOf(s) !in BindingsOf(m, d)
    ensures BindingsOf(Put(m, d, i, s), d) == BindingsOf(m, d)[NameOf(s) := s]
    ensures forall e | e in m && e != d :: BindingsOf(Put(m, d, i, s), e) == BindingsOf(m, e)
  {
    hide MapLike, Bindings, Live, Find, Encode, Accepted, FirstFree, Split, Resolve, NameOf;
    FindIsLookup(m[d], NameIn(path));
    AddBinding(m[d], i, s);
  }

  /** create: one new binding, to an empty file. */
  lemma CreateAddsBinding(m: Dirs, root: nat, path: Text, d: nat, i: nat)
    requires AllMapLike(m) && NewPlace(m, root, path) == Place(d, i) && OrdinaryName(path) && Accepted(NameIn(path))
    ensures var s := NewEntry(path, ATTR_ARCHIVE, 0, 0);
            && AllMapLike(Put(m, d, i, s)) && Encode(NameIn(path)) !in BindingsOf(m, d)
            && BindingsOf(Put(m, d, i, s), d) == BindingsOf(m, d)[Encode(NameIn(path)) := s]
            && (forall e | e in m && e != d :: BindingsOf(Put(m, d, i, s), e) == BindingsOf(m, e))
            && ClusterOf(s) == 0 && SizeOf(s) == 0 && !IsDirectory(s)
  {
    hide AllMapLike, BindingsOf, NewPlace, NameIn, Encode, Accepted, Live, Put, ClusterOf, SizeOf, IsDirectory;
    NameInIsText(path);
    NewEntryLive(NameIn(path), ATTR_ARCHIVE, 0, 0);
    NewEntryAddsBinding(m, root, path, d, i, NewEntry(path, ATTR_ARCHIVE, 0, 0));
  }

  /** mkdir: one new binding, to a new directory without bindings. */
  lemma MkdirAddsBinding(m: Dirs, root: nat, path: Text, d: nat, i: nat, c: nat, m': Dirs)
    requires AllMapLike(m) && NewPlace(m, root, path) == Place(d, i) && OrdinaryName(path) && Accepted(NameIn(path))
    requires c < U32 && c !in m && m'.Keys == m.Keys + {c} && FreshDir(m'[c], c, d)
    requires m'[d] == m[d][i := NewEntry(path, ATTR_DIRECTORY, c, 0)] && forall e | e in m && e != d :: m'[e] == m[e]
    ensures var s := NewEntry(path, ATTR_DIRECTORY, c, 0);
            && AllMapLike(m') && Encode(NameIn(path)) !in BindingsOf(m, d)
            && BindingsOf(m', d) == BindingsOf(m, d)[Encode(NameIn(path)) := s]
            && (forall e | e in m && e != d :: BindingsOf(m', e) == BindingsOf(m, e))
            && BindingsOf(m', c) == map[] && ClusterOf(s) == c && IsDirectory(s)
  {
    hide NewPlace, NameIn, Encode, Accepted, Live, ClusterOf, SizeOf, IsDirectory, MapLike, Bindings, FreshDir;
    NameInIsText(path);
    var s := NewEntry(path, ATTR_DIRECTORY, c, 0);
    NewEntryLive(NameIn(path), ATTR_DIRECTORY, c, 0);
    NewEntryAddsBinding(m, root, path, d, i, s);
    FreshDirFacts(m'[c], c, d);
    assert Put(m, d, i, s)[d] == m'[d];
    forall e | e in m' ensures MapLike(m'[e]) {
      assert e != c ==> Put(m, d, i, s)[e] == m'[e];
    }
  }

  // ---------------------------------------------------------------- remove and rmdir

  lemma ClearedMapLike(m: Dirs, d: nat, i: nat)
    requires AllMapLike(m) && LiveIn(m, d, i) && d != ClusterOf(m[d][i])
    ensures AllMapLike(Cleared(m, d, i))
    ensures BindingsOf(Cleared(m, d, i), d) == BindingsOf(m, d) - {NameOf(m[d][i])}
    ensures forall e | e in Cleared(m, d, i) && e != d :: BindingsOf(Cleared(m, d, i), e) == BindingsOf(m, e)
  {
    hide MapLike, Bindings, Live, ClusterOf, DeletedSlot, NameOf;
    RemoveBinding(m[d], i);
  }

  /** remove and rmdir: exactly the binding of the path's last name goes. */
  lemma RemoveDropsBinding(m: Dirs, root: nat, path: Text, d: nat, i: nat)
    requires AllMapLike(m) && OldPlace(m, root, path) == Place(d, i) && LiveIn(m, d, i) && d != ClusterOf(m[d][i])
    ensures Accepted(NameIn(path)) && Encode(NameIn(path)) in BindingsOf(m, d) && AllMapLike(Cleared(m, d, i))
    ensures NameOf(m[d][i]) == Encode(NameIn(path))
    ensures BindingsOf(Cleared(m, d, i), d) == BindingsOf(m, d) - {Encode(NameIn(path))}
    ensures forall e | e in Cleared(m, d, i) && e != d :: BindingsOf(Cleared(m, d, i), e) == BindingsOf(m, e)
  {
    hide MapLike, Bindings, Live, Find, Encode, Accepted, Split, Resolve, NameOf, ClusterOf, DeletedSlot;
    FindIsLookup(m[d], NameIn(path));
    ClearedMapLike(m, d, i);
    BoundName(m[d], i, NameIn(path));
  }

  /** Afterwards the path leads nowhere. */
  lemma RemovedPathGone(t: Tree, m: Dirs, root: nat, path: Text, d: nat, i: nat)
    requires AllMapLike(m) && SoundIn(t, m) && m.Keys == t.dirs.Keys && root in t.dirs && 0 !in t.dirs
    requires OldPlace(m, root, path) == Place(d, i) && LiveIn(m, d, i) && Linked(t, d, m[d][i]) && d != ClusterOf(m[d][i])
    ensures Resolve(Cleared(m, d, i), root, path) == Unresolved(NotFound)
  {
    hide MapLike, Bindings, Live, Find, Encode, Accepted, SplitInto, Resolve, NameOf, SoundIn, ClusterOf, DeletedSlot;
    var name, m' := NameIn(path), Cleared(m, d, i);
    RemoveDropsBinding(m, root, path, d, i);
    ParentStable(t, m, m', root, path);
    FindIsLookup(m'[d], name);
    OldPlaceResolves(m', root, path);
  }

  lemma BoundName(ss: seq<Slot>, i: nat, name: seq<byte>)
    requires MapLike(ss) && i < |ss| && Live(ss[i])
    requires Accepted(name) && Encode(name) in Bindings(ss) && Bindings(ss)[Encode(name)] == ss[i]
    ensures NameOf(ss[i]) == Encode(name)
  {
    hide Encode, Accepted, Live;
  }

  // ---------------------------------------------------------------- rename

  /** Deleting one entry of a map-like tree. */
  lemma DeleteDropsBinding(m: Dirs, d: nat, i: nat)
    requires AllMapLike(m) && LiveIn(m, d, i)
    ensures AllMapLike(Put(m, d, i, DeletedSlot(m[d][i])))
    ensures BindingsOf(Put(m, d, i, DeletedSlot(m[d][i])), d) == BindingsOf(m, d) - {NameOf(m[d][i])}
    ensures forall e | e in m && e != d :: BindingsOf(Put(m, d, i, DeletedSlot(m[d][i])), e) == BindingsOf(m, e)
  {
    hide MapLike, Bindings, Live, DeletedSlot, NameOf;
    RemoveBinding(m[d], i);
  }

  /** rename: the old binding goes, one that was not there comes, with the same first cluster and size; the other
      bindings, in the same directory and in all others, stay. */
  lemma RenameMovesBinding(m: Dirs, root: nat, oldPath: Text, newPath: Text, d0: nat, i0: nat, d: nat, i: nat)
    requires AllMapLike(m) && RenameMove(m, root, oldPath, newPath) == Move(Place(d0, i0), Place(d, i))
    requires LiveIn(m, d0, i0) && OrdinaryName(newPath) && Accepted(NameIn(newPath)) && Accepted(NameIn(oldPath))
    ensures d in m && i < |m[d]|
    ensures var s0 := m[d0][i0];
            var s := MovedEntry(newPath, s0);
            var n0, n := Encode(NameIn(oldPath)), Encode(NameIn(newPath));
            var m' := Moved(m, d0, i0, d, i, s);
            && AllMapLike(m') && n0 in BindingsOf(m, d0) && BindingsOf(m, d0)[n0] == s0 && n !in BindingsOf(m, d)
            && (d == d0 ==> BindingsOf(m', d) == (BindingsOf(m, d) - {n0})[n := s])
            && (d != d0 ==> BindingsOf(m', d) == BindingsOf(m, d)[n := s] && BindingsOf(m', d0) == BindingsOf(m, d0) - {n0})
            && (forall e | e in m && e != d && e != d0 :: BindingsOf(m', e) == BindingsOf(m, e))
            && ClusterOf(s) == ClusterOf(s0) && SizeOf(s) == SizeOf(s0)
  {
    hide MapLike, Bindings, Live, NewPlace, NameIn, Encode, Accepted, ClusterOf, SizeOf, IsDirectory, DeletedSlot, Find,
         NameOf, MovedEntry, Split, Resolve;
    var s0, n0, n := m[d0][i0], Encode(NameIn(oldPath)), Encode(NameIn(newPath));
    var s := MovedEntry(newPath, s0);
    MovedEntryFacts(newPath, s0);
    PlainStart(s, newPath);
    NewEntryAddsBinding(m, root, newPath, d, i, s);
    OldPlaceBinding(m, root, oldPath, d0, i0);
    FirstFreeIsFree(m[d], i);
    LiveAfterPut(m, d, i, s, d0, i0);
    DeleteDropsBinding(Put(m, d, i, s), d0, i0);
    if d == d0 {
      BoundThenDropped(BindingsOf(m, d), n, s, n0);
    }
  }

  lemma BoundThenDropped(b: map<Name83, Slot>, n: Name83, s: Slot, n0: Name83)
    requires n != n0
    ensures b[n := s] - {n0} == (b - {n0})[n := s]
  {
  }

  lemma PlainStart(s: Slot, path: Text)
    requires Accepted(NameIn(path)) && NameOf(s) == Encode(NameIn(path))
    ensures s[0] != DOT
  {
    hide Encode, Accepted, NameIn;
    EncodedStart(NameIn(path));
    assert s[0] == NameOf(s)[0];
  }

  lemma OldPlaceBinding(m: Dirs, root: nat, path: Text, d: nat, i: nat)
    requires AllMapLike(m) && OldPlace(m, root, path) == Place(d, i) && LiveIn(m, d, i) && Accepted(NameIn(path))
    ensures NameOf(m[d][i]) == Encode(NameIn(path))
    ensures NameOf(m[d][i]) in BindingsOf(m, d) && BindingsOf(m, d)[NameOf(m[d][i])] == m[d][i]
  {
    hide MapLike, Bindings, Live, Find, Encode, Accepted, Split, Resolve;
    FindIsLookup(m[d], NameIn(path));
    BoundName(m[d], i, NameIn(path));
  }

  // ---------------------------------------------------------------- write and truncate

  /** write and truncate rebind the file's own name, to an entry that differs in first cluster and size only. */
  lemma ExtentKeepsBindings(m: Dirs, d: nat, i: nat, s: Slot)
    requires AllMapLike(m) && LiveIn(m, d, i) && SameButExtent(m[d][i], s)
    ensures AllMapLike(Put(m, d, i, s))
    ensures BindingsOf(Put(m, d, i, s), d) == BindingsOf(m, d)[NameOf(m[d][i]) := s]
    ensures forall e | e in m && e != d :: BindingsOf(Put(m, d, i, s), e) == BindingsOf(m, e)
  {
    hide MapLike, Bindings, Live, NameOf;
    SameName(m[d][i], s);
    UpdateBinding(m[d], i, s);
  }

  // ---------------------------------------------------------------- listing

  /** The slots a listing reports, in order. */
  function ListedSlots(ss: seq<Slot>): (r: seq<Slot>)
    ensures |r| == |Listed(ss, 0)|
    ensures forall a | 0 <= a < |r| && Listed(ss, 0)[a] < |ss| :: r[a] == ss[Listed(ss, 0)[a]]
  {
    seq(|Listed(ss, 0)|, a requires 0 <= a < |Listed(ss, 0)| =>
      if Listed(ss, 0)[a] < |ss| then ss[Listed(ss, 0)[a]] else Zeros(32))
  }

  ghost predicate Lists(r: seq<Slot>, n: Name83) {
    exists a :: 0 <= a < |r| && NameOf(r[a]) == n
  }

  lemma LiveIsListed(ss: seq<Slot>, i: nat)
    requires TailUnused(ss) && i < |ss| && Live(ss[i])
    ensures Lists(ListedSlots(ss), NameOf(ss[i]))
  {
    hide Live, NameOf, Listed, TailUnused, ListedSlots;
    ListedAll(ss, 0);
    var a :| 0 <= a < |Listed(ss, 0)| && Listed(ss, 0)[a] == i;
    assert ListedSlots(ss)[a] == ss[i];
  }

  /** Every binding is listed, ... */
  lemma BindingIsListed(ss: seq<Slot>, n: Name83)
    requires MapLike(ss)
    ensures n in Bindings(ss) ==> Lists(ListedSlots(ss), n)
  {
    hide Live, NameOf, Bindings, TailUnused, Lists;
    if n in Bindings(ss) {
      var i :| 0 <= i < |ss| && Live(ss[i]) && NameOf(ss[i]) == n;
      LiveIsListed(ss, i);
    }
  }

  /** ... and the whole listing names each binding exactly once. */
  lemma ListingIsBindings(ss: seq<Slot>)
    requires MapLike(ss)
    ensures forall n :: n in Bindings(ss) <==> Lists(ListedSlots(ss), n)
    ensures forall a, b | 0 <= a < b < |ListedSlots(ss)| :: NameOf(ListedSlots(ss)[a]) != NameOf(ListedSlots(ss)[b])
  {
    hide Live, NameOf, Bindings, TailUnused, Listed, ListedSlots;
    ListedAll(ss, 0);
    forall n ensures n in Bindings(ss) ==> Lists(ListedSlots(ss), n) {
      BindingIsListed(ss, n);
    }
    assert forall a | 0 <= a < |ListedSlots(ss)| :: Live(ListedSlots(ss)[a]) && ListedSlots(ss)[a] == ss[Listed(ss, 0)[a]];
  }
}
