/** Paths lead to the same places on the volume and in the tree of named byte strings. */
module TreeSight {
  import opened Bytes
  import opened Geometry
  import opened Volumes
  import opened Slots
  import opened Names83
  import opened LongNames
  import opened Trees
  import opened Paths
  import opened Resolving
  import opened NameMaps
  import opened Plans
  import opened Directories
  import opened FileTree
  import opened TreeSpec

  /** A resolution in terms of names. */
  function SeenAs(m: Dirs, r: Resolution): Seen
    requires r.AtEntry? ==> r.dir in m && r.index < |m[r.dir]|
  {
    match r
    case AtDirectory(d) => SeenDirectory(d)
    case AtEntry(d, i) => SeenName(d, NameOf(m[d][i]))
    case Unresolved(st) => SeenNot(st)
  }

  /** Looking up one name. */
  lemma FindSeen(g: Geometry, v: View, t: Tree, m: Dirs, d: nat, name: seq<byte>)
    requires AllMapLike(m) && d in m
    ensures var a, f := ModelOf(g, v, t, m), Find(m[d], name, 0);
            && (f.None? ==> !Accepted(name) || Encode(name) !in a[d])
            && (f.Some? ==> Accepted(name) && Encode(name) in a[d] && NameOf(m[d][f.value]) == Encode(name)
                            && a[d][Encode(name)] == NodeOf(g, v, t, m[d][f.value]) && Live(m[d][f.value]))
  {
    hide MapLike, Bindings, Find, Encode, Accepted, NodeOf, NamesOf, ModelOf, Live, NameOf;
    MapLikeUnique(m, d);
    FindIsLookup(m[d], name);
    if Find(m[d], name, 0).Some? {
      FoundIsLive(m[d], name) by { MapLikeDots(m[d]); }
      BoundName(m[d], Find(m[d], name, 0).value, name);
    }
  }

  lemma MapLikeDots(ss: seq<Slot>)
    requires MapLike(ss)
    ensures DotsFirst(ss)
  {
  }

  lemma {:induction false} FollowSeen(g: Geometry, v: View, t: Tree, m: Dirs, d: nat, cs: seq<seq<byte>>)
    requires AllMapLike(m)
    ensures Seek(ModelOf(g, v, t, m), d, cs) == SeenAs(m, Follow(m, d, cs))
    decreases |cs|
  {
    hide MapLike, AllMapLike, Find, Encode, Accepted, ModelOf, Live, NameOf, IsDirectory, ClusterOf, SizeOf, BytesOf;
    if cs != [] && d in m {
      FindSeen(g, v, t, m, d, cs[0]);
      var f := Find(m[d], cs[0], 0);
      if f.Some? && |cs| > 1 && IsDirectory(m[d][f.value]) {
        FollowSeen(g, v, t, m, ClusterOf(m[d][f.value]), cs[1..]);
      }
    }
  }

  /** fat32_resolve_path leads where the tree of names leads. */
  lemma ResolveSeen(g: Geometry, v: View, t: Tree, m: Dirs, root: nat, path: seq<byte>)
    requires AllMapLike(m)
    ensures SeekPath(ModelOf(g, v, t, m), root, path) == SeenAs(m, Resolve(m, root, path))
  {
    hide AllMapLike, ModelOf, Follow, Seek, Components, SeenAs;
    FollowEmptySeen(m);
    if path != [] && path[0] == SLASH {
      FollowSeen(g, v, t, m, root, Components(path[1..]));
    }
  }

  lemma FollowEmptySeen(m: Dirs)
    ensures SeenAs(m, Unresolved(Error)) == SeenNot(Error)
  {
  }

  lemma EntryNode(g: Geometry, v: View, t: Tree, m: Dirs, r: Resolution)
    requires AllMapLike(m) && r.AtEntry? && r.dir in m && r.index < |m[r.dir]| && Live(m[r.dir][r.index])
    ensures var a, s := ModelOf(g, v, t, m), m[r.dir][r.index];
            r.dir in a && NameOf(s) in a[r.dir] && a[r.dir][NameOf(s)] == NodeOf(g, v, t, s)
  {
    hide MapLike, Bindings, Live, NodeOf, NameOf, NamesOf, ModelOf;
    MapLikeUnique(m, r.dir);
  }

  lemma ParentSeen(g: Geometry, v: View, t: Tree, m: Dirs, root: nat, path: Text)
    requires SoundIn(t, m) && AllMapLike(m) && root in t.dirs
    ensures SeekParent(ModelOf(g, v, t, m), root, path) == ParentOf(m, root, path)
  {
    hide AllMapLike, ModelOf, Resolve, SeekPath, Split, SoundIn, Live, NameOf, IsDirectory, ClusterOf, SizeOf, BytesOf;
    if Split(path).Some? {
      var parent := Split(path).value.0;
      ResolveSeen(g, v, t, m, root, parent);
      ResolveSound(t, m, root, parent);
      if Resolve(m, root, parent).AtEntry? {
        EntryNode(g, v, t, m, Resolve(m, root, parent));
      }
    }
  }

  ghost predicate NoneFree(ss: seq<Slot>) {
    forall j | 0 <= j < |ss| :: !IsFree(ss[j])
  }

  /** A free place for a new entry is a name not yet bound; the only other reason for refusal is a full directory. */
  lemma NewSeen(g: Geometry, v: View, t: Tree, m: Dirs, root: nat, path: Text)
    requires SoundIn(t, m) && AllMapLike(m) && root in t.dirs
    ensures var p, q := NewPlace(m, root, path), NewName(ModelOf(g, v, t, m), root, path);
            && (p.Place? ==> Accepted(NameIn(path)) && q == SeenName(p.dir, Encode(NameIn(path))))
            && (p.Refused? ==> q == SeenNot(p.status) || (p.status == Error && q.SeenName? && q.dir in m && NoneFree(m[q.dir])))
            && (q.SeenNot? ==> p == Refused(q.status))
            && !q.SeenDirectory?
  {
    hide AllMapLike, ModelOf, Resolve, Split, SoundIn, Live, NameOf, Find, Encode, Accepted, FreeIndex, NodeOf;
    ParentSeen(g, v, t, m, root, path);
    var pa := ParentOf(m, root, path);
    if pa.Parent? && pa.dir in m {
      FindSeen(g, v, t, m, pa.dir, pa.name);
    }
  }

  lemma SeekOne(a: Model, d: nat, name: seq<byte>)
    ensures Seek(a, d, [name]) ==
            if d !in a then SeenNot(Error)
            else if !Accepted(name) || Encode(name) !in a[d] then SeenNot(NotFound)
            else SeenName(d, Encode(name))
  {
  }

  /** One lookup in a directory, and one step in the tree of names. */
  lemma LookupSeen(g: Geometry, v: View, t: Tree, m: Dirs, d: nat, name: seq<byte>)
    requires AllMapLike(m) && d in m
    ensures var a, f, q := ModelOf(g, v, t, m), Find(m[d], name, 0), Seek(ModelOf(g, v, t, m), d, [name]);
            && (f.None? ==> q == SeenNot(NotFound))
            && (f.Some? ==> Accepted(name) && NameOf(m[d][f.value]) == Encode(name) && q == SeenName(d, Encode(name))
                            && a[d][Encode(name)] == NodeOf(g, v, t, m[d][f.value]) && Live(m[d][f.value]))
  {
    hide AllMapLike, ModelOf, Live, NameOf, Find, Encode, Accepted, NodeOf, Seek;
    FindSeen(g, v, t, m, d, name);
    SeekOne(ModelOf(g, v, t, m), d, name);
  }

  lemma OldPlaceIn(m: Dirs, root: nat, path: Text)
    ensures var pa, p := ParentOf(m, root, path), OldPlace(m, root, path);
            && (pa.NoParent? ==> p == Refused(pa.status))
            && (pa.Parent? ==> pa.name == NameIn(path))
            && (pa.Parent? && pa.dir in m ==>
                  p == match Find(m[pa.dir], pa.name, 0) case None => Refused(NotFound) case Some(i) => Place(pa.dir, i))
            && (pa.Parent? && pa.dir !in m ==> p == Refused(Error))
  {
    hide Resolve, Split, Find, DirectoryAt;
  }

  /** The entry an operation is about is the name the tree binds. */
  lemma OldSeen(g: Geometry, v: View, t: Tree, m: Dirs, root: nat, path: Text)
    requires SoundIn(t, m) && AllMapLike(m) && root in t.dirs
    ensures var p, q := OldPlace(m, root, path), OldName(ModelOf(g, v, t, m), root, path);
            && (p.Refused? ==> q == SeenNot(p.status))
            && (p.Place? ==> q == SeenName(p.dir, NameOf(m[p.dir][p.index])) && LiveIn(m, p.dir, p.index)
                             && Accepted(NameIn(path)) && NameOf(m[p.dir][p.index]) == Encode(NameIn(path))
                             && ModelOf(g, v, t, m)[q.dir][q.name] == NodeOf(g, v, t, m[p.dir][p.index]))
  {
    hide AllMapLike, ModelOf, SoundIn, Live, NameOf, Find, Encode, Accepted, NodeOf, Seek, OldPlace, ParentOf, NameIn, SeekParent;
    ParentSeen(g, v, t, m, root, path);
    OldPlaceIn(m, root, path);
    var pa := ParentOf(m, root, path);
    if pa.Parent? {
      SeekOne(ModelOf(g, v, t, m), pa.dir, pa.name);
      if pa.dir in m {
        LookupSeen(g, v, t, m, pa.dir, pa.name);
      }
    }
  }
}
