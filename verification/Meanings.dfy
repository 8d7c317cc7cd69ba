/** What the specification of the operations on the tree of names comes to, case by case and in plain words: where a path
    leads, which requests are granted, with what status the others are refused, and what becomes of the tree. */
module Meanings {
  import opened Bytes
  import opened Geometry
  import opened Volumes
  import opened Allocation
  import opened Slots
  import opened Names83
  import opened Trees
  import opened FileWrite
  import opened Paths
  import opened Plans
  import opened FileTree
  import opened TreeSpec
  import opened TreeSight
  import opened Runs

  // ---------------------------------------------------------------- paths

  /** What was found is the directory d. */
  predicate DirectorySeen(a: Model, r: Seen, d: nat) {
    r == SeenDirectory(d) || (r.SeenName? && r.dir in a && r.name in a[r.dir] && a[r.dir][r.name] == Directory(d))
  }

  predicate FileNamed(a: Model, r: Seen) {
    r.SeenName? && r.dir in a && r.name in a[r.dir] && a[r.dir][r.name].File?
  }

  /** Following a path, name by name. */
  lemma {:induction false} SeekMeans(a: Model, d: nat, cs: seq<seq<byte>>, n: seq<byte>)
    ensures Seek(a, d, []) == SeenDirectory(d)
    ensures var r, next := Seek(a, d, cs), Seek(a, d, cs + [n]);
            && (r.SeenNot? ==> next == r)
            && (FileNamed(a, r) ==> next == SeenNot(NotADirectory))
            && forall e | DirectorySeen(a, r, e) ::
                 next == if e !in a then SeenNot(Error)
                         else if Accepted(n) && Encode(n) in a[e] then SeenName(e, Encode(n))
                         else SeenNot(NotFound)
    decreases |cs|
  {
    hide Accepted, Encode;
    if cs == [] {
      assert cs + [n] == [n];
    } else {
      assert (cs + [n])[0] == cs[0] && (cs + [n])[1..] == cs[1..] + [n];
      if d in a && Accepted(cs[0]) && Encode(cs[0]) in a[d] && a[d][Encode(cs[0])].Directory? {
        var e := a[d][Encode(cs[0])].id;
        SeekMeans(a, e, cs[1..], n);
        if |cs| == 1 {
          assert cs[1..] == [] && cs[1..] + [n] == [n];
        }
      }
    }
  }

  /** An absolute path of at most 255 characters whose components are cs and, last, n. */
  ghost predicate Absolutely(path: Text, cs: seq<seq<byte>>, n: seq<byte>) {
    path != [] && path[0] == SLASH && |path| <= 255 && Components(path) == cs + [n]
  }

  lemma SnocInjective<T>(s: seq<T>, x: T, t: seq<T>, y: T)
    requires s + [x] == t + [y]
    ensures s == t && x == y
  {
    assert |s| == |t|;
    assert (s + [x])[|s|] == x && (t + [y])[|t|] == y;
    assert s == (s + [x])[..|s|] && t == (t + [y])[..|t|];
  }

  /** Such a path is cut before its last name; any other is refused. */
  lemma ParentMeans(a: Model, root: nat, path: Text, cs: seq<seq<byte>>, n: seq<byte>)
    requires Absolutely(path, cs, n)
    ensures var r, p := Seek(a, root, cs), SeekParent(a, root, path);
            && (r.SeenNot? ==> p == NoParent(r.status))
            && (FileNamed(a, r) ==> p == NoParent(NotADirectory))
            && (forall d | DirectorySeen(a, r, d) :: p == Parent(d, n))
    ensures Split(path).Some?
  {
    hide Components, Split, Seek;
    SplitAbsolute(path);
    SplitComponents(path);
    SnocInjective(cs, n, Components(Split(path).value.0[1..]), Split(path).value.1);
  }

  lemma PathRefused(a: Model, root: nat, path: Text)
    requires path == [] || path[0] != SLASH || |path| > 255 || Components(path) == []
    ensures SeekParent(a, root, path) == NoParent(Error)
  {
    hide Components, Seek;
    if path != [] && path[0] == SLASH {
      SplitAbsolute(path);
    } else if Split(path).Some? {
      var k, e := SplitNowhere(path, 256, 256);
      SplitIntoIs(path, 256, 256, k, e);
    }
  }

  // ---------------------------------------------------------------- changing the tree

  /** Binding a name changes what that name stands for and nothing else. */
  lemma BindMeans(a: Model, d: nat, n: Name83, node: Node, e: nat, x: Name83)
    requires d in a && e in a
    ensures Bind(a, d, n, node).Keys == a.Keys
    ensures x in Bind(a, d, n, node)[e] <==> (e, x) == (d, n) || x in a[e]
    ensures x in Bind(a, d, n, node)[e] ==> Bind(a, d, n, node)[e][x] == if (e, x) == (d, n) then node else a[e][x]
  {
  }

  /** Unbinding a name takes it away and nothing else. */
  lemma UnbindMeans(a: Model, d: nat, n: Name83, e: nat, x: Name83)
    requires d in a && e in a
    ensures Unbind(a, d, n).Keys == a.Keys
    ensures x in Unbind(a, d, n)[e] <==> (e, x) != (d, n) && x in a[e]
    ensures x in Unbind(a, d, n)[e] ==> Unbind(a, d, n)[e][x] == a[e][x]
  {
  }

  // ---------------------------------------------------------------- refusals

  /** The path of an operation that is about the last name of a path. */
  predicate About(op: Op, path: Text) {
    op == Create(path) || op == MakeDirectory(path) || op == Remove(path) || op == RemoveDirectory(path)
  }

  /** What refuses the way to the parent directory refuses the operation. */
  lemma WayRefused(a: Model, root: nat, op: Op, path: Text, cs: seq<seq<byte>>, n: seq<byte>, c: nat)
    requires About(op, path)
    ensures path == [] || path[0] != SLASH || |path| > 255 || Components(path) == [] ==> Effect(a, root, op, c) == Refuse(Error)
    ensures Absolutely(path, cs, n) && Seek(a, root, cs).SeenNot? ==> Effect(a, root, op, c) == Refuse(Seek(a, root, cs).status)
    ensures Absolutely(path, cs, n) && FileNamed(a, Seek(a, root, cs)) ==> Effect(a, root, op, c) == Refuse(NotADirectory)
  {
    hide Components, Split, Seek, SeekParent, Accepted, Encode;
    if path == [] || path[0] != SLASH || |path| > 255 || Components(path) == [] {
      PathRefused(a, root, path);
    }
    if Absolutely(path, cs, n) {
      ParentMeans(a, root, path, cs, n);
    }
  }

  // ---------------------------------------------------------------- the operations, in a directory that is there

  /** create and mkdir: the name must be one that can be stored and is not yet bound. */
  lemma NewMeans(a: Model, root: nat, path: Text, cs: seq<seq<byte>>, n: seq<byte>, d: nat, c: nat)
    requires Absolutely(path, cs, n) && DirectorySeen(a, Seek(a, root, cs), d)
    ensures Effect(a, root, Create(path), c) ==
            if d in a && Accepted(n) && Encode(n) !in a[d] then Yield(Bind(a, d, Encode(n), File([]))) else Refuse(Error)
    ensures Effect(a, root, MakeDirectory(path), c) ==
            if d in a && Accepted(n) && Encode(n) !in a[d] then Yield(Bind(a, d, Encode(n), Directory(c))[c := map[]])
            else Refuse(Error)
  {
    hide Components, Split, Seek, SeekParent, Accepted, Encode;
    ParentMeans(a, root, path, cs, n);
  }

  /** remove: the name must be a file's. */
  lemma RemoveMeans(a: Model, root: nat, path: Text, cs: seq<seq<byte>>, n: seq<byte>, d: nat)
    requires Absolutely(path, cs, n) && DirectorySeen(a, Seek(a, root, cs), d)
    ensures Effect(a, root, Remove(path), 0) ==
            if d !in a then Refuse(Error)
            else if !Accepted(n) || Encode(n) !in a[d] then Refuse(NotFound)
            else if a[d][Encode(n)].Directory? then Refuse(NotAFile)
            else Yield(Unbind(a, d, Encode(n)))
  {
    hide Components, Split, SeekParent, Accepted, Encode;
    ParentMeans(a, root, path, cs, n);
  }

  /** rmdir: the name must be an empty directory's. */
  lemma RemoveDirectoryMeans(a: Model, root: nat, path: Text, cs: seq<seq<byte>>, n: seq<byte>, d: nat)
    requires Absolutely(path, cs, n) && DirectorySeen(a, Seek(a, root, cs), d)
    ensures Effect(a, root, RemoveDirectory(path), 0) ==
            if d !in a then Refuse(Error)
            else if !Accepted(n) || Encode(n) !in a[d] then Refuse(NotFound)
            else if a[d][Encode(n)].File? then Refuse(NotADirectory)
            else if a[d][Encode(n)].id !in a then Refuse(Error)
            else if a[a[d][Encode(n)].id] != map[] then Refuse(DirectoryNotEmpty)
            else Yield(Unbind(a, d, Encode(n)) - {a[d][Encode(n)].id})
  {
    hide Components, Split, SeekParent, Accepted, Encode;
    ParentMeans(a, root, path, cs, n);
  }

  /** rename: the old name must be a file's, the new one as for create; both parents must be there. */
  lemma RenameMeans(a: Model, root: nat, from: Text, to: Text, cs: seq<seq<byte>>, n: seq<byte>, d: nat,
                    cs': seq<seq<byte>>, n': seq<byte>)
    requires Absolutely(from, cs, n) && DirectorySeen(a, Seek(a, root, cs), d) && Absolutely(to, cs', n')
    ensures var E, r := Effect(a, root, Rename(from, to), 0), Seek(a, root, cs');
            if d !in a then E == Refuse(Error)
            else if !Accepted(n) || Encode(n) !in a[d] then E == Refuse(NotFound)
            else if a[d][Encode(n)].Directory? then E == Refuse(NotAFile)
            else
              && (r.SeenNot? ==> E == Refuse(r.status))
              && (FileNamed(a, r) ==> E == Refuse(NotADirectory))
              && forall d' | DirectorySeen(a, r, d') ::
                   E == if d' in a && Accepted(n') && Encode(n') !in a[d']
                        then Yield(Unbind(Bind(a, d', Encode(n'), a[d][Encode(n)]), d, Encode(n)))
                        else Refuse(Error)
  {
    hide Components, Split, SeekParent, Accepted, Encode, Unbind;
    ParentMeans(a, root, from, cs, n);
    ParentMeans(a, root, to, cs', n');
  }

  /** A rename moves one node: the new name is bound to it, the old one is not bound any more, and every other name is as it
      was. */
  lemma MovedMeans(a: Model, d: nat, n: Name83, d': nat, n': Name83, e: nat, x: Name83)
    requires d in a && n in a[d] && d' in a && n' !in a[d'] && e in a
    ensures var b := Unbind(Bind(a, d', n', a[d][n]), d, n);
            && b.Keys == a.Keys
            && (x in b[e] <==> (e, x) == (d', n') || (x in a[e] && (e, x) != (d, n)))
            && (x in b[e] ==> b[e][x] == if (e, x) == (d', n') then a[d][n] else a[e][x])
  {
  }

  /** A way refused refuses the rename: the old path's first. */
  lemma RenameRefused(a: Model, root: nat, from: Text, to: Text, cs: seq<seq<byte>>, n: seq<byte>,
                      cs': seq<seq<byte>>, n': seq<byte>)
    requires Absolutely(from, cs, n) && Absolutely(to, cs', n')
    ensures Seek(a, root, cs).SeenNot? ==> Effect(a, root, Rename(from, to), 0) == Refuse(Seek(a, root, cs).status)
    ensures FileNamed(a, Seek(a, root, cs)) ==> Effect(a, root, Rename(from, to), 0) == Refuse(NotADirectory)
  {
    hide Components, Split, Seek, SeekParent, Accepted, Encode, Unbind, Bind;
    ParentMeans(a, root, from, cs, n);
    ParentMeans(a, root, to, cs', n');
  }

  /** A path that cannot be cut, or is not absolute, refuses it too. */
  lemma RenameUncut(a: Model, root: nat, from: Text, to: Text)
    requires from == [] || from[0] != SLASH || |from| > 255 || Components(from) == []
    ensures Effect(a, root, Rename(from, to), 0) == Refuse(Error)
  {
    hide Components, Split, Seek, SeekParent, Accepted, Encode, Unbind, Bind, NewName;
    PathRefused(a, root, from);
  }

  lemma RenameUncutTo(a: Model, root: nat, from: Text, to: Text, cs: seq<seq<byte>>, n: seq<byte>, d: nat)
    requires to == [] || to[0] != SLASH || |to| > 255 || Components(to) == []
    requires Absolutely(from, cs, n) && DirectorySeen(a, Seek(a, root, cs), d)
    requires d in a && Accepted(n) && Encode(n) in a[d] && a[d][Encode(n)].File?
    ensures Effect(a, root, Rename(from, to), 0) == Refuse(Error)
  {
    hide Components, Split, SeekParent, Accepted, Encode, Unbind, Bind;
    PathRefused(a, root, to);
    ParentMeans(a, root, from, cs, n);
  }

  /** The file a path leads to: what refuses the path refuses it, and a directory is no file. No bound is put on the path. */
  lemma FileMeans(a: Model, root: nat, path: Text)
    ensures var r, f := Seek(a, root, Components(path)), FileSeen(a, root, path);
            if path == [] || path[0] != SLASH then f == SeenNot(Error)
            else
              && (r.SeenNot? ==> f == r) && (FileNamed(a, r) ==> f == r)
              && forall d | DirectorySeen(a, r, d) :: f == SeenNot(NotAFile)
  {
    hide Components, Seek;
    if path != [] && path[0] == SLASH {
      LeadingSlash(path);
    }
  }

  /** Input laid over a file's bytes: the input is where it was to be, everything else stays, and the file is as long as it was
      or as the input reaches. */
  lemma SplicedMeans(b: seq<byte>, position: nat, data: seq<byte>, i: nat)
    requires position <= |b|
    ensures |Spliced(b, position, data)| == if |b| < position + |data| then position + |data| else |b|
    ensures i < |Spliced(b, position, data)| ==>
              Spliced(b, position, data)[i] == if position <= i < position + |data| then data[i - position] else b[i]
  {
  }

  /** write at a position: granted for every file, unless the position is past its end or the file would come to 2^32 bytes or
      more; writing nothing is always granted. */
  lemma WriteMeans(a: Model, root: nat, path: Text, position: nat, data: seq<byte>, r: Seen)
    requires r == FileSeen(a, root, path)
    ensures Effect(a, root, WriteAt(path, position, data), 0) ==
            if r.SeenNot? then Refuse(r.status)
            else if !r.SeenName? then Refuse(Error)
            else if data == [] then Yield(a)
            else
              var b := a[r.dir][r.name].bytes;
              if position <= |b| && position + |data| <= 0xFFFF_FFFF
              then Yield(Bind(a, r.dir, r.name, File(Spliced(b, position, data)))) else Refuse(Error)
  {
    hide FileSeen, Spliced, Bind;
  }

  /** truncate: granted for every file that is at least so long. */
  lemma CutMeans(a: Model, root: nat, path: Text, size: nat, r: Seen)
    requires r == FileSeen(a, root, path)
    ensures Effect(a, root, CutTo(path, size), 0) ==
            if r.SeenNot? then Refuse(r.status)
            else if !r.SeenName? || size > |a[r.dir][r.name].bytes| then Refuse(Error)
            else Yield(Bind(a, r.dir, r.name, File(a[r.dir][r.name].bytes[..size])))
  {
    hide FileSeen;
  }

  // ---------------------------------------------------------------- on a volume

  ghost predicate SlotFree(ss: seq<Slot>) {
    exists i :: 0 <= i < |ss| && (ss[i][0] == 0x00 || ss[i][0] == 0xE5)
  }

  lemma NoneFreeMeans(ss: seq<Slot>)
    ensures NoneFree(ss) <==> !SlotFree(ss)
  {
  }

  ghost predicate ClusterFree(g: Geometry, v: View) {
    exists c: nat :: 2 <= c <= g.totalClusters + 1 && c < |v.fat| && v.fat[c] == 0
  }

  lemma FullIsNoneFree(g: Geometry, v: View)
    requires Fitted(g, v)
    ensures Full(g, v) <==> !ClusterFree(g, v)
  {
  }

  /** A name that may be bound: create needs a free slot in its directory, mkdir a free cluster too. */
  lemma NewStatus(g: Geometry, v: View, t: Tree, path: Text, cs: seq<seq<byte>>, n: seq<byte>, d: nat)
    requires Good(g, v, t) && Shape(g, v, t) && d in TreeOf(g, v, t) && Accepted(n) && Encode(n) !in TreeOf(g, v, t)[d]
    requires Absolutely(path, cs, n) && DirectorySeen(TreeOf(g, v, t), Seek(TreeOf(g, v, t), g.rootCluster, cs), d)
    ensures d in AllSlots(g, v, t)
    ensures StepStatus(g, v, t, Create(path)) == if SlotFree(AllSlots(g, v, t)[d]) then Ok else Error
    ensures StepStatus(g, v, t, MakeDirectory(path)) == if SlotFree(AllSlots(g, v, t)[d]) && ClusterFree(g, v) then Ok else Error
  {
    hide AllSlots, Shape, Good, ModelOf, Components, Split, Seek, Accepted, Encode, Bind, Full, NoneFree, SlotFree, ClusterFree;
    var a := TreeOf(g, v, t);
    GoodFacts(g, v, t);
    ParentMeans(a, g.rootCluster, path, cs, n);
    NewMeans(a, g.rootCluster, path, cs, n, d, 0);
    NoneFreeMeans(AllSlots(g, v, t)[d]);
    FullIsNoneFree(g, v);
  }

  lemma TreeKeys(g: Geometry, v: View, t: Tree)
    requires Good(g, v, t)
    ensures Shape(g, v, t) && TreeOf(g, v, t).Keys == AllSlots(g, v, t).Keys == t.dirs.Keys
  {
    hide AllSlots, Shape, WellFormed, Unlabelled;
    GoodFacts(g, v, t);
  }

  /** A rename whose old name is a file's needs a free slot in the new name's directory. */
  lemma RenameStatusMeans(g: Geometry, v: View, t: Tree, from: Text, to: Text, cs: seq<seq<byte>>, n: seq<byte>, d: nat)
    requires Good(g, v, t) && Shape(g, v, t) && d in TreeOf(g, v, t) && Accepted(n) && Encode(n) !in TreeOf(g, v, t)[d]
    requires Absolutely(to, cs, n) && DirectorySeen(TreeOf(g, v, t), Seek(TreeOf(g, v, t), g.rootCluster, cs), d)
    requires Effect(TreeOf(g, v, t), g.rootCluster, Rename(from, to), 0).Yield?
    ensures d in AllSlots(g, v, t)
    ensures StepStatus(g, v, t, Rename(from, to)) == if SlotFree(AllSlots(g, v, t)[d]) then Ok else Error
  {
    hide AllSlots, Shape, Good, TreeOf, Components, Split, Seek, Accepted, Encode, RenameEffect, NoneFree, SlotFree, NewName,
         Absolutely, DirectorySeen;
    TreeKeys(g, v, t);
    GoodFacts(g, v, t);
    NewNameIs(TreeOf(g, v, t), g.rootCluster, to, cs, n, d);
    NoneFreeMeans(AllSlots(g, v, t)[d]);
  }

  lemma NewNameIs(a: Model, root: nat, path: Text, cs: seq<seq<byte>>, n: seq<byte>, d: nat)
    requires Absolutely(path, cs, n) && DirectorySeen(a, Seek(a, root, cs), d)
    requires d in a && Accepted(n) && Encode(n) !in a[d]
    ensures NewName(a, root, path) == SeenName(d, Encode(n))
  {
    hide Components, Split, Seek, SeekParent, Accepted, Encode;
    ParentMeans(a, root, path, cs, n);
  }

  /** Removals and truncations need no room. */
  lemma RoomlessStatus(g: Geometry, v: View, t: Tree, op: Op)
    requires Good(g, v, t) && (op.Remove? || op.RemoveDirectory? || op.CutTo?)
    ensures StepStatus(g, v, t, op) ==
            match Effect(TreeOf(g, v, t), g.rootCluster, op, 0) case Refuse(st) => st case Yield(_) => Ok
  {
    hide Good, ModelOf, RemoveEffect, RemoveDirectoryEffect, CutEffect;
  }

  /** A write to the file a path leads to needs as many clusters as its chain lacks. */
  lemma WriteStatusOf(g: Geometry, v: View, t: Tree, op: Op, d: nat, i: nat, h: nat, b: seq<byte>)
    requires op.WriteAt? && |op.data| > 0 && Opened(g, v, t, op.path, d, i, h, b)
    ensures Good(g, v, t)
    ensures StepStatus(g, v, t, op) ==
            if op.position <= |b| && op.position + |op.data| <= 0xFFFF_FFFF
               && op.position + |op.data| <= (|ChainAt(t, h)| + FreeCount(v.fat)) * (512 * g.sectorsPerCluster)
            then Ok else Error
  {
    hide Good, Opened, StepStatus, WriteStatus, FreeCount;
    OpenedStatus(g, v, t, op, d, i, h, b);
    WriteStatusMeans(g, v, op.position, |b|, |op.data|, |ChainAt(t, h)|);
  }

  // ---------------------------------------------------------------- names that begin with the byte 0xE5

  /** What comes of an operation that would bind such a name: nothing, but that a rename still takes the old name away. For
      every other name it has its effect. */
  lemma DoneMeans(a: Model, root: nat, op: Op, c: nat)
    requires Effect(a, root, op, c).Yield?
    ensures NameBound(op) ==> Done(a, root, op, c) == Effect(a, root, op, c)
    ensures !NameBound(op) && (op.Create? || op.MakeDirectory?) ==> Done(a, root, op, c) == Yield(a)
    ensures !NameBound(op) && op.Rename? ==> Done(a, root, op, c) == Yield(Unnoticed(a, root, op))
    ensures NameBound(op) <==>
            (op.Create? || op.MakeDirectory? ==> OrdinaryName(op.path)) && (op.Rename? ==> OrdinaryName(op.to))
  {
    hide Effect;
  }

  lemma UnnoticedRename(a: Model, root: nat, from: Text, to: Text, cs: seq<seq<byte>>, n: seq<byte>, d: nat)
    requires Absolutely(from, cs, n) && DirectorySeen(a, Seek(a, root, cs), d)
    requires d in a && Accepted(n) && Encode(n) in a[d]
    ensures Unnoticed(a, root, Rename(from, to)) == Unbind(a, d, Encode(n))
  {
    hide Components, Split, SeekParent, Accepted, Encode, Unbind;
    ParentMeans(a, root, from, cs, n);
  }
}
