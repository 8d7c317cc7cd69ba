/** What create, mkdir, remove, rmdir and rename decide on a volume, long names or not, case by case and in plain words. */
module PlanMeanings {
  import opened Bytes
  import opened Volumes
  import opened Slots
  import opened Names83
  import opened LongNames
  import opened Trees
  import opened Paths
  import opened EmptyDirs
  import opened Plans
  import opened Meanings

  /** What a path led to is the directory d: the root, or an entry with the directory bit, by its cluster. */
  predicate AtDir(m: Dirs, r: Resolution, d: nat) {
    || r == AtDirectory(d)
    || (r.AtEntry? && r.dir in m && r.index < |m[r.dir]| && m[r.dir][r.index][11] % 32 >= 16 && ClusterOf(m[r.dir][r.index]) == d)
  }

  predicate AtFile(m: Dirs, r: Resolution) {
    r.AtEntry? && r.dir in m && r.index < |m[r.dir]| && m[r.dir][r.index][11] % 32 < 16
  }

  /** The parent of an absolute path is where its components but the last lead. */
  lemma ParentOfMeans(m: Dirs, root: nat, path: Text, cs: seq<seq<byte>>, n: seq<byte>)
    requires Absolutely(path, cs, n)
    ensures var r, p := Follow(m, root, cs), ParentOf(m, root, path);
            && (r.Unresolved? ==> p == NoParent(r.status))
            && (AtFile(m, r) ==> p == NoParent(NotADirectory))
            && forall d | AtDir(m, r, d) :: p == Parent(d, n)
    ensures Split(path).Some?
  {
    hide Components, Split, Follow, ClusterOf;
    SplitAbsolute(path);
    SplitComponents(path);
    SnocInjective(cs, n, Components(Split(path).value.0[1..]), Split(path).value.1);
    var r := Follow(m, root, cs);
    if r.AtEntry? {
      DirectoryBit(m[r.dir][r.index]);
    }
  }

  lemma ParentOfRefused(m: Dirs, root: nat, path: Text)
    requires path == [] || path[0] != SLASH || |path| > 255 || Components(path) == []
    ensures ParentOf(m, root, path) == NoParent(Error)
  {
    hide Components, Follow;
    if path != [] && path[0] == SLASH {
      SplitAbsolute(path);
    } else if Split(path).Some? {
      var k, e := SplitNowhere(path, 256, 256);
      SplitIntoIs(path, 256, 256, k, e);
    }
  }

  /** What refuses the way to the parent refuses the operation, with the same status. */
  lemma WayBarred(m: Dirs, root: nat, path: Text, st: Status)
    requires ParentOf(m, root, path) == NoParent(st)
    ensures NewPlace(m, root, path) == OldPlace(m, root, path) == Refused(st)
    ensures RemovePlace(m, root, path) == RemoveDirectoryPlace(m, root, path) == Refused(st)
  {
  }

  /** A new entry: its name must be one that can be stored and that nothing there matches, and it goes to the lowest slot that
      is free. */
  lemma NewPlaceMeans(m: Dirs, root: nat, path: Text, cs: seq<seq<byte>>, n: seq<byte>, d: nat)
    requires Absolutely(path, cs, n) && AtDir(m, Follow(m, root, cs), d)
    ensures var p := NewPlace(m, root, path);
            if d in m && Accepted(n) && Find(m[d], n, 0) == None && SlotFree(m[d])
            then
              && p.Place? && p.dir == d && p.index < |m[d]| && m[d][p.index][0] in {0x00, 0xE5}
              && forall j | 0 <= j < p.index :: m[d][j][0] !in {0x00, 0xE5}
            else p == Refused(Error)
  {
    hide Components, Split, Follow, ClusterOf, Accepted, Find, Resolve, ParentOf;
    ParentOfMeans(m, root, path, cs, n);
    if d in m {
      FreeMeans(m[d]);
    }
  }

  lemma FreeMeans(ss: seq<Slot>)
    ensures FreeIndex(ss, 0).Some? <==> SlotFree(ss)
    ensures forall j | 0 <= j < |ss| :: IsFree(ss[j]) <==> ss[j][0] in {0x00, 0xE5}
  {
  }

  /** An entry that is to be there. */
  lemma OldPlaceMeans(m: Dirs, root: nat, path: Text, cs: seq<seq<byte>>, n: seq<byte>, d: nat)
    requires Absolutely(path, cs, n) && AtDir(m, Follow(m, root, cs), d)
    ensures OldPlace(m, root, path) ==
            if d !in m then Refused(Error)
            else if Find(m[d], n, 0) == None then Refused(NotFound)
            else Place(d, Find(m[d], n, 0).value)
  {
    hide Components, Split, Follow, ClusterOf, Find, Resolve, ParentOf;
    ParentOfMeans(m, root, path, cs, n);
  }

  /** remove takes files only, rmdir directories only, and of them those that look empty. */
  lemma RemovalMeans(m: Dirs, root: nat, path: Text)
    ensures OldPlace(m, root, path).Refused? ==>
              RemovePlace(m, root, path) == RemoveDirectoryPlace(m, root, path) == OldPlace(m, root, path)
    ensures OldPlace(m, root, path).Place? ==>
              var p := OldPlace(m, root, path); var s := m[p.dir][p.index];
              && RemovePlace(m, root, path) == (if s[11] % 32 >= 16 then Refused(NotAFile) else p)
              && RemoveDirectoryPlace(m, root, path) ==
                 if s[11] % 32 < 16 then Refused(NotADirectory)
                 else if ClusterOf(s) !in m then Refused(Error)
                 else if !LooksEmpty(m[ClusterOf(s)]) then Refused(DirectoryNotEmpty)
                 else p
  {
    hide OldPlace, ClusterOf, LooksEmpty;
    var p := OldPlace(m, root, path);
    if p.Place? {
      DirectoryBit(m[p.dir][p.index]);
    }
  }

  /** rename: both paths must be of the right form; then the old entry is to be a file, and then the new one to have a place. */
  lemma MoveMeans(m: Dirs, root: nat, from: Text, to: Text, cs: seq<seq<byte>>, n: seq<byte>, cs': seq<seq<byte>>, n': seq<byte>)
    requires Absolutely(from, cs, n) && Absolutely(to, cs', n')
    ensures RenameMove(m, root, from, to) ==
            if RemovePlace(m, root, from).Refused? then Stay(RemovePlace(m, root, from).status)
            else if NewPlace(m, root, to).Refused? then Stay(NewPlace(m, root, to).status)
            else Move(RemovePlace(m, root, from), NewPlace(m, root, to))
  {
    hide Components, Split, NewPlace, RemovePlace;
    SplitAbsolute(from);
    SplitAbsolute(to);
  }
}
