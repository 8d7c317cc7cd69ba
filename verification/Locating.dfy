/** The steps create, mkdir, remove, rmdir and rename share: from a path to a parent directory and a slot in it. */
module Locating {
  import opened Bytes
  import opened Volumes
  import opened Slots
  import opened Names83
  import opened LongNames
  import opened Trees
  import opened DirScan
  import opened Lookup
  import opened Paths
  import opened Resolving
  import opened Plans

  ghost function SlotsNow(fs: Volume, t: Tree): (m: Dirs)
    requires fs.Ready() && Sound(fs.g, fs.Now(), t)
    reads fs, fs.device
    ensures m.Keys == t.dirs.Keys
  {
    AllSlots(fs.g, fs.Now(), t)
  }

  /** Split the path, resolve the parent, insist on a directory. */
  method FindParent(fs: Volume, path: Text, ghost t: Tree) returns (r: Status, dir: nat, name: Text)
    requires fs.Ready() && Sound(fs.g, fs.Now(), t)
    modifies fs.sectorBuffer
    ensures ParentOf(SlotsNow(fs, t), fs.g.rootCluster, path) == if r == Ok then Parent(dir, name) else NoParent(r)
    ensures r == Ok ==> DirHere(fs, t, dir)
  {
    hide Kept, ViewOf, AllSlots, Shape, Resolve, SoundIn, Located, DirectoryAt, SplitInto;
    dir, name := 0, [];
    var parentPath := new byte[NAME_SIZE];
    var nameBuffer := new byte[NAME_SIZE];
    r := SplitParentPath(path, parentPath, nameBuffer);
    if r != Ok {
      return;
    }
    var parent := CString(parentPath[..]);
    name := CString(nameBuffer[..]);
    var result;
    r, result := ResolvePath(fs, parent, t);
    LocatedFacts(fs.g, fs.Now(), t, parent, r, result);
    if r != Ok {
      return;
    }
    if !result.directory {
      r := NotADirectory;
      return;
    }
    dir := result.cluster;
  }

  /** The common beginning of create and mkdir: where the new entry goes, and under which stored name. */
  method PlaceNew(fs: Volume, path: Text, ghost t: Tree) returns (r: Status, dir: nat, entryIndex: nat, shortName: Name83)
    requires fs.Ready() && Sound(fs.g, fs.Now(), t)
    modifies fs.sectorBuffer
    ensures NewPlace(SlotsNow(fs, t), fs.g.rootCluster, path) == if r == Ok then Place(dir, entryIndex) else Refused(r)
    ensures r == Ok ==> dir in t.dirs && entryIndex < |SlotsNow(fs, t)[dir]|
    ensures r == Ok ==> Accepted(NameIn(path)) && shortName == Encode(NameIn(path)) && 0 !in NameIn(path)
  {
    hide Kept, ViewOf, AllSlots, Shape, Resolve, SoundIn, Find, Encode, Accepted, Split;
    entryIndex, shortName := 0, Zeros(11);
    var name;
    r, dir, name := FindParent(fs, path, t);
    if r != Ok {
      return;
    }
    var ok, output := MakeName83(name);
    if !ok {
      r := Error;
      return;
    }
    shortName := output[..];
    var cluster, size, isDirectory;
    SlotsFit(t, SlotsNow(fs, t), dir);
    ghost var j;
    r, cluster, size, isDirectory, entryIndex, j := FindInDirectory(fs, dir, name, t);
    if r == Ok {
      r := Error;
      return;
    }
    if r != NotFound {
      return;
    }
    r, entryIndex, j := FindFreeEntry(fs, dir, t);
    FreeIndexIs(SlotsHere(fs, t, dir), r == Ok, j);
  }

  lemma FreeIndexIs(ss: seq<Slot>, found: bool, i: nat)
    requires found ==> FirstFree(ss, i)
    requires !found ==> forall j | 0 <= j < |ss| :: !IsFree(ss[j])
    ensures FreeIndex(ss, 0) == if found then Some(i) else None
  {
    hide IsFree;
  }

  /** The common beginning of remove, rmdir and rename: the entry the path names. */
  method FindOld(fs: Volume, path: Text, ghost t: Tree)
    returns (r: Status, dir: nat, cluster: nat, size: nat, isDirectory: bool, entryIndex: nat)
    requires fs.Ready() && Sound(fs.g, fs.Now(), t)
    modifies fs.sectorBuffer
    ensures OldPlace(SlotsNow(fs, t), fs.g.rootCluster, path) == if r == Ok then Place(dir, entryIndex) else Refused(r)
    ensures r == Ok ==> LiveIn(SlotsNow(fs, t), dir, entryIndex)
    ensures r == Ok ==> var s := SlotsNow(fs, t)[dir][entryIndex];
              cluster == ClusterOf(s) && size == SizeOf(s) && isDirectory == IsDirectory(s) && Linked(t, dir, s)
  {
    hide Kept, ViewOf, AllSlots, Shape, Resolve, SoundIn, Find, Split, Live, ClusterOf, SizeOf, IsDirectory;
    cluster, size, isDirectory, entryIndex := 0, 0, false, 0;
    var name;
    r, dir, name := FindParent(fs, path, t);
    if r != Ok {
      return;
    }
    SlotsFit(t, SlotsNow(fs, t), dir);
    ghost var j;
    r, cluster, size, isDirectory, entryIndex, j := FindInDirectory(fs, dir, name, t);
    if r == Ok {
      FoundIsLinked(t, SlotsNow(fs, t), dir, name);
    }
  }
}
