/** What create, mkdir, remove, rmdir and rename decide before they write, as functions of the directories alone, and
    what their writes mean for the paths of the volume. */
module Plans {
  import opened Bytes
  import opened Volumes
  import opened Slots
  import opened Names83
  import opened LongNames
  import opened Trees
  import opened TreeSteps
  import opened TreeNames
  import opened Paths
  import opened Resolving
  import opened EmptyDirs

  // ---------------------------------------------------------------- the decisions

  datatype Parent = NoParent(status: Status) | Parent(dir: nat, name: seq<byte>)

  datatype Place = Refused(status: Status) | Place(dir: nat, index: nat)

  /** The directory and the name a path splits into. */
  function ParentOf(m: Dirs, root: nat, path: Text): Parent {
    match Split(path)
    case None => NoParent(Error)
    case Some(parts) =>
      var r := Resolve(m, root, parts.0);
      if r.Unresolved? then NoParent(r.status)
      else
        match DirectoryAt(m, r)
        case None => NoParent(NotADirectory)
        case Some(d) => Parent(d, parts.1)
  }

  /** The lowest free slot from i on. */
  function FreeIndex(ss: seq<Slot>, i: nat): (r: Option<nat>)
    requires i <= |ss|
    ensures r.Some? ==> i <= r.value < |ss| && IsFree(ss[r.value]) && forall j | i <= j < r.value :: !IsFree(ss[j])
    ensures r.None? ==> forall j | i <= j < |ss| :: !IsFree(ss[j])
    decreases |ss| - i
  {
    if i == |ss| then None else if IsFree(ss[i]) then Some(i) else FreeIndex(ss, i + 1)
  }

  /** Where a new entry goes: refused if the name is not a short name, is taken, or the directory is full. */
  function NewPlace(m: Dirs, root: nat, path: Text): (r: Place)
    ensures r.Place? ==> r.dir in m && FirstFree(m[r.dir], r.index)
  {
    match ParentOf(m, root, path)
    case NoParent(st) => Refused(st)
    case Parent(d, name) =>
      if d !in m || !Accepted(name) || Find(m[d], name, 0).Some? then Refused(Error)
      else
        match FreeIndex(m[d], 0)
        case None => Refused(Error)
        case Some(i) => Place(d, i)
  }

  /** The entry an operation is about. */
  function OldPlace(m: Dirs, root: nat, path: Text): (r: Place)
    ensures r.Place? ==> r.dir in m && r.index < |m[r.dir]| && Used(m[r.dir][r.index])
  {
    match ParentOf(m, root, path)
    case NoParent(st) => Refused(st)
    case Parent(d, name) =>
      if d !in m then Refused(Error)
      else
        match Find(m[d], name, 0)
        case None => Refused(NotFound)
        case Some(i) => Place(d, i)
  }

  function RemovePlace(m: Dirs, root: nat, path: Text): (r: Place)
    ensures r.Place? ==> r == OldPlace(m, root, path) && !IsDirectory(m[r.dir][r.index])
  {
    var p := OldPlace(m, root, path);
    if p.Place? && IsDirectory(m[p.dir][p.index]) then Refused(NotAFile) else p
  }

  ghost function RemoveDirectoryPlace(m: Dirs, root: nat, path: Text): (r: Place)
    ensures r.Place? ==> r == OldPlace(m, root, path) && IsDirectory(m[r.dir][r.index])
  {
    var p := OldPlace(m, root, path);
    if p.Refused? then p
    else if !IsDirectory(m[p.dir][p.index]) then Refused(NotADirectory)
    else if ClusterOf(m[p.dir][p.index]) !in m then Refused(Error)
    else if !LooksEmpty(m[ClusterOf(m[p.dir][p.index])]) then Refused(DirectoryNotEmpty)
    else p
  }

  datatype Move = Stay(status: Status) | Move(from: Place, to: Place)

  function RenameMove(m: Dirs, root: nat, oldPath: Text, newPath: Text): (r: Move)
    ensures r.Move? ==> r.from.Place? && r.from == RemovePlace(m, root, oldPath)
    ensures r.Move? ==> r.to.Place? && r.to == NewPlace(m, root, newPath)
  {
    if Split(oldPath).None? || Split(newPath).None? then Stay(Error)
    else
      var from := RemovePlace(m, root, oldPath);
      if from.Refused? then Stay(from.status)
      else
        var to := NewPlace(m, root, newPath);
        if to.Refused? then Stay(to.status) else Move(from, to)
  }

  /** The name a path gives its last component. */
  function NameIn(path: Text): seq<byte> {
    if Split(path).Some? then Split(path).value.1 else []
  }

  /** The last component of the path does not start with the byte that marks deleted entries. */
  predicate OrdinaryName(path: Text) {
    NameIn(path) == [] || NameIn(path)[0] != DELETED
  }

  // ---------------------------------------------------------------- decisions and resolution

  /** The entry an operation is about is the one the whole path resolves to; and what refuses it refuses the path. */
  lemma OldPlaceResolves(m: Dirs, root: nat, path: Text)
    requires Split(path).Some?
    ensures OldPlace(m, root, path) ==
            match Resolve(m, root, path)
            case Unresolved(st) => Refused(st)
            case AtDirectory(d) => Refused(Error)
            case AtEntry(d, i) => Place(d, i)
  {
    hide Resolve, Find, Split;
    SplitResolve(m, root, path);
  }

  /** A new entry goes where the path led to nothing. */
  lemma NewPlaceIsNew(m: Dirs, root: nat, path: Text)
    requires NewPlace(m, root, path).Place?
    ensures Split(path).Some? && Resolve(m, root, path) == Unresolved(NotFound)
  {
    hide Resolve, Find, Split;
    SplitResolve(m, root, path);
  }

  /** Directories nearer the root than d are as they were, and so is the way to d. */
  lemma {:induction false} FollowStable(t: Tree, m: Dirs, m': Dirs, e: nat, cs: seq<seq<byte>>, d: nat)
    requires SoundIn(t, m) && e in t.dirs && d in t.dirs
    requires forall x | x in m && x != d && t.dirs[x] < t.dirs[d] :: x in m' && m'[x] == m[x]
    requires DirectoryAt(m, Follow(m, e, cs)) == Some(d)
    ensures t.dirs[d] == t.dirs[e] + |cs|
    ensures Follow(m', e, cs) == Follow(m, e, cs) && DirectoryAt(m', Follow(m', e, cs)) == Some(d)
    decreases |cs|
  {
    hide Find, TailUnused, DotsFirst, Live, Used, IsDirectory;
    if cs != [] && Find(m[e], cs[0], 0).Some? {
      var i := Find(m[e], cs[0], 0).value;
      FoundIsLinked(t, m, e, cs[0]);
      if |cs| > 1 && IsDirectory(m[e][i]) {
        FollowStable(t, m, m', ClusterOf(m[e][i]), cs[1..], d);
      }
    }
  }

  lemma ResolveStable(t: Tree, m: Dirs, m': Dirs, root: nat, path: seq<byte>, d: nat)
    requires SoundIn(t, m) && root in t.dirs && d in t.dirs
    requires forall x | x in m && x != d && t.dirs[x] < t.dirs[d] :: x in m' && m'[x] == m[x]
    requires DirectoryAt(m, Resolve(m, root, path)) == Some(d)
    ensures DirectoryAt(m', Resolve(m', root, path)) == Some(d)
  {
    hide SoundIn, Components, Follow;
    FollowStable(t, m, m', root, Components(path[1..]), d);
  }

  /** What a path splits into stays when only its parent directory, or directories no nearer the root, change. */
  lemma ParentStable(t: Tree, m: Dirs, m': Dirs, root: nat, path: Text)
    requires SoundIn(t, m) && root in t.dirs && ParentOf(m, root, path).Parent? && ParentOf(m, root, path).dir in t.dirs
    requires var d := ParentOf(m, root, path).dir;
             forall x | x in m && x != d && t.dirs[x] < t.dirs[d] :: x in m' && m'[x] == m[x]
    ensures ParentOf(m', root, path) == ParentOf(m, root, path)
  {
    hide SoundIn, Resolve, Split, DirectoryAt;
    ResolveStable(t, m, m', root, Split(path).value.0, ParentOf(m, root, path).dir);
    AtSomeDirectory(m', Resolve(m', root, Split(path).value.0));
  }

  lemma AtSomeDirectory(m: Dirs, r: Resolution)
    requires r.AtEntry? ==> r.dir in m && r.index < |m[r.dir]|
    ensures DirectoryAt(m, r).Some? ==> !r.Unresolved?
  {
  }

  // ---------------------------------------------------------------- the new entry is found

  lemma {:induction false} HeldSame(ss: seq<Slot>, ss': seq<Slot>, i: nat, k: nat)
    requires i <= |ss| == |ss'| && k <= i && forall j | 0 <= j < i :: ss'[j] == ss[j]
    ensures Held(ss', k) == Held(ss, k)
  {
    if k > 0 {
      HeldSame(ss, ss', i, k - 1);
    }
  }

  /** The first free slot, filled with an entry for a name not found before, is where that name is found. */
  lemma {:induction false} FindNew(ss: seq<Slot>, i: nat, s: Slot, name: seq<byte>, k: nat)
    requires FirstFree(ss, i) && k <= i && Find(ss, name, k) == None
    requires Accepted(name) && NameOf(s) == Encode(name) && Used(s) && s[0] != 0
    ensures Find(ss[i := s], name, k) == Some(i)
    decreases i - k
  {
    hide Encode, Accepted, Held, EqualFold;
    if k < i {
      assert !IsFree(ss[k]);
      HeldSame(ss, ss[i := s], i, k);
      FindNew(ss, i, s, name, k + 1);
    }
  }

  /** An entry as create, mkdir and rename write it is live unless its name starts with the byte 0xE5. */
  lemma NewEntryLive(name: seq<byte>, attributes: byte, cluster: nat, size: nat)
    requires Accepted(name) && 0 !in name && cluster < U32 && size < U32
    requires attributes == ATTR_ARCHIVE || attributes == ATTR_DIRECTORY
    ensures var s := EntrySlot(Encode(name), attributes, cluster, size);
            && (Live(s) <==> name == [] || name[0] != DELETED)
            && (s[0] == DELETED <==> name != [] && name[0] == DELETED)
            && s[0] != 0 && s[0] != DOT && NameOf(s) == Encode(name) && ClusterOf(s) == cluster && SizeOf(s) == size
            && (IsDirectory(s) <==> attributes == ATTR_DIRECTORY)
  {
    hide ClusterOf, SizeOf;
    EntrySlotFields(Encode(name), attributes, cluster, size);
    var s := EntrySlot(Encode(name), attributes, cluster, size);
    assert s[0] == NameOf(s)[0];
    EncodedStart(name);
    EncodedDeleted(name);
  }

  lemma EncodedDeleted(name: seq<byte>)
    requires Accepted(name)
    ensures Encode(name)[0] == DELETED <==> name != [] && name[0] == DELETED
  {
    if name != [] && name[0] != DOT {
      assert Base(name)[0] == name[0];
    }
  }

  /** After create or mkdir the path resolves to the new entry. */
  lemma NewEntryResolves(t: Tree, m: Dirs, root: nat, path: Text, s: Slot, m': Dirs)
    requires SoundIn(t, m) && root in t.dirs && NewPlace(m, root, path).Place?
    requires var d, i := NewPlace(m, root, path).dir, NewPlace(m, root, path).index;
             && d in m' && m'[d] == m[d][i := s]
             && forall x | x in m && x != d :: x in m' && m'[x] == m[x]
    requires NameOf(s) == Encode(NameIn(path)) && Used(s) && s[0] != 0
    ensures Resolve(m', root, path) == AtEntry(NewPlace(m, root, path).dir, NewPlace(m, root, path).index)
    ensures OldPlace(m', root, path) == NewPlace(m, root, path)
  {
    hide Resolve, Split, Find, Encode, Accepted, FreeIndex, FirstFree, TailUnused, DotsFirst, Live, Used, NameOf;
    var d, i, name := NewPlace(m, root, path).dir, NewPlace(m, root, path).index, NameIn(path);
    ParentStable(t, m, m', root, path);
    FindNew(m[d], i, s, name, 0);
    OldPlaceResolves(m', root, path);
  }

  // ---------------------------------------------------------------- the other entries are still found

  /** Deleting an entry in use changes no long name that lookup or readdir puts together elsewhere. */
  lemma {:induction false} HeldAfterDelete(ss: seq<Slot>, i: nat, k: nat)
    requires i < |ss| && Used(ss[i]) && k <= |ss|
    ensures Held(ss[i := DeletedSlot(ss[i])], k) == Held(ss, k)
  {
    if k > 0 {
      HeldAfterDelete(ss, i, k - 1);
    }
  }

  lemma {:induction false} FindAfterDelete(ss: seq<Slot>, i: nat, name: seq<byte>, k: nat)
    requires i < |ss| && Used(ss[i]) && k <= |ss| && Find(ss, name, k) != Some(i)
    ensures Find(ss[i := DeletedSlot(ss[i])], name, k) == Find(ss, name, k)
    decreases |ss| - k
  {
    hide Held, Encode, Accepted, EqualFold;
    if k < |ss| && ss[k][0] != 0 {
      HeldAfterDelete(ss, i, k);
      if k == i {
        assert !IsFree(ss[i]);
      }
      if !(Used(ss[k]) && Matches(ss, k, name)) {
        FindAfterDelete(ss, i, name, k + 1);
      }
    }
  }

  /** The directories once the entry in slot i of d, and with it the directory it may name, are gone. */
  function Cleared(m: Dirs, d: nat, i: nat): Dirs
    requires d in m && i < |m[d]|
  {
    Put(m, d, i, DeletedSlot(m[d][i])) - {ClusterOf(m[d][i])}
  }

  lemma DeadEnd(t: Tree, m: Dirs, d: nat, i: nat, cs: seq<seq<byte>>)
    requires SoundIn(t, m) && Removable(t, m, d, i) && cs != []
    ensures Follow(m, ClusterOf(m[d][i]), cs).Unresolved?
  {
    hide Find, TailUnused, ClusterOf, Live;
    var h := ClusterOf(m[d][i]);
    if h in m && Find(m[h], cs[0], 0).Some? {
      FoundIsLive(m[h], cs[0]);
    }
  }

  /** Every path to another entry still leads there. */
  lemma {:induction false} FollowCleared(t: Tree, m: Dirs, e: nat, cs: seq<seq<byte>>, d: nat, i: nat)
    requires SoundIn(t, m) && Removable(t, m, d, i) && e != ClusterOf(m[d][i])
    requires Follow(m, e, cs).AtEntry? && Follow(m, e, cs) != AtEntry(d, i)
    ensures Follow(Cleared(m, d, i), e, cs) == Follow(m, e, cs)
    decreases |cs|
  {
    hide Find, TailUnused, DotsFirst, ClusterOf, IsDirectory;
    var h, m' := ClusterOf(m[d][i]), Cleared(m, d, i);
    var f := Find(m[e], cs[0], 0);
    FoundIsLinked(t, m, e, cs[0]);
    if |cs| > 1 {
      DeadEnd(t, m, d, i, cs[1..]);
      FollowCleared(t, m, ClusterOf(m[e][f.value]), cs[1..], d, i);
    }
    if e == d {
      FindAfterDelete(m[d], i, cs[0], 0);
    }
  }

  lemma ResolveCleared(t: Tree, m: Dirs, root: nat, path: seq<byte>, d: nat, i: nat)
    requires SoundIn(t, m) && Removable(t, m, d, i) && root != ClusterOf(m[d][i])
    requires Resolve(m, root, path).AtEntry? && Resolve(m, root, path) != AtEntry(d, i)
    ensures Resolve(Cleared(m, d, i), root, path) == Resolve(m, root, path)
  {
    hide SoundIn, Removable, Follow, Components, ClusterOf, Cleared;
    RemovableBounds(t, m, d, i);
    FollowCleared(t, m, root, Components(path[1..]), d, i);
  }

  lemma RemovableBounds(t: Tree, m: Dirs, d: nat, i: nat)
    requires Removable(t, m, d, i)
    ensures LiveIn(m, d, i)
  {
  }
}
