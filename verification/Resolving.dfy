/** fat32_resolve_path and fat32_open. */
module Resolving {
  import opened Bytes
  import opened Geometry
  import opened Volumes
  import opened FileRead
  import opened Slots
  import opened Names83
  import opened LongNames
  import opened Trees
  import opened FileWrite
  import opened DirScan
  import opened Lookup
  import opened Paths

  // ---------------------------------------------------------------- what a lookup finds

  lemma EncodedStart(name: seq<byte>)
    requires Accepted(name)
    ensures Encode(name)[0] != DOT
    ensures 0 !in name ==> Encode(name)[0] != 0
  {
  }

  lemma NoLongNameAtDots(ss: seq<Slot>, i: nat)
    requires DotsFirst(ss) && i < |ss| && IsDot(ss[i])
    ensures Held(ss, i) == None
  {
    if i == 1 {
      assert Held(ss, 0) == None;
    }
  }

  lemma DotNotMatched(ss: seq<Slot>, i: nat, name: seq<byte>)
    requires DotsFirst(ss) && i < |ss|
    ensures IsDot(ss[i]) ==> !Matches(ss, i, name)
  {
    hide Encode, Held;
    if IsDot(ss[i]) {
      NoLongNameAtDots(ss, i);
      assert NameOf(ss[i])[0] == ss[i][0];
      if Accepted(name) {
        EncodedStart(name);
      }
    }
  }

  /** A lookup never answers with "." or "..", whatever is asked for: what it finds is live. */
  lemma FoundIsLive(ss: seq<Slot>, name: seq<byte>)
    requires DotsFirst(ss) && Find(ss, name, 0).Some?
    ensures Live(ss[Find(ss, name, 0).value])
  {
    hide Encode, Find, Held;
    DotNotMatched(ss, Find(ss, name, 0).value, name);
  }

  /** In a sound tree what a lookup finds is linked as its attributes say. */
  lemma FoundIsLinked(t: Tree, m: Dirs, d: nat, name: seq<byte>)
    requires SoundIn(t, m) && d in m && Find(m[d], name, 0).Some?
    ensures var i := Find(m[d], name, 0).value;
            LiveIn(m, d, i) && Linked(t, d, m[d][i])
  {
    hide Find, Live, TailUnused;
    FoundIsLive(m[d], name);
    assert LiveIn(m, d, Find(m[d], name, 0).value);
  }

  /** Where a path leads in a sound tree: to one of its directories, or to a live entry. */
  lemma {:induction false} FollowSound(t: Tree, m: Dirs, dir: nat, cs: seq<seq<byte>>)
    requires SoundIn(t, m) && dir in t.dirs
    ensures var r := Follow(m, dir, cs);
            && (r.AtDirectory? ==> r.dir in t.dirs)
            && (r.AtEntry? ==> LiveIn(m, r.dir, r.index) && Linked(t, r.dir, m[r.dir][r.index]))
            && (r.Unresolved? ==> r.status != Error)
    decreases |cs|
  {
    hide Find, Live, TailUnused, DotsFirst;
    if cs != [] && Find(m[dir], cs[0], 0).Some? {
      FoundIsLinked(t, m, dir, cs[0]);
      var i := Find(m[dir], cs[0], 0).value;
      if |cs| > 1 && IsDirectory(m[dir][i]) {
        FollowSound(t, m, ClusterOf(m[dir][i]), cs[1..]);
      }
    }
  }

  // ---------------------------------------------------------------- the loop

  datatype PathResult = PathResult(cluster: nat, size: nat, directory: bool, directoryCluster: nat, entryIndex: nat)

  /** The status and result of fat32_resolve_path say what the resolution says. */
  ghost predicate Located(m: Dirs, res: Resolution, r: Status, p: PathResult) {
    match res
    case Unresolved(st) => r == st
    case AtDirectory(d) => r == Ok && p.directory && p.cluster == d && p.size == 0
    case AtEntry(d, i) =>
      && r == Ok && d in m && i < |m[d]| && p.directoryCluster == d && p.entryIndex == i
      && p.cluster == ClusterOf(m[d][i]) && p.size == SizeOf(m[d][i]) && (p.directory <==> IsDirectory(m[d][i]))
  }

  method SkipFrom(path: Text, pos: nat) returns (pos': nat)
    requires pos <= |path|
    ensures pos <= pos' <= |path| && path[pos'..] == SkipSlashes(path[pos..])
  {
    pos' := pos;
    while pos' < |path| && path[pos'] == SLASH
      invariant pos <= pos' <= |path| && forall k | pos <= k < pos' :: path[k] == SLASH
    {
      pos' := pos' + 1;
    }
    SkipSlashesUnique(path[pos..], pos' - pos);
  }

  /** The loop that copies one component out of the path. */
  method ExtractComponent(path: Text, pos: nat, component: array<byte>) returns (length: nat)
    requires pos <= |path| && component.Length == NAME_SIZE
    modifies component
    ensures length == ComponentLength(path[pos..]) && CString(component[..]) == path[pos..pos + length]
  {
    hide CString, ComponentLength;
    length := 0;
    ghost var q := path[pos..];
    while pos + length < |path| && path[pos + length] != SLASH && length < NAME_SIZE - 1
      invariant pos + length <= |path| && length <= NAME_SIZE - 1 && forall k | 0 <= k < length :: q[k] != SLASH
      invariant forall k | 0 <= k < length :: component[k] == path[pos + k]
    {
      assert q[length] == path[pos + length];
      component[length] := path[pos + length];
      length := length + 1;
    }
    component[length] := 0;
    assert length < |q| ==> q[length] == path[pos + length];
    ComponentLengthIs(q, length);
    CopiedString(component[..], path, pos, length);
  }

  lemma CopiedString(b: seq<byte>, path: Text, pos: nat, n: nat)
    requires pos + n <= |path| && n < |b| && b[n] == 0
    requires forall k | 0 <= k < n :: b[k] == path[pos + k]
    ensures CString(b) == path[pos..pos + n]
  {
    forall k | 0 <= k < n ensures b[k] != 0 {
      assert path[pos + k] in path;
    }
    IndexOfUnique(b, 0, n);
    assert b[..n] == path[pos..pos + n];
  }

  lemma ComponentLengthIs(q: seq<byte>, n: nat)
    requires n <= |q| && n < NAME_SIZE && (forall k | 0 <= k < n :: q[k] != SLASH)
    requires n == |q| || n == NAME_SIZE - 1 || q[n] == SLASH
    ensures ComponentLength(q) == n
  {
    if n < |q| && q[n] != SLASH {
      assert IndexOf(q, SLASH) >= n;
    } else {
      IndexOfUnique(q, SLASH, n);
    }
  }

  /** What one turn of the loop does to the components that remain. */
  lemma ComponentsStep(q: seq<byte>)
    ensures Components(SkipSlashes(q)) == Components(q)
    ensures SkipSlashes(q) == [] <==> Components(q) == []
    ensures q != [] && q[0] != SLASH ==>
              ComponentLength(q) > 0 && Components(q) == [q[..ComponentLength(q)]] + Components(q[ComponentLength(q)..])
  {
    hide ComponentLength;
    var s := SkipSlashes(q);
    SkipSlashesUnique(s, 0);
    assert s[0..] == s;
    if q != [] && q[0] != SLASH {
      SkipSlashesUnique(q, 0);
      assert q[0..] == q;
    }
  }

  /** Following one component more. */
  lemma FollowStep(m: Dirs, dir: nat, c: seq<byte>, rest: seq<seq<byte>>)
    requires dir in m
    ensures var f := Find(m[dir], c, 0);
            Follow(m, dir, [c] + rest) ==
            if f == None then Unresolved(NotFound)
            else if rest == [] then AtEntry(dir, f.value)
            else if !IsDirectory(m[dir][f.value]) then Unresolved(NotADirectory)
            else Follow(m, ClusterOf(m[dir][f.value]), rest)
  {
    hide Find;
    assert ([c] + rest)[1..] == rest;
  }

  /** The part of a turn that extracts a component, looks it up and skips to the next one. */
  method LookUpComponent(fs: Volume, directory: nat, path: Text, current: nat, component: array<byte>, ghost t: Tree)
    returns (r: Status, next: nat, cluster: nat, size: nat, isDirectory: bool, entryIndex: nat)
    requires DirHere(fs, t, directory) && component.Length == NAME_SIZE && component != fs.sectorBuffer
    requires |SlotsHere(fs, t, directory)| <= U32
    requires current < |path| && path[current] != SLASH
    modifies fs.sectorBuffer, component
    ensures current < next <= |path|
    ensures var f := Find(SlotsHere(fs, t, directory), path[current..current + ComponentLength(path[current..])], 0);
            && r == (if f.Some? then Ok else NotFound)
            && (r == Ok ==> f == Some(entryIndex))
            && Components(path[current..]) ==
               [path[current..current + ComponentLength(path[current..])]] + Components(path[next..])
            && (next == |path| <==> Components(path[next..]) == [])
    ensures r == Ok ==> var s := SlotsHere(fs, t, directory)[entryIndex];
              cluster == ClusterOf(s) && size == SizeOf(s) && isDirectory == IsDirectory(s)
  {
    hide Kept, ViewOf, AllSlots, Shape, Components, SkipSlashes, ComponentLength, CString, ClusterOf, SizeOf, IsDirectory,
         Find;
    ghost var q := path[current..];
    ComponentsStep(q);
    var length := ExtractComponent(path, current, component);
    assert q[..length] == path[current..current + length] && q[length..] == path[current + length..];
    var name := CString(component[..]);
    ghost var j;
    r, cluster, size, isDirectory, entryIndex, j := FindInDirectory(fs, directory, name, t);
    ComponentsStep(q[length..]);
    next := SkipFrom(path, current + length);
  }

  lemma FollowNext(t: Tree, m: Dirs, dir: nat, path: seq<byte>, current: nat, next: nat)
    requires SoundIn(t, m) && dir in m && current < next <= |path|
    requires current + ComponentLength(path[current..]) <= |path|
    requires Components(path[current..]) ==
             [path[current..current + ComponentLength(path[current..])]] + Components(path[next..])
    requires next == |path| <==> Components(path[next..]) == []
    ensures var f := Find(m[dir], path[current..current + ComponentLength(path[current..])], 0);
            var r := Follow(m, dir, Components(path[current..]));
            && (f.None? ==> r == Unresolved(NotFound))
            && (f.Some? && next == |path| ==> r == AtEntry(dir, f.value))
            && (f.Some? && next < |path| && !IsDirectory(m[dir][f.value]) ==> r == Unresolved(NotADirectory))
            && (f.Some? && next < |path| && IsDirectory(m[dir][f.value]) ==>
                  ClusterOf(m[dir][f.value]) in t.dirs && r == Follow(m, ClusterOf(m[dir][f.value]), Components(path[next..])))
  {
    hide Components, ComponentLength, ClusterOf, IsDirectory, Find, SoundIn, Follow;
    var c := path[current..current + ComponentLength(path[current..])];
    FollowStep(m, dir, c, Components(path[next..]));
    if Find(m[dir], c, 0).Some? {
      FoundDirectory(t, m, dir, c);
    }
  }

  /** fat32_resolve_path: the outcome Resolve says, for every path. */
  method ResolvePath(fs: Volume, path: Text, ghost t: Tree) returns (r: Status, result: PathResult)
    requires fs.Ready() && Sound(fs.g, fs.Now(), t)
    modifies fs.sectorBuffer
    ensures Located(AllSlots(fs.g, fs.Now(), t), Resolve(AllSlots(fs.g, fs.Now(), t), fs.g.rootCluster, path), r, result)
  {
    hide Kept, ViewOf, AllSlots, Shape, Components, SkipSlashes, Follow, ComponentLength, ClusterOf, SizeOf, IsDirectory,
         Find, SoundIn;
    ghost var m := AllSlots(fs.g, fs.Now(), t);
    ShapeFacts(fs.g, fs.Now(), t);
    result := PathResult(0, 0, false, 0, 0);
    if |path| == 0 || path[0] != SLASH {
      return Error, result;
    }
    ComponentsStep(path[1..]);
    FollowEmpty(m, fs.g.rootCluster);
    if |path| == 1 {
      assert path[1..] == [];
      ComponentsEmpty();
      return Ok, PathResult(fs.g.rootCluster, 0, true, 0, 0);
    }
    ghost var all := Follow(m, fs.g.rootCluster, Components(path[1..]));
    var currentDirectory: nat := fs.g.rootCluster;
    var current: nat := 1;
    var component := new byte[NAME_SIZE];
    while true
      invariant current <= |path| && currentDirectory in t.dirs
      invariant all == Follow(m, currentDirectory, Components(path[current..]))
      decreases |path| - current
    {
      ComponentsStep(path[current..]);
      current := SkipFrom(path, current);
      if current == |path| {
        FollowEmpty(m, currentDirectory);
        return Ok, PathResult(currentDirectory, 0, true, 0, 0);
      }
      assert path[current..][0] == path[current];
      SlotsFit(t, m, currentDirectory);
      var next, cluster, size, directory, entryIndex;
      r, next, cluster, size, directory, entryIndex := LookUpComponent(fs, currentDirectory, path, current, component, t);
      FollowNext(t, m, currentDirectory, path, current, next);
      if r != Ok {
        return;
      }
      if next == |path| {
        return Ok, PathResult(cluster, size, directory, currentDirectory, entryIndex);
      }
      if !directory {
        return NotADirectory, result;
      }
      currentDirectory := cluster;
      current := next;
    }
  }

  lemma FollowEmpty(m: Dirs, dir: nat)
    ensures Follow(m, dir, []) == AtDirectory(dir)
  {
  }

  lemma FoundDirectory(t: Tree, m: Dirs, d: nat, name: seq<byte>)
    requires SoundIn(t, m) && d in m && Find(m[d], name, 0).Some?
    ensures IsDirectory(m[d][Find(m[d], name, 0).value]) ==> ClusterOf(m[d][Find(m[d], name, 0).value]) in t.dirs
  {
    FoundIsLinked(t, m, d, name);
  }

  // ---------------------------------------------------------------- opening

  lemma ResolveSound(t: Tree, m: Dirs, root: nat, path: seq<byte>)
    requires SoundIn(t, m) && root in t.dirs
    ensures var r := Resolve(m, root, path);
            && (r.AtDirectory? ==> r.dir in t.dirs)
            && (r.AtEntry? ==> LiveIn(m, r.dir, r.index) && Linked(t, r.dir, m[r.dir][r.index]))
  {
    hide SoundIn, Follow, Components, Live, Linked;
    if path != [] && path[0] == SLASH {
      FollowSound(t, m, root, Components(path[1..]));
    }
  }

  /** What the result of fat32_resolve_path tells about the resolution. */
  lemma LocatedFacts(g: Geometry, v: View, t: Tree, path: seq<byte>, r: Status, p: PathResult)
    requires Sound(g, v, t) && Located(AllSlots(g, v, t), Resolve(AllSlots(g, v, t), g.rootCluster, path), r, p)
    ensures var m := AllSlots(g, v, t); var res := Resolve(m, g.rootCluster, path);
            && (r != Ok ==> res == Unresolved(r))
            && (r == Ok ==> !res.Unresolved? && DirectoryAt(m, res) == (if p.directory then Some(p.cluster) else None))
            && (r == Ok && p.directory ==> p.cluster in t.dirs)
            && (r == Ok && !p.directory ==>
                  && res == AtEntry(p.directoryCluster, p.entryIndex)
                  && SlotIs(g, v, t, p.directoryCluster, p.entryIndex, p.cluster, p.size))
  {
    hide AllSlots, Shape, Resolve, ClusterOf, SizeOf, IsDirectory, Live, SoundIn;
    ShapeFacts(g, v, t);
    ResolveSound(t, AllSlots(g, v, t), g.rootCluster, path);
  }

  /** fat32_open: a handle on exactly the entry the path leads to, if that is a file. */
  method Open(fs: Volume, path: Text, file: FileHandle, ghost t: Tree) returns (r: Status)
    requires fs.Ready() && Sound(fs.g, fs.Now(), t)
    modifies fs.sectorBuffer, file
    ensures var m := AllSlots(fs.g, fs.Now(), t); var res := Resolve(m, fs.g.rootCluster, path);
            r == if res.Unresolved? then res.status else if DirectoryAt(m, res).Some? then NotAFile else Ok
    ensures r == Ok ==> HandleOk(fs.g, fs.Now(), t, file) && file.position == 0
    ensures r != Ok ==> unchanged(file)
    ensures r == Ok ==> Resolve(AllSlots(fs.g, fs.Now(), t), fs.g.rootCluster, path) == AtEntry(file.directoryCluster, file.entryIndex)
  {
    hide Kept, ViewOf, AllSlots, Shape, Resolve, SoundIn, Located, DirectoryAt, SlotIs;
    var result;
    r, result := ResolvePath(fs, path, t);
    LocatedFacts(fs.g, fs.Now(), t, path, r, result);
    if r != Ok {
      return;
    }
    if result.directory {
      return NotAFile;
    }
    file.firstCluster := result.cluster;
    file.size := result.size;
    file.position := 0;
    file.directoryCluster := result.directoryCluster;
    file.entryIndex := result.entryIndex;
    file.directory := false;
  }
}
