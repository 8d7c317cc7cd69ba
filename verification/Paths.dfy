/** Paths: their components, cutting off the last one, and following them from directory to directory. */
module Paths {
  import opened Bytes
  import opened Volumes
  import opened Slots
  import opened Names83
  import opened LongNames
  import opened Trees

  const NAME_SIZE: nat := 256

  // ---------------------------------------------------------------- components

  /** The index of the first character that is not a slash, from i on. */
  function LeadingSlashes(p: seq<byte>, i: nat): (k: nat)
    requires i <= |p|
    ensures i <= k <= |p| && (k < |p| ==> p[k] != SLASH) && forall j | i <= j < k :: p[j] == SLASH
    decreases |p| - i
  {
    if i < |p| && p[i] == SLASH then LeadingSlashes(p, i + 1) else i
  }

  function SkipSlashes(p: seq<byte>): (q: seq<byte>)
    ensures |q| <= |p| && (q == [] || q[0] != SLASH)
  {
    p[LeadingSlashes(p, 0)..]
  }

  /** How much of p fat32_resolve_path takes as one component: up to the next slash, but at most 255 characters. */
  function ComponentLength(p: seq<byte>): (n: nat)
    ensures n <= |p| && (p != [] && p[0] != SLASH ==> n > 0)
  {
    Min(IndexOf(p, SLASH), NAME_SIZE - 1)
  }

  function Components(p: seq<byte>): (cs: seq<seq<byte>>)
    decreases |p|
  {
    var q := SkipSlashes(p);
    if q == [] then [] else [q[..ComponentLength(q)]] + Components(q[ComponentLength(q)..])
  }

  lemma SkipSlashesUnique(p: seq<byte>, k: nat)
    requires k <= |p| && (forall i | 0 <= i < k :: p[i] == SLASH) && (k < |p| ==> p[k] != SLASH)
    ensures LeadingSlashes(p, 0) == k && SkipSlashes(p) == p[k..]
  {
  }

  /** More text behind a path that is not all slashes does not change what its slashes are skipped to. */
  lemma SkipSlashesMore(p: seq<byte>, more: seq<byte>)
    requires SkipSlashes(p) != []
    ensures SkipSlashes(p + more) == SkipSlashes(p) + more
  {
    var k := LeadingSlashes(p, 0);
    SkipSlashesUnique(p + more, k);
    assert (p + more)[k..] == p[k..] + more;
  }

  lemma SkipSlashesAll(p: seq<byte>, more: seq<byte>)
    requires SkipSlashes(p) == [] && (more == [] || more[0] != SLASH)
    ensures SkipSlashes(p + [SLASH] + more) == more
  {
    var whole := p + [SLASH] + more;
    assert LeadingSlashes(p, 0) == |p|;
    SkipSlashesUnique(whole, |p| + 1);
    assert whole[|p| + 1..] == more;
  }

  lemma ComponentLengthMore(q: seq<byte>, more: seq<byte>)
    ensures ComponentLength(q + [SLASH] + more) == ComponentLength(q)
  {
    var k := IndexOf(q, SLASH);
    IndexOfUnique(q + [SLASH] + more, SLASH, k);
  }

  lemma ComponentsEmpty()
    ensures Components([]) == []
  {
  }

  /** One further component at the end of a path. */
  lemma {:induction false} ComponentsSnoc(p: seq<byte>, name: seq<byte>)
    requires SLASH !in name && |name| < NAME_SIZE
    ensures Components(p + [SLASH] + name) == Components(p) + if name == [] then [] else [name]
    decreases |p|
  {
    hide SkipSlashes, IndexOf, ComponentLength;
    var tail: seq<byte> := [SLASH] + name;
    var whole: seq<byte> := p + tail;
    assert p + [SLASH] + name == whole;
    var q := SkipSlashes(p);
    if q == [] {
      SkipSlashesAll(p, name);
      WholeComponent(name);
      assert Components(p) == [];
    } else {
      SkipSlashesMore(p, tail);
      ComponentLengthMore(q, name);
      var n := ComponentLength(q);
      var rest: seq<byte> := q[n..];
      assert q + tail == q + [SLASH] + name;
      assert (q + tail)[..n] == q[..n] && (q + tail)[n..] == rest + [SLASH] + name;
      ComponentsSnoc(rest, name);
    }
  }

  /** Two paths with a slash between them. */
  lemma {:induction false} ComponentsJoin(p: seq<byte>, q: seq<byte>)
    ensures Components(p + [SLASH] + q) == Components(p) + Components(q)
    decreases |p|
  {
    hide SkipSlashes, IndexOf, ComponentLength;
    var tail: seq<byte> := [SLASH] + q;
    assert p + [SLASH] + q == p + tail;
    var s := SkipSlashes(p);
    if s == [] {
      SkippedAway(p, q);
      assert Components(p) == [] && [] + Components(q) == Components(q);
    } else {
      SkipSlashesMore(p, tail);
      ComponentLengthMore(s, q);
      var n := ComponentLength(s);
      var rest: seq<byte> := s[n..];
      assert s + tail == s + [SLASH] + q;
      assert (s + tail)[..n] == s[..n] && (s + tail)[n..] == rest + [SLASH] + q;
      ComponentsJoin(rest, q);
      assert [s[..n]] + (Components(rest) + Components(q)) == Components(p) + Components(q);
    }
  }

  lemma SkippedAway(p: seq<byte>, q: seq<byte>)
    requires SkipSlashes(p) == []
    ensures SkipSlashes(p + ([SLASH] + q)) == SkipSlashes(q) && Components(p + ([SLASH] + q)) == Components(q)
  {
    var k := LeadingSlashes(q, 0);
    var whole: seq<byte> := p + ([SLASH] + q);
    assert LeadingSlashes(p, 0) == |p|;
    SkipSlashesUnique(whole, |p| + 1 + k);
    assert whole[|p| + 1 + k..] == q[k..];
  }

  lemma WholeComponent(name: seq<byte>)
    requires SLASH !in name && |name| < NAME_SIZE
    ensures name != [] ==> ComponentLength(name) == |name| && name[..|name|] == name && name[|name|..] == []
  {
    IndexOfUnique(name, SLASH, |name|);
  }

  /** A component of more than 255 characters is taken in pieces of 255. */
  lemma ComponentsLong(p: seq<byte>)
    requires |p| > 255 && SLASH !in p
    ensures Components(p) == [p[..255]] + Components(p[255..])
  {
    SkipSlashesUnique(p, 0);
    IndexOfUnique(p, SLASH, |p|);
    assert p[0..] == p;
  }

  // ---------------------------------------------------------------- splitting

  /** A path without its trailing slashes; its first character stays. */
  function Stripped(path: seq<byte>): (p: seq<byte>)
    ensures |p| <= |path| && p == path[..|p|] && (path != [] ==> p != [])
    ensures |p| > 1 ==> p[|p| - 1] != SLASH
  {
    if |path| > 1 && path[|path| - 1] == SLASH then Stripped(path[..|path| - 1]) else path
  }

  /** One more than the index of the last slash; 0 if there is none. */
  function AfterLastSlash(p: seq<byte>): (k: nat)
    ensures k <= |p| && (k > 0 ==> p[k - 1] == SLASH) && forall i | k <= i < |p| :: p[i] != SLASH
  {
    if p == [] then 0
    else if p[|p| - 1] == SLASH then |p|
    else AfterLastSlash(p[..|p| - 1])
  }

  lemma AfterLastSlashUnique(p: seq<byte>, k: nat)
    requires k <= |p| && (k > 0 ==> p[k - 1] == SLASH) && forall i | k <= i < |p| :: p[i] != SLASH
    ensures AfterLastSlash(p) == k
  {
  }

  /** fat32_split_parent_path: parent path and name, if the path is short enough, has both and they fit. */
  function SplitInto(path: seq<byte>, parentSize: nat, nameSize: nat): Option<(seq<byte>, seq<byte>)> {
    if |path| == 0 || |path| >= NAME_SIZE then None
    else
      var p := Stripped(path);
      var k := AfterLastSlash(p);
      if k == 0 || k == |p| || |p| - k >= nameSize then None
      else if k == 1 then (if parentSize < 2 then None else Some(([SLASH], p[k..])))
      else if k >= parentSize then None
      else Some((p[..k - 1], p[k..]))
  }

  function Split(path: seq<byte>): Option<(seq<byte>, seq<byte>)> {
    SplitInto(path, NAME_SIZE, NAME_SIZE)
  }

  lemma StrippedDone(p: seq<byte>)
    requires |p| <= 1 || p[|p| - 1] != SLASH
    ensures Stripped(p) == p
  {
  }

  /** In plain indexes: a slash at k, a name behind it up to e, and from there on slashes only. */
  ghost predicate CutsAt(path: seq<byte>, k: nat, e: nat) {
    && k + 1 < e <= |path| && path[k] == SLASH
    && (forall x | k < x < e :: path[x] != SLASH) && (forall x | e <= x < |path| :: path[x] == SLASH)
  }

  lemma {:induction false} StrippedIs(path: seq<byte>, e: nat)
    requires 0 < e <= |path| && (e > 1 ==> path[e - 1] != SLASH) && forall x | e <= x < |path| :: path[x] == SLASH
    ensures Stripped(path) == path[..e]
  {
    if |path| > e {
      StrippedIs(path[..|path| - 1], e);
      assert path[..|path| - 1][..e] == path[..e];
    } else {
      assert path[..e] == path;
    }
  }

  /** Where a path is cut, into what, and what keeps it from being cut. */
  lemma SplitIntoIs(path: seq<byte>, parentSize: nat, nameSize: nat, k: nat, e: nat)
    requires CutsAt(path, k, e)
    ensures SplitInto(path, parentSize, nameSize) ==
            if |path| < 256 && e <= k + nameSize && (if k == 0 then 2 <= parentSize else k + 1 < parentSize)
            then Some((if k == 0 then [SLASH] else path[..k], path[k + 1..e])) else None
  {
    StrippedIs(path, e);
    AfterLastSlashUnique(path[..e], k + 1);
    assert path[..e][k + 1..] == path[k + 1..e];
    assert k > 0 ==> path[..e][..k] == path[..k];
  }

  /** A path without such a place is not cut. */
  lemma SplitNowhere(path: seq<byte>, parentSize: nat, nameSize: nat) returns (k: nat, e: nat)
    requires SplitInto(path, parentSize, nameSize).Some?
    ensures CutsAt(path, k, e)
  {
    var p := Stripped(path);
    k, e := AfterLastSlash(p) - 1, |p|;
    StrippedRest(path);
    forall x | k <= x < e ensures path[x] == p[x] {
    }
  }

  lemma {:induction false} StrippedRest(path: seq<byte>)
    ensures forall x | |Stripped(path)| <= x < |path| :: path[x] == SLASH
    decreases |path|
  {
    if |path| > 1 && path[|path| - 1] == SLASH {
      StrippedRest(path[..|path| - 1]);
    }
  }

  /** When a path is cut, for buffers of any sizes. */
  lemma SplitIntoWhen(path: seq<byte>, parentSize: nat, nameSize: nat)
    ensures SplitInto(path, parentSize, nameSize).Some? <==>
            |path| < 256 && exists k: nat, e: nat ::
              CutsAt(path, k, e) && e <= k + nameSize && (if k == 0 then 2 <= parentSize else k + 1 < parentSize)
  {
    hide SplitInto, CutsAt;
    forall k: nat, e: nat | CutsAt(path, k, e)
      ensures SplitInto(path, parentSize, nameSize).Some? <==>
              |path| < 256 && e <= k + nameSize && (if k == 0 then 2 <= parentSize else k + 1 < parentSize)
    {
      SplitIntoIs(path, parentSize, nameSize, k, e);
    }
    if SplitInto(path, parentSize, nameSize).Some? {
      var k, e := SplitNowhere(path, parentSize, nameSize);
      SplitIntoIs(path, parentSize, nameSize, k, e);
    }
  }

  /** A slash with something else behind it is all it takes. */
  lemma CutExists(path: seq<byte>, i: nat, j: nat) returns (k: nat, e: nat)
    requires i < j < |path| && path[i] == SLASH && path[j] != SLASH
    ensures CutsAt(path, k, e)
  {
    e := |path|;
    while path[e - 1] == SLASH
      invariant j < e <= |path| && forall x | e <= x < |path| :: path[x] == SLASH
      decreases e
    {
      e := e - 1;
    }
    k := e - 1;
    while path[k] != SLASH
      invariant i <= k < e && forall x | k < x < e :: path[x] != SLASH
      decreases k
    {
      k := k - 1;
    }
  }

  /** With buffers of 256 bytes: a path of less than 256 characters, if and only if somewhere behind a slash there is a
      character that is none. */
  lemma SplitWhen(path: seq<byte>)
    ensures Split(path).Some? <==>
            0 < |path| < 256 && exists i, j :: 0 <= i < j < |path| && path[i] == 47 && path[j] != 47
  {
    hide SplitInto, CutsAt;
    SplitIntoWhen(path, 256, 256);
    if Split(path).Some? {
      var k: nat, e: nat :| CutsAt(path, k, e);
      CutInside(path, k, e);
    }
    if 0 < |path| < 256 && exists i, j :: 0 <= i < j < |path| && path[i] == SLASH && path[j] != SLASH {
      var i, j :| 0 <= i < j < |path| && path[i] == SLASH && path[j] != SLASH;
      var k, e := CutExists(path, i, j);
      CutInside(path, k, e);
      assert CutsAt(path, k, e);
    }
  }

  lemma CutInside(path: seq<byte>, k: nat, e: nat)
    requires CutsAt(path, k, e)
    ensures k < k + 1 < e <= |path| && path[k] == SLASH && path[k + 1] != SLASH
  {
  }

  lemma NoComponents(p: seq<byte>)
    ensures Components(p) == [] <==> forall x | 0 <= x < |p| :: p[x] == SLASH
  {
  }

  /** For absolute paths: at most 255 characters, and some component. */
  lemma SplitAbsolute(path: seq<byte>)
    requires path != [] && path[0] == SLASH
    ensures Split(path).Some? <==> |path| <= 255 && Components(path) != []
    ensures Components(path) == Components(path[1..])
  {
    hide Components, Split;
    SplitWhen(path);
    NoComponents(path);
    if Components(path) != [] {
      var x :| 0 <= x < |path| && path[x] != SLASH;
      assert 0 < x;
    }
    LeadingSlash(path);
  }

  lemma LeadingSlash(path: seq<byte>)
    requires path != [] && path[0] == SLASH
    ensures Components(path) == Components(path[1..])
  {
    var k := LeadingSlashes(path[1..], 0);
    SkipSlashesUnique(path, k + 1);
    assert path[k + 1..] == path[1..][k..];
  }

  /** The first n characters of `from` have been copied to `output`. */
  ghost predicate Copied(output: seq<byte>, from: seq<byte>, n: nat) {
    n <= |output| && n <= |from| && forall k | 0 <= k < n :: output[k] == from[k]
  }

  method CopyText(output: array<byte>, from: Text)
    requires |from| < output.Length
    modifies output
    ensures CString(output[..]) == from
  {
    var i := 0;
    while i < |from|
      invariant 0 <= i <= |from| && Copied(output[..], from, i)
    {
      output[i] := from[i];
      i := i + 1;
    }
    output[|from|] := 0;
    assert forall k | 0 <= k < |from| :: output[..][k] != 0 by {
      assert forall k | 0 <= k < |from| :: from[k] in from;
    }
    IndexOfUnique(output[..], 0, |from|);
    assert output[..][..|from|] == from;
  }

  /** The three scans fat32_split_parent_path starts with: the length, the trailing slashes, the last slash. */
  method ScanPath(path: Text) returns (ok: bool, length: nat, slash: int)
    ensures ok <==> 0 < |path| < NAME_SIZE
    ensures ok ==> length == |Stripped(path)| && slash + 1 == AfterLastSlash(Stripped(path))
  {
    hide Stripped, AfterLastSlash;
    ok, length, slash := false, 0, -1;
    while length < |path|
      invariant 0 <= length <= |path| && length < NAME_SIZE
    {
      length := length + 1;
      if length >= NAME_SIZE {
        return;
      }
    }
    if length == 0 {
      return;
    }
    assert path[..length] == path;
    while length > 1 && path[length - 1] == SLASH
      invariant 0 < length <= |path| && Stripped(path) == Stripped(path[..length])
    {
      StrippedStep(path[..length]);
      assert path[..length][..length - 1] == path[..length - 1];
      length := length - 1;
    }
    StrippedDone(path[..length]);
    var i := 0;
    while i < length
      invariant 0 <= i <= length && -1 <= slash < i
      invariant slash >= 0 ==> path[slash] == SLASH
      invariant forall k | slash < k < i :: path[k] != SLASH
    {
      if path[i] == SLASH {
        slash := i;
      }
      i := i + 1;
    }
    AfterLastSlashUnique(path[..length], slash + 1);
    ok := true;
  }

  lemma StrippedStep(p: seq<byte>)
    requires |p| > 1 && p[|p| - 1] == SLASH
    ensures Stripped(p) == Stripped(p[..|p| - 1])
  {
  }

  lemma SplitIntoParts(path: seq<byte>, parentSize: nat, nameSize: nat)
    ensures SplitInto(path, parentSize, nameSize).Some? ==>
              exists k: nat, e: nat ::
                && CutsAt(path, k, e) && k < e <= |path| && SplitInto(path, parentSize, nameSize).value.1 == path[k + 1..e]
                && SplitInto(path, parentSize, nameSize).value.0 == if k == 0 then [SLASH] else path[..k]
  {
    hide SplitInto, CutsAt;
    if SplitInto(path, parentSize, nameSize).Some? {
      var k, e := SplitNowhere(path, parentSize, nameSize);
      SplitIntoIs(path, parentSize, nameSize, k, e);
      CutInside(path, k, e);
    }
  }

  method SplitParentPath(path: Text, parentPath: array<byte>, name: array<byte>) returns (r: Status)
    requires parentPath != name
    modifies parentPath, name
    ensures r == if SplitInto(path, parentPath.Length, name.Length).Some? then Ok else Error
    ensures r == Ok ==>
              SplitInto(path, parentPath.Length, name.Length) == Some((CString(parentPath[..]), CString(name[..])))
    ensures r == Ok <==>
              |path| < 256 && exists k: nat, e: nat ::
                && CutsAt(path, k, e) && e <= k + name.Length
                && (if k == 0 then 2 <= parentPath.Length else k + 1 < parentPath.Length)
    ensures r == Ok ==> exists k: nat, e: nat :: CutsAt(path, k, e) && CString(name[..]) == path[k + 1..e]
                                                 && CString(parentPath[..]) == if k == 0 then [SLASH] else path[..k]
  {
    hide CString, Stripped, AfterLastSlash, CutsAt;
    SplitIntoWhen(path, parentPath.Length, name.Length);
    SplitIntoParts(path, parentPath.Length, name.Length);
    if parentPath.Length == 0 || name.Length == 0 {
      return Error;
    }
    var ok, length, slash := ScanPath(path);
    if !ok {
      return Error;
    }
    if slash == -1 {
      return Error;
    }
    var nameLength := length - slash - 1;
    if nameLength == 0 || nameLength >= name.Length {
      return Error;
    }
    ghost var p := Stripped(path);
    assert p == path[..length];
    assert p[slash + 1..] == path[slash + 1..length] && p[..slash] == path[..slash];
    CopyText(name, path[slash + 1..length]);
    if slash == 0 {
      if parentPath.Length < 2 {
        return Error;
      }
      CopyText(parentPath, [SLASH]);
      return Ok;
    }
    if slash + 1 >= parentPath.Length {
      return Error;
    }
    CopyText(parentPath, path[..slash]);
    return Ok;
  }

  // ---------------------------------------------------------------- following

  /** Where a path leads: a directory (only the root has a path without components), an entry, or nowhere. */
  datatype Resolution = AtDirectory(dir: nat) | AtEntry(dir: nat, index: nat) | Unresolved(status: Status)

  function Follow(m: Dirs, dir: nat, cs: seq<seq<byte>>): (r: Resolution)
    ensures r.AtEntry? ==> r.dir in m && r.index < |m[r.dir]| && Used(m[r.dir][r.index])
    ensures r.AtDirectory? ==> cs == [] && r.dir == dir
    ensures r.Unresolved? ==> r.status in {Error, NotFound, NotADirectory}
    decreases |cs|
  {
    if cs == [] then AtDirectory(dir)
    else if dir !in m then Unresolved(Error)
    else
      match Find(m[dir], cs[0], 0)
      case None => Unresolved(NotFound)
      case Some(i) =>
        if |cs| == 1 then AtEntry(dir, i)
        else if !IsDirectory(m[dir][i]) then Unresolved(NotADirectory)
        else Follow(m, ClusterOf(m[dir][i]), cs[1..])
  }

  /** fat32_resolve_path. */
  function Resolve(m: Dirs, root: nat, path: seq<byte>): (r: Resolution)
    ensures r.AtEntry? ==> r.dir in m && r.index < |m[r.dir]| && Used(m[r.dir][r.index])
    ensures r.AtDirectory? ==> r.dir == root
    ensures r.Unresolved? ==> r.status in {Error, NotFound, NotADirectory}
  {
    if path == [] || path[0] != SLASH then Unresolved(Error) else Follow(m, root, Components(path[1..]))
  }

  /** The directory a resolution stands for, if it is one. */
  function DirectoryAt(m: Dirs, r: Resolution): Option<nat>
    requires r.AtEntry? ==> r.dir in m && r.index < |m[r.dir]|
  {
    match r
    case AtDirectory(d) => Some(d)
    case AtEntry(d, i) => if IsDirectory(m[d][i]) then Some(ClusterOf(m[d][i])) else None
    case Unresolved(_) => None
  }

  /** Looking a name up where a path led. */
  function LookIn(m: Dirs, r: Resolution, name: seq<byte>): Resolution
    requires r.AtEntry? ==> r.dir in m && r.index < |m[r.dir]|
  {
    if r.Unresolved? then r
    else
      match DirectoryAt(m, r)
      case None => Unresolved(NotADirectory)
      case Some(d) => Follow(m, d, [name])
  }

  lemma {:induction false} FollowSnoc(m: Dirs, dir: nat, cs: seq<seq<byte>>, name: seq<byte>)
    ensures Follow(m, dir, cs + [name]) == LookIn(m, Follow(m, dir, cs), name)
    decreases |cs|
  {
    hide Find, Used;
    if cs == [] {
      assert cs + [name] == [name];
    } else if dir in m && Find(m[dir], cs[0], 0).Some? {
      var i := Find(m[dir], cs[0], 0).value;
      assert (cs + [name])[1..] == cs[1..] + [name];
      if |cs| == 1 {
        assert cs[1..] + [name] == [name];
      } else if IsDirectory(m[dir][i]) {
        FollowSnoc(m, ClusterOf(m[dir][i]), cs[1..], name);
      }
    }
  }

  /** One step more, case by case: a failure stays what it was, a file is no directory, and in a directory the name is there
      or it is not. */
  lemma FollowStep(m: Dirs, dir: nat, cs: seq<seq<byte>>, name: seq<byte>)
    ensures Follow(m, dir, []) == AtDirectory(dir)
    ensures var r, next := Follow(m, dir, cs), Follow(m, dir, cs + [name]);
            && (r.Unresolved? ==> next == r)
            && (r.AtEntry? && m[r.dir][r.index][11] % 32 < 16 ==> next == Unresolved(NotADirectory))
            && forall d | r == AtDirectory(d) || (r.AtEntry? && m[r.dir][r.index][11] % 32 >= 16
                                                  && d == ClusterOf(m[r.dir][r.index])) ::
                 && (d !in m ==> next == Unresolved(Error))
                 && (d in m && Find(m[d], name, 0) == None ==> next == Unresolved(NotFound))
                 && (d in m && Find(m[d], name, 0).Some? ==> next == AtEntry(d, Find(m[d], name, 0).value))
  {
    hide Find, Used, ClusterOf;
    FollowSnoc(m, dir, cs, name);
    FollowOne(m, dir, name);
    var r := Follow(m, dir, cs);
    if r.AtEntry? {
      FollowOne(m, ClusterOf(m[r.dir][r.index]), name);
      DirectoryBit(m[r.dir][r.index]);
    }
  }

  lemma DirectoryBit(s: Slot)
    ensures IsDirectory(s) <==> s[11] % 32 >= 16
  {
  }

  lemma FollowOne(m: Dirs, d: nat, name: seq<byte>)
    ensures Follow(m, d, [name]) ==
            if d !in m then Unresolved(Error)
            else if Find(m[d], name, 0) == None then Unresolved(NotFound)
            else AtEntry(d, Find(m[d], name, 0).value)
  {
    hide Find, Used, IsDirectory, ClusterOf;
  }

  /** A path is followed from the root if it begins with a slash, and refused otherwise. */
  lemma ResolveMeans(m: Dirs, root: nat, path: seq<byte>)
    ensures (path == [] || path[0] != 47) ==> Resolve(m, root, path) == Unresolved(Error)
    ensures path != [] && path[0] == 47 ==> Resolve(m, root, path) == Follow(m, root, Components(path))
  {
    hide Components, Follow;
    if path != [] && path[0] == SLASH {
      LeadingSlash(path);
    }
  }

  /** The components of a path are those of its parent and its name. */
  lemma SplitComponents(path: seq<byte>)
    requires Split(path).Some? && path[0] == SLASH
    ensures var (parent, name) := Split(path).value;
            parent != [] && parent[0] == SLASH && Components(path[1..]) == Components(parent[1..]) + [name]
  {
    hide Components;
    var p := Stripped(path);
    var k := AfterLastSlash(p);
    var parent, name := Split(path).value.0, Split(path).value.1;
    assert p[k..] == name && SLASH !in name;
    StrippedComponents(path);
    if k == 1 {
      var none: seq<byte> := [];
      assert p[1..] == name && parent[1..] == none;
      ComponentsSnoc([], name);
      ComponentsLeading(name);
      assert Components(none) == [] by { ComponentsEmpty(); }
    } else {
      var middle: seq<byte> := parent[1..];
      ComponentsSnoc(middle, name);
      assert p[1..] == middle + [SLASH] + name;
    }
  }

  lemma ComponentsLeading(name: seq<byte>)
    requires SLASH !in name
    ensures Components([] + [SLASH] + name) == Components(name)
  {
    SkipSlashesAll([], name);
    SkipSlashesUnique(name, 0);
    assert name[0..] == name;
  }

  /** Trailing slashes add no component. */
  lemma {:induction false} StrippedComponents(path: seq<byte>)
    requires path != []
    ensures Stripped(path) != [] && Components(path[1..]) == Components(Stripped(path)[1..])
    decreases |path|
  {
    hide Components;
    if |path| > 1 && path[|path| - 1] == SLASH {
      var shorter: seq<byte> := path[..|path| - 1];
      StrippedComponents(shorter);
      var none: seq<byte> := [];
      var middle: seq<byte> := shorter[1..];
      ComponentsSnoc(middle, none);
      assert path[1..] == middle + [SLASH] + none;
    }
  }

  /** Resolving a path is resolving its parent and looking the name up there, with the same outcome in every case. */
  lemma SplitResolve(m: Dirs, root: nat, path: seq<byte>)
    requires Split(path).Some?
    ensures Resolve(m, root, path) == LookIn(m, Resolve(m, root, Split(path).value.0), Split(path).value.1)
  {
    hide Components, Follow;
    var parent, name := Split(path).value.0, Split(path).value.1;
    if path[0] == SLASH {
      SplitComponents(path);
      FollowSnoc(m, root, Components(parent[1..]), name);
    } else {
      assert parent[0] == path[0];
    }
  }
}
