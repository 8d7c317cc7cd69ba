/** fat32_opendir and fat32_readdir, and what a whole listing of a directory delivers. */
module Listing {
  import opened Bytes
  import opened Geometry
  import opened Volumes
  import opened Slots
  import opened Names83
  import opened LongNames
  import opened Trees
  import opened DirScan
  import opened Lookup
  import opened Paths
  import opened Resolving

  // ---------------------------------------------------------------- the order of a listing

  /** The first live slot from k on, unless the end of the directory comes before it. */
  function NextVisible(ss: seq<Slot>, k: nat): (r: Option<nat>)
    requires k <= |ss|
    ensures r.Some? ==> k <= r.value < |ss| && Live(ss[r.value])
    decreases |ss| - k
  {
    if k == |ss| || ss[k][0] == 0 then None else if Live(ss[k]) then Some(k) else NextVisible(ss, k + 1)
  }

  /** The slots successive calls report, from slot k on. */
  function Listed(ss: seq<Slot>, k: nat): seq<nat>
    requires k <= |ss|
    decreases |ss| - k
  {
    match NextVisible(ss, k)
    case None => []
    case Some(j) => [j] + Listed(ss, j + 1)
  }

  lemma {:induction false} NextVisibleSkips(ss: seq<Slot>, k: nat)
    requires k <= |ss| && TailUnused(ss)
    ensures var end := if NextVisible(ss, k).Some? then NextVisible(ss, k).value else |ss|;
            forall i | k <= i < end :: !Live(ss[i])
    decreases |ss| - k
  {
    if k < |ss| && ss[k][0] != 0 && !Live(ss[k]) {
      NextVisibleSkips(ss, k + 1);
    }
  }

  /** The slot reported next is the first live one from k on, if no never-used slot stands before it. */
  lemma {:induction false} NextVisibleMeans(ss: seq<Slot>, k: nat, i: nat)
    requires k <= |ss|
    ensures NextVisible(ss, k) == Some(i) <==>
            && k <= i < |ss| && Live(ss[i]) && (forall j | k <= j <= i :: ss[j][0] != 0x00)
            && forall j | k <= j < i :: !Live(ss[j])
    decreases |ss| - k
  {
    hide Live;
    if k < |ss| && ss[k][0] != 0 && !Live(ss[k]) {
      NextVisibleMeans(ss, k + 1, i);
    }
    LiveIsUsed(ss, k);
  }

  lemma LiveIsUsed(ss: seq<Slot>, k: nat)
    ensures k < |ss| && Live(ss[k]) ==> ss[k][0] != 0x00
  {
  }

  /** A listing has each live entry once, in slot order. */
  lemma {:induction false} ListedAll(ss: seq<Slot>, k: nat)
    requires k <= |ss| && TailUnused(ss)
    ensures forall a | 0 <= a < |Listed(ss, k)| :: k <= Listed(ss, k)[a] < |ss| && Live(ss[Listed(ss, k)[a]])
    ensures forall a, b | 0 <= a < b < |Listed(ss, k)| :: Listed(ss, k)[a] < Listed(ss, k)[b]
    ensures forall i | k <= i < |ss| && Live(ss[i]) :: i in Listed(ss, k)
    decreases |ss| - k
  {
    hide Live, TailUnused;
    NextVisibleSkips(ss, k);
    if NextVisible(ss, k).Some? {
      ListedAll(ss, NextVisible(ss, k).value + 1);
    }
  }

  // ---------------------------------------------------------------- the handle

  /** fat32_dir_t; clusterIndex counts the clusters of the directory's chain already left behind. */
  class DirHandle {
    var cluster: nat
    var sectorInCluster: nat
    var entryInSector: nat
    var finished: bool
    const lfnName: array<byte>
    var hasLfn: bool
    ghost var clusterIndex: nat

    constructor ()
      ensures fresh(lfnName) && lfnName.Length == LFN_SIZE
    {
      cluster, sectorInCluster, entryInSector, finished, hasLfn := 0, 0, 0, true, false;
      lfnName := new byte[LFN_SIZE];
      clusterIndex := 0;
    }

    /** The slot the next call looks at first. */
    ghost function Position(g: Geometry): nat
      reads this
    {
      SlotIndex(g, clusterIndex, sectorInCluster) + entryInSector
    }

    /** The handle is somewhere on the directory with chain ch and slots ss, and holds the long name due there. */
    ghost predicate On(g: Geometry, ch: seq<nat>, ss: seq<Slot>)
      reads this, lfnName
    {
      && lfnName.Length == LFN_SIZE
      && (!finished ==>
            && clusterIndex < |ch| && cluster == ch[clusterIndex]
            && sectorInCluster < g.sectorsPerCluster && entryInSector <= 16 && Position(g) <= |ss|
            && MachineIs(hasLfn, lfnName[..], Held(ss, Position(g))))
    }

    /** The slot the next call will report. */
    ghost function Due(g: Geometry, ss: seq<Slot>): Option<nat>
      reads this
    {
      if finished || Position(g) > |ss| then None else NextVisible(ss, Position(g))
    }
  }

  method ClearString(string_: array<byte>)
    modifies string_
    ensures string_[..] == Zeros(string_.Length)
  {
    var i := 0;
    while i < string_.Length
      invariant 0 <= i <= string_.Length && forall k | 0 <= k < i :: string_[k] == 0
    {
      string_[i] := 0;
      i := i + 1;
    }
  }

  /** What of a name fits a buffer of that size. */
  function Cut(name: seq<byte>, size: nat): seq<byte>
    requires size > 0
  {
    name[..Min(|name|, size - 1)]
  }

  /** A name is given whole if the buffer has room for it and a zero, and otherwise as much of it as does. */
  lemma CutMeans(name: seq<byte>, size: nat)
    requires size > 0
    ensures |name| + 1 <= size ==> Cut(name, size) == name
    ensures |name| + 1 > size ==> |Cut(name, size)| + 1 == size && Cut(name, size) <= name
  {
  }

  lemma CStringIs(b: seq<byte>, from: seq<byte>, n: nat)
    requires n < |b| && n <= |from| && b[n] == 0
    requires forall k | 0 <= k < n :: b[k] == from[k] != 0
    ensures CString(b) == from[..n]
  {
    IndexOfUnique(b, 0, n);
  }

  lemma CStringBefore(b: seq<byte>, n: nat)
    requires n <= |b| && (n < |b| ==> b[n] == 0) && forall k | 0 <= k < n :: b[k] != 0
    ensures CString(b) == b[..n]
  {
    IndexOfUnique(b, 0, n);
  }

  /** The loop that copies an assembled long name. */
  method CopyLong(lfn: array<byte>, entryName: array<byte>)
    requires lfn != entryName && lfn.Length == LFN_SIZE == entryName.Length && lfn[255] == 0
    requires entryName[..] == Zeros(256)
    modifies entryName
    ensures CString(entryName[..]) == CString(lfn[..]) && entryName[255] == 0
  {
    var i := 0;
    while i < LFN_SIZE - 1
      invariant 0 <= i <= LFN_SIZE - 1
      invariant forall k | 0 <= k < i :: entryName[k] == lfn[k] != 0
      invariant forall k | i <= k < 256 :: entryName[k] == 0
    {
      entryName[i] := lfn[i];
      if lfn[i] == 0 {
        break;
      }
      i := i + 1;
    }
    CStringIs(entryName[..], lfn[..], i);
    CStringBefore(lfn[..], i);
  }

  /** The loop that hands the name to the caller. */
  method CopyName(entryName: array<byte>, name: array<byte>)
    requires entryName != name && entryName.Length == LFN_SIZE && 0 in entryName[..] && name.Length > 0
    modifies name
    ensures CString(name[..]) == Cut(CString(entryName[..]), name.Length)
  {
    ghost var e := entryName[..];
    ghost var end := IndexOf(e, 0);
    assert end < |e| by {
      var k :| 0 <= k < |e| && e[k] == 0;
    }
    var i := 0;
    while entryName[i] != 0 && i < name.Length - 1
      invariant 0 <= i <= end && i <= name.Length - 1
      invariant entryName[..] == e && forall k | 0 <= k < i :: name[k] == e[k]
      decreases end - i
    {
      name[i] := entryName[i];
      i := i + 1;
    }
    name[i] := 0;
    CStringIs(name[..], e, i);
    assert e[..end][..i] == e[..i];
  }

  /** make_83_display_name as fat32_readdir calls it. */
  method ShowShort(name: Name83, entryName: array<byte>)
    requires entryName.Length == LFN_SIZE
    modifies entryName
    ensures CString(entryName[..]) == CString(Display(name)) && 0 in entryName[..]
  {
    hide Display, CString;
    var length := MakeDisplayName(name, entryName);
    ShownWhole(name, LFN_SIZE);
    DisplayTerminated(entryName[..], Display(name));
  }

  /** One turn of the slot loop of fat32_readdir. */
  method ExamineDirSlot(dir: DirHandle, s: Slot, name: array<byte>, ghost ss: seq<Slot>, ghost k: nat)
    returns (outcome: Outcome)
    requires dir.lfnName.Length == LFN_SIZE && name != dir.lfnName && name.Length > 0 && !dir.finished
    requires k < |ss| && ss[k] == s && MachineIs(dir.hasLfn, dir.lfnName[..], Held(ss, k))
    modifies dir`hasLfn, dir`finished, dir.lfnName, name
    ensures outcome == Ended <==> s[0] == 0
    ensures outcome == Ended <==> dir.finished
    ensures outcome == FoundHere ==> s[0] != 0 && Live(s) && CString(name[..]) == Cut(Reported(ss, k), name.Length)
    ensures outcome == GoOn ==> !Live(s)
    ensures outcome != Ended ==> MachineIs(dir.hasLfn, dir.lfnName[..], Held(ss, k + 1))
  {
    hide FragmentTo, Display, CString, Cut;
    HeldTerminated(ss, k);
    if s[0] == 0x00 {
      dir.finished := true;
      return Ended;
    }
    if s[0] == DELETED {
      dir.hasLfn := false;
      ClearString(dir.lfnName);
      return GoOn;
    }
    if s[11] == ATTR_LFN {
      if HasBit(s[0], LFN_LAST) {
        dir.hasLfn := true;
        ClearString(dir.lfnName);
      }
      if dir.hasLfn {
        LfnWriteChars(dir.lfnName, dir.lfnName.Length, s);
      }
      return GoOn;
    }
    if HasBit(s[11], ATTR_VOLUME_ID) {
      dir.hasLfn := false;
      ClearString(dir.lfnName);
      return GoOn;
    }
    var entryName := new byte[LFN_SIZE];
    ClearString(entryName);
    if dir.hasLfn {
      CopyLong(dir.lfnName, entryName);
      assert entryName[..][255] == 0;
    } else {
      ShowShort(NameOf(s), entryName);
    }
    ghost var reported := Reported(ss, k);
    assert CString(entryName[..]) == reported;
    dir.hasLfn := false;
    ClearString(dir.lfnName);
    if (s[0] == DOT && s[1] == SPACE) || (s[0] == DOT && s[1] == DOT && s[2] == SPACE) {
      return GoOn;
    }
    CopyName(entryName, name);
    outcome := FoundHere;
  }

  lemma DisplayTerminated(b: seq<byte>, d: seq<byte>)
    requires |d| < |b| && b[..|d|] == d && b[|d|] == 0
    ensures CString(b) == CString(d) && 0 in b
  {
    var n := IndexOf(d, 0);
    forall k | 0 <= k < n ensures b[k] != 0 {
      assert b[..|d|][k] == b[k];
    }
    assert n < |d| ==> b[..|d|][n] == b[n];
    IndexOfUnique(b, 0, n);
    assert b[..|d|][..n] == b[..n];
  }

  /** The slot loop of fat32_readdir over the sector in the buffer. */
  method ScanDirSector(dir: DirHandle, buffer: array<byte>, name: array<byte>, ghost ss: seq<Slot>, ghost n: nat)
    returns (outcome: Outcome, isDirectory: bool, size: nat)
    requires dir.lfnName.Length == LFN_SIZE && name != dir.lfnName && name.Length > 0 && !dir.finished
    requires buffer != name && buffer != dir.lfnName && Buffered(buffer[..], ss, n) && dir.entryInSector <= 16
    requires MachineIs(dir.hasLfn, dir.lfnName[..], Held(ss, n + dir.entryInSector))
    modifies dir`hasLfn, dir`finished, dir`entryInSector, dir.lfnName, name
    ensures n + old(dir.entryInSector) <= |ss|
    ensures outcome == Ended <==> dir.finished
    ensures outcome == Ended ==> NextVisible(ss, n + old(dir.entryInSector)) == None
    ensures outcome == FoundHere ==> 0 < dir.entryInSector <= 16
    ensures outcome == FoundHere ==> NextVisible(ss, n + old(dir.entryInSector)) == Some(n + dir.entryInSector - 1)
    ensures outcome == FoundHere ==> CString(name[..]) == Cut(Reported(ss, n + dir.entryInSector - 1), name.Length)
    ensures outcome == FoundHere ==> size == SizeOf(ss[n + dir.entryInSector - 1])
    ensures outcome == FoundHere ==> isDirectory == IsDirectory(ss[n + dir.entryInSector - 1])
    ensures outcome == GoOn ==> dir.entryInSector == 16
    ensures outcome == GoOn ==> NextVisible(ss, n + old(dir.entryInSector)) == NextVisible(ss, n + 16)
    ensures outcome != Ended ==> n + dir.entryInSector <= |ss|
    ensures outcome != Ended ==> MachineIs(dir.hasLfn, dir.lfnName[..], Held(ss, n + dir.entryInSector))
  {
    hide Held, Live, Reported, Cut, CString, MachineIs, SizeOf, IsDirectory;
    ghost var start := n + dir.entryInSector;
    outcome, isDirectory, size := GoOn, false, 0;
    while dir.entryInSector < 16
      invariant dir.entryInSector <= 16 && !dir.finished && Buffered(buffer[..], ss, n)
      invariant MachineIs(dir.hasLfn, dir.lfnName[..], Held(ss, n + dir.entryInSector))
      invariant NextVisible(ss, start) == NextVisible(ss, n + dir.entryInSector)
    {
      var raw := SlotAt(buffer[..], dir.entryInSector);
      ghost var k := n + dir.entryInSector;
      assert raw == ss[k];
      dir.entryInSector := dir.entryInSector + 1;
      outcome := ExamineDirSlot(dir, raw, name, ss, k);
      if outcome == Ended {
        return;
      }
      if outcome == FoundHere {
        isDirectory, size := IsDirectory(raw), SizeOf(raw);
        return;
      }
    }
    outcome := GoOn;
  }

  lemma NextVisibleAtEnd(ss: seq<Slot>)
    ensures NextVisible(ss, |ss|) == None
  {
  }

  /** The move to the next sector, or to the first sector of the next cluster, at the end of a turn of fat32_readdir. */
  method AdvanceSector(fs: Volume, dir: DirHandle, ghost t: Tree, ghost d: nat) returns (r: Status)
    requires DirHere(fs, t, d) && d in t.chains && fs.sectorBuffer != dir.lfnName
    requires dir.On(fs.g, t.chains[d], SlotsHere(fs, t, d)) && !dir.finished && dir.entryInSector == 16
    modifies fs.sectorBuffer, dir
    ensures dir.On(fs.g, t.chains[d], SlotsHere(fs, t, d))
    ensures r == Ok ==> !dir.finished && dir.Position(fs.g) == old(dir.Position(fs.g))
    ensures r == Ok ==> dir.clusterIndex < |t.chains[d]| && dir.sectorInCluster < fs.g.sectorsPerCluster
    ensures r == Ok ==> old(dir.clusterIndex) <= dir.clusterIndex
    ensures r == Ok && old(dir.clusterIndex) == dir.clusterIndex ==> old(dir.sectorInCluster) < dir.sectorInCluster
    ensures r != Ok ==> r == EndOfFile && dir.finished && old(dir.Position(fs.g)) == |SlotsHere(fs, t, d)|
  {
    hide Kept, ViewOf, AllSlots, Shape, Held, MachineIs, SlotIndex;
    ghost var a, n := dir.clusterIndex, dir.Position(fs.g);
    SlotRange(fs.g, a, dir.sectorInCluster, |t.chains[d]|) by { ShapeFacts(fs.g, fs.Now(), t); }
    dir.sectorInCluster := dir.sectorInCluster + 1;
    dir.entryInSector := 0;
    r := Ok;
    if dir.sectorInCluster >= fs.g.sectorsPerCluster {
      dir.sectorInCluster := 0;
      var next;
      r, next := NextDirCluster(fs, dir.cluster, t, d, a);
      if r == EndOfFile {
        dir.finished := true;
        return;
      }
      if r != Ok {
        return;
      }
      dir.cluster := next;
      dir.clusterIndex := a + 1;
    }
  }

  /** fat32_readdir: the live slot that is due, with its name cut to the caller's buffer; END_OF_FILE when none is, and
      from then on. */
  method Readdir(fs: Volume, dir: DirHandle, name: array<byte>, ghost t: Tree, ghost d: nat)
    returns (r: Status, isDirectory: bool, size: nat)
    requires DirHere(fs, t, d) && dir.On(fs.g, t.chains[d], SlotsHere(fs, t, d))
    requires name.Length > 0 && name != dir.lfnName && fs.sectorBuffer != name && fs.sectorBuffer != dir.lfnName
    modifies fs.sectorBuffer, dir, dir.lfnName, name
    ensures dir.On(fs.g, t.chains[d], SlotsHere(fs, t, d))
    ensures r == if old(dir.Due(fs.g, SlotsHere(fs, t, d))).Some? then Ok else EndOfFile
    ensures r == EndOfFile ==> dir.finished
    ensures r == Ok ==> !dir.finished && dir.Position(fs.g) == old(dir.Due(fs.g, SlotsHere(fs, t, d))).value + 1
    ensures r == Ok ==> var ss, j := SlotsHere(fs, t, d), dir.Position(fs.g) - 1;
              && 0 <= j < |ss| && CString(name[..]) == Cut(Reported(ss, j), name.Length)
              && isDirectory == IsDirectory(ss[j]) && size == SizeOf(ss[j])
  {
    hide Kept, ViewOf, AllSlots, Shape, Held, Live, Reported, Cut, CString, MachineIs, SizeOf, IsDirectory, Buffered,
         SlotIndex, NextVisible;
    ghost var ss, ch := SlotsHere(fs, t, d), t.chains[d];
    r, isDirectory, size := EndOfFile, false, 0;
    if dir.finished {
      return;
    }
    ghost var due := dir.Due(fs.g, ss);
    NextVisibleAtEnd(ss);
    while !dir.finished
      invariant dir.On(fs.g, ch, ss) && !dir.finished && dir.Due(fs.g, ss) == due
      decreases |ch| - dir.clusterIndex, fs.g.sectorsPerCluster - dir.sectorInCluster
    {
      var ok := LoadDirSector(fs, dir.cluster, dir.sectorInCluster, t, d, dir.clusterIndex);
      if !ok {
        r := IoError;
        return;
      }
      ghost var n := SlotIndex(fs.g, dir.clusterIndex, dir.sectorInCluster);
      var outcome;
      outcome, isDirectory, size := ScanDirSector(dir, fs.sectorBuffer, name, ss, n);
      if outcome == Ended {
        r := EndOfFile;
        return;
      }
      if outcome == FoundHere {
        r := Ok;
        return;
      }
      r := AdvanceSector(fs, dir, t, d);
      if r != Ok {
        return;
      }
    }
  }

  /** The assignments of fat32_opendir. */
  method Rewind(dir: DirHandle, cluster: nat, ghost g: Geometry, ghost ch: seq<nat>, ghost ss: seq<Slot>)
    requires dir.lfnName.Length == LFN_SIZE && |ch| > 0 && ch[0] == cluster && g.sectorsPerCluster > 0
    modifies dir, dir.lfnName
    ensures !dir.finished && dir.Position(g) == 0 && dir.On(g, ch, ss)
  {
    hide Held, MachineIs;
    dir.cluster := cluster;
    dir.sectorInCluster := 0;
    dir.entryInSector := 0;
    dir.finished := false;
    dir.hasLfn := false;
    dir.clusterIndex := 0;
    ClearString(dir.lfnName);
    SlotStart(g);
    MachineStart(dir.lfnName[..], ss);
  }

  /** fat32_opendir: a handle on the first slot of the directory the path leads to. */
  method OpenDir(fs: Volume, path: Text, dir: DirHandle, ghost t: Tree) returns (r: Status, ghost d: nat)
    requires fs.Ready() && Sound(fs.g, fs.Now(), t) && dir.lfnName.Length == LFN_SIZE && dir.lfnName != fs.sectorBuffer
    modifies fs.sectorBuffer, dir, dir.lfnName
    ensures var m := AllSlots(fs.g, fs.Now(), t); var res := Resolve(m, fs.g.rootCluster, path);
            && r == (if res.Unresolved? then res.status else if DirectoryAt(m, res).Some? then Ok else NotADirectory)
            && (r == Ok ==> DirectoryAt(m, res) == Some(d))
    ensures r != Ok ==> unchanged(dir)
    ensures r == Ok ==> DirHere(fs, t, d) && !dir.finished && dir.Position(fs.g) == 0
    ensures r == Ok ==> dir.On(fs.g, t.chains[d], SlotsHere(fs, t, d))
  {
    hide Kept, ViewOf, AllSlots, Shape, Resolve, SoundIn, Located, DirectoryAt, Held, MachineIs, SlotIndex;
    d := 0;
    ShapeFacts(fs.g, fs.Now(), t);
    var result;
    r, result := ResolvePath(fs, path, t);
    LocatedFacts(fs.g, fs.Now(), t, path, r, result);
    if r != Ok {
      return;
    }
    if !result.directory {
      r := NotADirectory;
      return;
    }
    d := result.cluster;
    Rewind(dir, result.cluster, fs.g, t.chains[d], SlotsHere(fs, t, d));
  }

  /** The names a whole listing delivers. */
  ghost function ListedNames(ss: seq<Slot>, k: nat): (names: seq<seq<byte>>)
    requires k <= |ss|
  {
    var js := Listed(ss, k);
    seq(|js|, a requires 0 <= a < |js| => if js[a] < |ss| then Cut(Reported(ss, js[a]), LFN_SIZE) else [])
  }

  lemma ListedStep(ss: seq<Slot>, k: nat)
    requires k <= |ss|
    ensures NextVisible(ss, k) == None ==> ListedNames(ss, k) == []
    ensures NextVisible(ss, k).Some? ==>
              ListedNames(ss, k) == [Cut(Reported(ss, NextVisible(ss, k).value), LFN_SIZE)]
                                    + ListedNames(ss, NextVisible(ss, k).value + 1)
  {
    hide Cut, Reported, NextVisible;
  }

  /** The loop of the shell's ls: call fat32_readdir until END_OF_FILE. */
  method ListAll(fs: Volume, dir: DirHandle, ghost t: Tree, ghost d: nat) returns (names: seq<Text>)
    requires DirHere(fs, t, d) && dir.On(fs.g, t.chains[d], SlotsHere(fs, t, d))
    requires !dir.finished && dir.Position(fs.g) == 0 && fs.sectorBuffer != dir.lfnName
    modifies fs.sectorBuffer, dir, dir.lfnName
    ensures dir.finished && names == ListedNames(SlotsHere(fs, t, d), 0)
  {
    hide Kept, ViewOf, AllSlots, Shape, Reported, Cut, CString, Listed, NextVisible, SlotIndex;
    ghost var ss := SlotsHere(fs, t, d);
    names := [];
    while true
      invariant dir.On(fs.g, t.chains[d], ss) && !dir.finished && dir.Position(fs.g) <= |ss|
      invariant names + ListedNames(ss, dir.Position(fs.g)) == ListedNames(ss, 0)
      decreases |ss| - dir.Position(fs.g)
    {
      ListedStep(ss, dir.Position(fs.g));
      var name := new byte[LFN_SIZE];
      var r, isDirectory, size := Readdir(fs, dir, name, t, d);
      if r == EndOfFile {
        break;
      }
      if r != Ok {
        return;
      }
      names := names + [CString(name[..])];
    }
  }
}
