/** fat32_directory_is_empty, and what it takes for its answer to be right. */
module EmptyDirs {
  import opened Bytes
  import opened Volumes
  import opened Slots
  import opened Trees
  import opened DirScan
  import opened NameMaps
  import opened Listing

  /** The slots fat32_directory_is_empty passes over. */
  predicate Ignored(s: Slot) {
    IsFree(s) || IsLong(s) || (s[0] == DOT && (s[1] == SPACE || s[1] == DOT))
  }

  /** The first never-used slot from k on, where every scan of the directory ends. */
  function EndFrom(ss: seq<Slot>, k: nat): (e: nat)
    requires k <= |ss|
    ensures k <= e <= |ss| && (e < |ss| ==> ss[e][0] == 0) && forall i | k <= i < e :: ss[i][0] != 0
    decreases |ss| - k
  {
    if k == |ss| || ss[k][0] == 0 then k else EndFrom(ss, k + 1)
  }

  /** The slots before the end of the directory. */
  function Front(ss: seq<Slot>): seq<Slot> {
    ss[..EndFrom(ss, 0)]
  }

  /** The answer of fat32_directory_is_empty. */
  ghost predicate LooksEmpty(ss: seq<Slot>) {
    forall i | 0 <= i < |Front(ss)| :: Ignored(ss[i])
  }

  ghost predicate NoLive(ss: seq<Slot>) {
    forall i | 0 <= i < |ss| :: !Live(ss[i])
  }

  /** No slot in use is a volume label. */
  ghost predicate NoLabels(ss: seq<Slot>) {
    forall i | 0 <= i < |ss| && !IsFree(ss[i]) :: IsLong(ss[i]) || !IsLabel(ss[i])
  }

  predicate TwoDots(s: Slot) {
    s[0] == DOT && s[1] == DOT
  }

  /** A volume label the scan takes for content. */
  predicate CountedLabel(s: Slot) {
    IsLabel(s) && !IsLong(s) && !IsFree(s) && !(s[0] == DOT && (s[1] == SPACE || s[1] == DOT))
  }

  /** A slot is passed over although live exactly if its short name begins with two dots, and counts although not live
      exactly if it is a label. */
  lemma IgnoredLive(s: Slot)
    ensures Ignored(s) && Live(s) <==> Live(s) && TwoDots(s)
    ensures !Ignored(s) && !Live(s) <==> CountedLabel(s)
  {
  }

  /** Behind the last slot in use there is nothing live. */
  lemma FrontLive(ss: seq<Slot>)
    requires TailUnused(ss)
    ensures NoLive(ss) <==> NoLive(Front(ss))
  {
    hide IsLong, IsLabel, IsDot;
  }

  lemma {:induction false} FrontVisible(ss: seq<Slot>, k: nat)
    requires k <= |ss|
    ensures NextVisible(ss, k) == None <==> forall i | k <= i < EndFrom(ss, k) :: !Live(ss[i])
    decreases |ss| - k
  {
    hide Live;
    if k < |ss| && ss[k][0] != 0 {
      FrontVisible(ss, k + 1);
    }
  }

  /** Something live is there that does not begin with two dots. */
  ghost predicate OrdinaryLive(ss: seq<Slot>) {
    exists i :: 0 <= i < |ss| && Live(ss[i]) && !TwoDots(ss[i])
  }

  ghost predicate TwoDotsLive(ss: seq<Slot>) {
    exists i :: 0 <= i < |ss| && Live(ss[i]) && TwoDots(ss[i])
  }

  ghost predicate Labelled(ss: seq<Slot>) {
    exists i :: 0 <= i < |ss| && CountedLabel(ss[i])
  }

  /** The answer on any directory: yes if and only if nothing counts, that is no live name without two dots and no label. */
  lemma LooksEmptyWhen(ss: seq<Slot>)
    ensures LooksEmpty(ss) <==> !OrdinaryLive(Front(ss)) && !Labelled(Front(ss))
    ensures NoLive(Front(ss)) <==> !OrdinaryLive(Front(ss)) && !TwoDotsLive(Front(ss))
  {
    hide Ignored, Live, CountedLabel, TwoDots;
    forall i | 0 <= i < |Front(ss)|
      ensures Ignored(ss[i]) <==> !(Live(ss[i]) && !TwoDots(ss[i])) && !CountedLabel(ss[i])
    {
      IgnoredLive(ss[i]);
    }
    if !LooksEmpty(ss) {
      var i :| 0 <= i < |Front(ss)| && !Ignored(ss[i]);
      assert Front(ss)[i] == ss[i];
    }
    if !NoLive(Front(ss)) {
      var i :| 0 <= i < |Front(ss)| && Live(Front(ss)[i]);
      assert TwoDots(Front(ss)[i]) || !TwoDots(Front(ss)[i]);
    }
  }

  /** When the answer is right: if something is live whose name does not begin with two dots (and the answer is no), or
      else if a label is in use exactly when there is a name with two dots. */
  lemma LooksEmptyIsRight(ss: seq<Slot>)
    ensures (LooksEmpty(ss) <==> NextVisible(ss, 0) == None)
       <==> OrdinaryLive(Front(ss)) || (Labelled(Front(ss)) <==> TwoDotsLive(Front(ss)))
    ensures NextVisible(ss, 0) == None <==> NoLive(Front(ss))
  {
    hide Live, TwoDots, CountedLabel, OrdinaryLive, TwoDotsLive, Labelled, LooksEmpty;
    LooksEmptyWhen(ss);
    FrontVisible(ss, 0);
  }

  /** Where no live name starts with a dot and no label is in use, a directory looks empty exactly if nothing in it is
      live, and exactly if the first fat32_readdir on it reports END_OF_FILE. */
  lemma EmptyMeans(ss: seq<Slot>)
    requires TailUnused(ss) && PlainDots(ss) && NoLabels(ss)
    ensures LooksEmpty(ss) <==> NoLive(ss)
    ensures NoLive(ss) <==> NextVisible(ss, 0) == None
  {
    hide Live, IsLong, IsLabel, IsFree, TailUnused, LooksEmpty;
    LooksEmptyIsRight(ss);
    FrontLive(ss);
    assert !TwoDotsLive(Front(ss)) && !Labelled(Front(ss));
  }

  function Entry(name: Name83, attributes: byte): Slot {
    EntrySlot(name, attributes, 0, 0)
  }

  lemma EntryIs(name: Name83, attributes: byte)
    ensures var s := Entry(name, attributes); s[0] == name[0] && s[1] == name[1] && s[2] == name[2] && s[11] == attributes
  {
    EntrySlotFields(name, attributes, 0, 0);
    var s := Entry(name, attributes);
    assert s[..11] == name;
    assert s[0] == s[..11][0] && s[1] == s[..11][1] && s[2] == s[..11][2];
  }

  /** An empty answer for a directory that holds a file: fat32_directory_is_empty passes over a file called "..A". Beside
      a file called "B" it does no harm. */
  lemma PassedOver() returns (s: Slot, b: Slot)
    ensures Live(s) && LooksEmpty([s]) && !NoLive([s])
    ensures Live(b) && !LooksEmpty([s, b]) && !NoLive([s, b])
  {
    hide EntrySlot;
    var name: Name83 := [DOT, DOT, 65] + seq(8, i => SPACE);
    var other: Name83 := [66] + seq(10, i => SPACE);
    s, b := Entry(name, ATTR_ARCHIVE), Entry(other, ATTR_ARCHIVE);
    EntryIs(name, ATTR_ARCHIVE);
    EntryIs(other, ATTR_ARCHIVE);
    assert EndFrom([s, b], 1) == 2;
    assert [s][0] == s && [s, b][0] == s && [s, b][1] == b;
  }

  /** And the other way round: a directory with nothing but a volume label in it is called not empty. */
  lemma LabelCounts() returns (s: Slot)
    ensures !LooksEmpty([s]) && NoLive([s]) && NextVisible([s], 0) == None
  {
    hide EntrySlot;
    var name: Name83 := [65] + seq(10, i => SPACE);
    s := Entry(name, ATTR_VOLUME_ID);
    EntryIs(name, ATTR_VOLUME_ID);
    assert [s][0] == s;
  }

  /** The slot loop of fat32_directory_is_empty. */
  method ScanContent(buffer: array<byte>, ghost ss: seq<Slot>, ghost n: nat) returns (ended: bool, content: bool)
    requires Buffered(buffer[..], ss, n)
    ensures ended ==> EndFrom(ss, n) < n + 16 && forall j | n <= j < EndFrom(ss, n) :: Ignored(ss[j])
    ensures content ==> exists j :: n <= j < EndFrom(ss, n) && !Ignored(ss[j])
    ensures !ended && !content ==> EndFrom(ss, n) == EndFrom(ss, n + 16) && forall j | n <= j < n + 16 :: Ignored(ss[j])
  {
    hide IsLong;
    ended, content := false, false;
    var i := 0;
    while i < 16
      invariant 0 <= i <= 16 && EndFrom(ss, n) == EndFrom(ss, n + i)
      invariant forall j | n <= j < n + i :: Ignored(ss[j])
    {
      var offset := i * 32;
      var firstByte := buffer[offset];
      ghost var k := n + i;
      assert SlotAt(buffer[..], i) == ss[k] && ss[k][0] == buffer[offset];
      if firstByte == 0x00 {
        ended := true;
        return;
      }
      var attributes := buffer[offset + 11];
      assert ss[k][11] == buffer[offset + 11] && ss[k][1] == buffer[offset + 1];
      if firstByte == DELETED || attributes == ATTR_LFN {
        IgnoredWhen(ss[k]);
        i := i + 1;
        continue;
      }
      if firstByte == DOT && (buffer[offset + 1] == SPACE || buffer[offset + 1] == DOT) {
        i := i + 1;
        continue;
      }
      IgnoredWhen(ss[k]);
      content := true;
      return;
    }
  }

  lemma IgnoredWhen(s: Slot)
    ensures Ignored(s) <==> IsFree(s) || s[11] == ATTR_LFN || (s[0] == DOT && (s[1] == SPACE || s[1] == DOT))
  {
  }

  lemma EmptyThrough(ss: seq<Slot>, k: nat)
    requires k <= |ss| && EndFrom(ss, 0) == EndFrom(ss, k) && forall j | 0 <= j < EndFrom(ss, k) :: Ignored(ss[j])
    ensures LooksEmpty(ss)
  {
    hide Ignored;
  }

  lemma NotEmptyFrom(ss: seq<Slot>, k: nat)
    requires k <= |ss| && EndFrom(ss, 0) == EndFrom(ss, k) && exists j :: k <= j < EndFrom(ss, k) && !Ignored(ss[j])
    ensures !LooksEmpty(ss)
  {
    hide Ignored;
  }

  /** fat32_directory_is_empty. */
  method DirectoryIsEmpty(fs: Volume, directoryCluster: nat, ghost t: Tree) returns (r: Status, empty: bool)
    requires DirHere(fs, t, directoryCluster)
    modifies fs.sectorBuffer
    ensures r == Ok && (empty <==> LooksEmpty(SlotsHere(fs, t, directoryCluster)))
  {
    hide Kept, ViewOf, AllSlots, Shape, Buffered, Ignored, SlotIndex, LooksEmpty, EndFrom;
    ghost var d := directoryCluster;
    ghost var ss := SlotsHere(fs, t, d);
    ShapeFacts(fs.g, fs.Now(), t);
    empty := false;
    if directoryCluster < 2 || directoryCluster > fs.g.totalClusters + 1 {
      r := Error;
      return;
    }
    var cluster := directoryCluster;
    ghost var a := 0;
    SlotStart(fs.g);
    while true
      invariant a < |t.chains[d]| && cluster == t.chains[d][a] && SlotIndex(fs.g, a, 0) <= |ss|
      invariant EndFrom(ss, 0) == EndFrom(ss, SlotIndex(fs.g, a, 0))
      invariant forall j | 0 <= j < SlotIndex(fs.g, a, 0) :: Ignored(ss[j])
      decreases |t.chains[d]| - a
    {
      var sectorInCluster := 0;
      while sectorInCluster < fs.g.sectorsPerCluster
        invariant 0 <= sectorInCluster <= fs.g.sectorsPerCluster && SlotIndex(fs.g, a, sectorInCluster) <= |ss|
        invariant EndFrom(ss, 0) == EndFrom(ss, SlotIndex(fs.g, a, sectorInCluster))
        invariant forall j | 0 <= j < SlotIndex(fs.g, a, sectorInCluster) :: Ignored(ss[j])
      {
        SlotRange(fs.g, a, sectorInCluster, |t.chains[d]|);
        var ok := LoadDirSector(fs, cluster, sectorInCluster, t, d, a);
        if !ok {
          r := IoError;
          return;
        }
        var ended, content := ScanContent(fs.sectorBuffer, ss, SlotIndex(fs.g, a, sectorInCluster));
        if ended {
          EmptyThrough(ss, SlotIndex(fs.g, a, sectorInCluster));
          return Ok, true;
        }
        if content {
          NotEmptyFrom(ss, SlotIndex(fs.g, a, sectorInCluster));
          return Ok, false;
        }
        sectorInCluster := sectorInCluster + 1;
      }
      var next;
      r, next := NextDirCluster(fs, cluster, t, d, a);
      if r == EndOfFile {
        EmptyThrough(ss, |ss|);
        return Ok, true;
      }
      if r != Ok {
        return;
      }
      cluster := next;
      a := a + 1;
    }
  }
}
