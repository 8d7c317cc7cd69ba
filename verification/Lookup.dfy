/** fat32_find_in_directory. */
module Lookup {
  import opened Bytes
  import opened Volumes
  import opened Slots
  import opened Names83
  import opened LongNames
  import opened Trees
  import opened DirScan

  /** The variables lfn_name and collecting_lfn hold what the machine holds. */
  ghost predicate MachineIs(collecting: bool, buffer: seq<byte>, held: Option<NameBuffer>) {
    if collecting then held == Some(buffer) else held == None
  }

  lemma {:induction false} HeldTerminated(ss: seq<Slot>, i: nat)
    requires i <= |ss|
    ensures Held(ss, i).Some? ==> Held(ss, i).value[255] == 0
  {
    if i > 0 {
      HeldTerminated(ss, i - 1);
      var s := ss[i - 1];
      if Sequence(s) != 0 {
        LaidTerminated(Zeros(256), s, 13 * (Sequence(s) - 1), 13);
        if Held(ss, i - 1).Some? {
          LaidTerminated(Held(ss, i - 1).value, s, 13 * (Sequence(s) - 1), 13);
        }
      }
    }
  }

  lemma {:induction false} LaidTerminated(buffer: NameBuffer, s: Slot, base: int, n: nat)
    requires n <= 13
    ensures Laid(buffer, 255, s, base, n)[255] == buffer[255]
  {
    if n > 0 {
      LaidTerminated(buffer, s, base, n - 1);
    }
  }

  /** The comparison loop of fat32_find_in_directory. */
  method EqualNames(name: Text, lfn: array<byte>) returns (equal: bool)
    requires lfn.Length == LFN_SIZE && lfn[255] == 0
    ensures equal <==> EqualFold(name, CString(lfn[..]))
  {
    var j := 0;
    while j < |name| && lfn[j] != 0
      invariant 0 <= j <= |name| && j <= 255
      invariant forall k | 0 <= k < j :: lfn[k] != 0 && Lower(name[k]) == Lower(lfn[k])
    {
      var a, b := name[j], lfn[j];
      if 65 <= a <= 90 {
        a := a + 32;
      }
      if 65 <= b <= 90 {
        b := b + 32;
      }
      if a != b {
        NotEqualAt(name, lfn[..], j);
        return false;
      }
      j := j + 1;
    }
    if j < |name| || lfn[j] == 0 {
      IndexOfUnique(lfn[..], 0, j) by { assert lfn[j] == 0; }
    } else {
      LongerString(lfn[..], j);
    }
    return j == |name| && lfn[j] == 0;
  }

  lemma NotEqualAt(name: Text, b: seq<byte>, j: nat)
    requires j < |name| && j < |b| && (forall k | 0 <= k <= j :: b[k] != 0) && Lower(name[j]) != Lower(b[j])
    ensures !EqualFold(name, CString(b))
  {
    LongerString(b, j);
  }

  lemma LongerString(b: seq<byte>, j: nat)
    requires j < |b| && forall k | 0 <= k <= j :: b[k] != 0
    ensures |CString(b)| > j && CString(b)[j] == b[j]
  {
  }

  datatype Outcome = Ended | FoundHere | GoOn

  /** One turn of the slot loop of fat32_find_in_directory. */
  method ExamineSlot(s: Slot, lfn: array<byte>, collecting: bool, name: Text, targetIs83: bool, target: seq<byte>,
                     ghost ss: seq<Slot>, ghost k: nat)
    returns (outcome: Outcome, collecting': bool)
    requires lfn.Length == LFN_SIZE && k < |ss| && ss[k] == s && MachineIs(collecting, lfn[..], Held(ss, k))
    requires (targetIs83 <==> Accepted(name)) && (targetIs83 ==> target == Encode(name))
    modifies lfn
    ensures outcome == Ended ==> s[0] == 0
    ensures outcome == FoundHere ==> s[0] != 0 && Used(s) && Matches(ss, k, name)
    ensures outcome == GoOn ==> s[0] != 0 && !(Used(s) && Matches(ss, k, name))
    ensures outcome == GoOn ==> MachineIs(collecting', lfn[..], Held(ss, k + 1))
  {
    hide WithFragment, Encode, Accepted, EqualFold;
    collecting' := collecting;
    HeldTerminated(ss, k);
    if s[0] == 0x00 {
      return Ended, collecting';
    }
    if s[0] == DELETED {
      return GoOn, false;
    }
    var attributes := s[11];
    if attributes == ATTR_LFN {
      if HasBit(s[0], LFN_LAST) {
        collecting' := true;
        var j := 0;
        while j < LFN_SIZE
          invariant 0 <= j <= LFN_SIZE && forall i | 0 <= i < j :: lfn[i] == 0
        {
          lfn[j] := 0;
          j := j + 1;
        }
        assert lfn[..] == Zeros(256);
      }
      if !collecting' {
        return GoOn, collecting';
      }
      InlinedFragment(lfn, s);
      return GoOn, collecting';
    }
    if HasBit(attributes, ATTR_VOLUME_ID) {
      return GoOn, false;
    }
    var matches := false;
    if collecting' {
      lfn[LFN_SIZE - 1] := 0;
      assert lfn[..] == old(lfn[..]);
      matches := EqualNames(name, lfn);
    }
    if !matches && targetIs83 {
      matches := NameOf(s) == target;
    }
    collecting' := false;
    outcome := if matches then FoundHere else GoOn;
  }

  /** The slot loop over one sector. */
  method ScanNames(buffer: array<byte>, lfn: array<byte>, collecting: bool, name: Text, targetIs83: bool, target: seq<byte>,
                   ghost ss: seq<Slot>, ghost n: nat)
    returns (outcome: Outcome, i: nat, collecting': bool)
    requires lfn.Length == LFN_SIZE && buffer != lfn && Buffered(buffer[..], ss, n)
    requires MachineIs(collecting, lfn[..], Held(ss, n)) && Find(ss, name, 0) == Find(ss, name, n)
    requires (targetIs83 <==> Accepted(name)) && (targetIs83 ==> target == Encode(name))
    modifies lfn
    ensures outcome == Ended ==> Find(ss, name, 0) == None
    ensures outcome == FoundHere ==> i < 16 && Find(ss, name, 0) == Some(n + i) && SlotAt(buffer[..], i) == ss[n + i]
    ensures outcome == GoOn ==> MachineIs(collecting', lfn[..], Held(ss, n + 16)) && Find(ss, name, 0) == Find(ss, name, n + 16)
  {
    hide Encode, Accepted, AfterSlot, Used, Matches, Held;
    i := 0;
    collecting' := collecting;
    while i < 16
      invariant 0 <= i <= 16 && Buffered(buffer[..], ss, n)
      invariant MachineIs(collecting', lfn[..], Held(ss, n + i)) && Find(ss, name, 0) == Find(ss, name, n + i)
    {
      var raw := SlotAt(buffer[..], i);
      outcome, collecting' := ExamineSlot(raw, lfn, collecting', name, targetIs83, target, ss, n + i);
      if outcome != GoOn {
        return;
      }
      i := i + 1;
    }
    outcome := GoOn;
  }

  /** The sector loop of fat32_find_in_directory over one cluster. */
  method FindInCluster(fs: Volume, current: nat, index: nat, lfn: array<byte>, collecting: bool, name: Text, targetIs83: bool,
                       target: seq<byte>, ghost t: Tree, ghost d: nat, ghost a: nat, ghost ss: seq<Slot>, ghost n: nat)
    returns (outcome: Outcome, s: Slot, index': nat, collecting': bool, ghost i: nat)
    requires DirHere(fs, t, d) && d in t.chains && a < |t.chains[d]| && current == t.chains[d][a]
    requires ss == SlotsHere(fs, t, d)
    requires lfn.Length == LFN_SIZE && fs.sectorBuffer != lfn && n == SlotIndex(fs.g, a, 0) <= |ss|
    requires MachineIs(collecting, lfn[..], Held(ss, n)) && index == Wrap32(n)
    requires Find(ss, name, 0) == Find(ss, name, n)
    requires (targetIs83 <==> Accepted(name)) && (targetIs83 ==> target == Encode(name))
    modifies lfn, fs.sectorBuffer
    ensures index' == Wrap32(i)
    ensures outcome == Ended ==> Find(ss, name, 0) == None
    ensures outcome == FoundHere ==> Find(ss, name, 0) == Some(i) && s == ss[i]
    ensures outcome == GoOn ==> i == SlotIndex(fs.g, a, fs.g.sectorsPerCluster) <= |ss|
    ensures outcome == GoOn ==> MachineIs(collecting', lfn[..], Held(ss, i))
    ensures outcome == GoOn ==> Find(ss, name, 0) == Find(ss, name, i)
  {
    hide Kept, ViewOf, AllSlots, Shape, Buffered, SlotIndex, Held, Find, Encode, Accepted, MachineIs, Wrap32;
    ShapeFacts(fs.g, fs.Now(), t);
    s, index', i, collecting' := Zeros(32), index, n, collecting;
    var sector := 0;
    while sector < fs.g.sectorsPerCluster
      invariant 0 <= sector <= fs.g.sectorsPerCluster && i == SlotIndex(fs.g, a, sector) <= |ss| && index' == Wrap32(i)
      invariant MachineIs(collecting', lfn[..], Held(ss, i)) && Find(ss, name, 0) == Find(ss, name, i)
    {
      SlotRange(fs.g, a, sector, |t.chains[d]|);
      var ok := LoadDirSector(fs, current, sector, t, d, a);
      var k;
      outcome, k, collecting' := ScanNames(fs.sectorBuffer, lfn, collecting', name, targetIs83, target, ss, i);
      if outcome == Ended {
        return;
      }
      if outcome == FoundHere {
        BufferedLength(fs.sectorBuffer[..], ss, i);
        WrapAdd(i, k);
        return FoundHere, SlotAt(fs.sectorBuffer[..], k), Wrap32(index' + k), collecting', i + k;
      }
      WrapAdd(i, 16);
      index' := Wrap32(index' + 16);
      i := i + 16;
      sector := sector + 1;
    }
    outcome := GoOn;
  }

  lemma BufferedLength(buffer: seq<byte>, ss: seq<Slot>, n: nat)
    requires Buffered(buffer, ss, n)
    ensures |buffer| == 512 && n + 16 <= |ss|
  {
  }

  /** fat32_find_in_directory: the fields of the slot Find names, and its running index in 32-bit arithmetic, or NotFound. */
  method FindInDirectory(fs: Volume, directoryCluster: nat, name: Text, ghost t: Tree)
    returns (r: Status, cluster: nat, size: nat, isDirectory: bool, entryIndex: nat, ghost j: nat)
    requires DirHere(fs, t, directoryCluster)
    modifies fs.sectorBuffer
    ensures r == if Find(SlotsHere(fs, t, directoryCluster), name, 0).Some? then Ok else NotFound
    ensures r == Ok ==> Find(SlotsHere(fs, t, directoryCluster), name, 0) == Some(j) && entryIndex == Wrap32(j)
    ensures r == Ok ==> var s := SlotsHere(fs, t, directoryCluster)[j];
              cluster == ClusterOf(s) && size == SizeOf(s) && isDirectory == IsDirectory(s)
  {
    hide Kept, ViewOf, AllSlots, Shape, Buffered, SlotIndex, Held, Encode, Accepted, ClusterOf, SizeOf, MachineIs,
         IsDirectory, Find, Wrap32;
    ghost var d := directoryCluster;
    ghost var ss := SlotsHere(fs, t, d);
    ShapeFacts(fs.g, fs.Now(), t);
    r, cluster, size, isDirectory, entryIndex, j := NotFound, 0, 0, false, 0, 0;
    var targetIs83, targetName := MakeName83(name);
    var target := targetName[..];
    var current := directoryCluster;
    var lfn := new byte[LFN_SIZE];
    var collecting := false;
    ghost var a := 0;
    SlotStart(fs.g);
    MachineStart(lfn[..], ss);
    while true
      invariant a < |t.chains[d]| && current == t.chains[d][a] && j == SlotIndex(fs.g, a, 0) <= |ss| && entryIndex == Wrap32(j)
      invariant MachineIs(collecting, lfn[..], Held(ss, j)) && Find(ss, name, 0) == Find(ss, name, j)
      decreases |t.chains[d]| - a
    {
      var outcome, s;
      outcome, s, entryIndex, collecting, j :=
        FindInCluster(fs, current, entryIndex, lfn, collecting, name, targetIs83, target, t, d, a, ss, j);
      if outcome == Ended {
        r := NotFound;
        return;
      }
      if outcome == FoundHere {
        return Ok, ClusterOf(s), SizeOf(s), IsDirectory(s), entryIndex, j;
      }
      var next;
      r, next := NextDirCluster(fs, current, t, d, a);
      if r == EndOfFile {
        FindAtEnd(ss, name);
        r := NotFound;
        return;
      }
      if r != Ok {
        return;
      }
      current := next;
      a := a + 1;
    }
  }

  lemma MachineStart(buffer: seq<byte>, ss: seq<Slot>)
    ensures MachineIs(false, buffer, Held(ss, 0))
  {
  }

  lemma FindAtEnd(ss: seq<Slot>, name: Text)
    ensures Find(ss, name, |ss|) == None
  {
  }
}
