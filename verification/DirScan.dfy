/** The loops that walk a directory's clusters, sectors and slots. */
module DirScan {
  import opened Bytes
  import opened Geometry
  import opened Volumes
  import opened Chains
  import opened Allocation
  import opened Contents
  import opened FileRead
  import opened Slots
  import opened Trees

  ghost predicate DirHere(fs: Volume, t: Tree, d: nat)
    reads fs, fs.device
  {
    fs.Ready() && Shape(fs.g, fs.Now(), t) && d in t.dirs
  }

  ghost function SlotsHere(fs: Volume, t: Tree, d: nat): (ss: seq<Slot>)
    requires DirHere(fs, t, d)
    reads fs, fs.device
    ensures d in t.chains && |ss| == 16 * Sectors(fs.g, |t.chains[d]|)
  {
    AllSlots(fs.g, fs.Now(), t)[d]
  }

  /** The index of the first slot in sector s of the a-th cluster of a directory. */
  function SlotIndex(g: Geometry, a: nat, s: nat): nat {
    16 * (Times(a, g.sectorsPerCluster) + s)
  }

  /** The sixteen slots in the buffer are those of the directory from index n on. */
  predicate Buffered(buffer: seq<byte>, ss: seq<Slot>, n: nat) {
    |buffer| == 512 && n + 16 <= |ss| && forall i: nat | i < 16 :: SlotAt(buffer, i) == ss[n + i]
  }

  lemma SectorSlots(g: Geometry, v: View, t: Tree, d: nat, a: nat, s: nat)
    requires Shape(g, v, t) && d in t.dirs && d in t.chains && a < |t.chains[d]| && s < g.sectorsPerCluster
    ensures g.InRange(t.chains[d][a])
    ensures Buffered(v.data[DataIndex(g, t.chains[d][a], s)], AllSlots(g, v, t)[d], SlotIndex(g, a, s))
  {
    hide ChainBytes, IsChain;
    var ch := t.chains[d];
    var k := Times(a, g.sectorsPerCluster) + s;
    ChainPlaced(g, v, ch) by { assert IsChain(v.fat, ch); ChainIsPath(v.fat, ch); }
    TimesLess(g.sectorsPerCluster, a, s, |ch|);
    QuotRemUnique(k, g.sectorsPerCluster, a, s);
    ChainSectorOf(g, ch, k);
    ChainBytesSector(g, v, ch, k);
    SectorBuffered(ChainBytes(g, v, ch), k);
  }

  lemma SectorBuffered(b: seq<byte>, k: nat)
    requires 512 * k + 512 <= |b|
    ensures Buffered(b[512 * k..512 * k + 512], SlotsOf(b), 16 * k)
  {
    var sector, ss, n := b[512 * k..512 * k + 512], SlotsOf(b), 16 * k;
    forall i: nat | i < 16 ensures SlotAt(sector, i) == ss[n + i] {
      SliceOfSlice(b, 512 * k, 512, 32 * i, 32);
      assert 512 * k + 32 * i == 32 * (16 * k + i);
    }
  }

  lemma ChainIsPath(fat: seq<nat>, ch: seq<nat>)
    requires IsChain(fat, ch)
    ensures IsPath(fat, ch)
  {
  }

  /** Read one sector of a directory. */
  method LoadDirSector(fs: Volume, cluster: nat, sector: nat, ghost t: Tree, ghost d: nat, ghost a: nat) returns (ok: bool)
    requires DirHere(fs, t, d) && d in t.chains && a < |t.chains[d]| && cluster == t.chains[d][a]
    requires sector < fs.g.sectorsPerCluster
    modifies fs.sectorBuffer
    ensures ok && Buffered(fs.sectorBuffer[..], SlotsHere(fs, t, d), SlotIndex(fs.g, a, sector))
  {
    hide Kept, ViewOf, AllSlots, Shape, Buffered;
    SectorSlots(fs.g, fs.Now(), t, d, a, sector);
    var lba := ClusterToLba(fs.g, cluster);
    ok := ReadDataSector(fs, lba + sector, cluster, sector);
  }

  /** From the a-th cluster of a directory to the next; EndOfFile behind the last. */
  method NextDirCluster(fs: Volume, cluster: nat, ghost t: Tree, ghost d: nat, ghost a: nat) returns (r: Status, next: nat)
    requires DirHere(fs, t, d) && d in t.chains && a < |t.chains[d]| && cluster == t.chains[d][a]
    modifies fs.sectorBuffer
    ensures if a + 1 < |t.chains[d]| then r == Ok && next == t.chains[d][a + 1]
            else r == EndOfFile && |SlotsHere(fs, t, d)| == SlotIndex(fs.g, a + 1, 0)
    ensures SlotIndex(fs.g, a + 1, 0) == SlotIndex(fs.g, a, fs.g.sectorsPerCluster) <= |SlotsHere(fs, t, d)|
  {
    hide Kept, ViewOf, AllSlots;
    PathStep(fs.Now().fat, t.chains[d], a);
    SlotRange(fs.g, a, fs.g.sectorsPerCluster, |t.chains[d]|);
    r, next := NextCluster(fs, cluster);
  }

  lemma SlotRange(g: Geometry, a: nat, s: nat, n: nat)
    requires g.Valid() && a < n && s <= g.sectorsPerCluster
    ensures SlotIndex(g, a, s) <= 16 * Sectors(g, n)
    ensures s < g.sectorsPerCluster ==> SlotIndex(g, a, s) + 16 <= 16 * Sectors(g, n)
    ensures SlotIndex(g, a, s + 1) == SlotIndex(g, a, s) + 16
    ensures SlotIndex(g, a + 1, 0) == SlotIndex(g, a, g.sectorsPerCluster)
  {
    TimesLess(g.sectorsPerCluster, a, g.sectorsPerCluster - 1, n);
  }

  // ---------------------------------------------------------------- a free slot

  method ScanFree(buffer: array<byte>, ghost ss: seq<Slot>, ghost n: nat) returns (found: bool, i: nat)
    requires Buffered(buffer[..], ss, n)
    ensures i <= 16 && forall j | n <= j < n + i :: !IsFree(ss[j])
    ensures if found then i < 16 && IsFree(ss[n + i]) else i == 16
  {
    i := 0;
    while i < 16
      invariant 0 <= i <= 16 && forall j | n <= j < n + i :: !IsFree(ss[j])
    {
      var firstByte := buffer[i * 32];
      assert SlotAt(buffer[..], i)[0] == buffer[i * 32];
      if firstByte == 0x00 || firstByte == DELETED {
        return true, i;
      }
      i := i + 1;
    }
    return false, i;
  }

  /** fat32_find_free_directory_entry: the lowest free slot, by its running index in 32-bit arithmetic; failure means the
      directory is full. */
  method FindFreeEntry(fs: Volume, directoryCluster: nat, ghost t: Tree) returns (r: Status, entryIndex: nat, ghost j: nat)
    requires DirHere(fs, t, directoryCluster)
    modifies fs.sectorBuffer
    ensures r == Ok ==> FirstFree(SlotsHere(fs, t, directoryCluster), j) && entryIndex == Wrap32(j)
    ensures r != Ok ==> r == Error && forall j | 0 <= j < |SlotsHere(fs, t, directoryCluster)| ::
                          !IsFree(SlotsHere(fs, t, directoryCluster)[j])
  {
    hide Kept, ViewOf, AllSlots, Shape, Buffered, IsFree, SlotIndex, Wrap32;
    ghost var d := directoryCluster;
    ghost var ss := SlotsHere(fs, t, d);
    ShapeFacts(fs.g, fs.Now(), t);
    entryIndex, j := 0, 0;
    if directoryCluster < 2 || directoryCluster > fs.g.totalClusters + 1 {
      r := Error;
      return;
    }
    var cluster := directoryCluster;
    var globalEntryIndex := 0;
    ghost var a := 0;
    SlotStart(fs.g);
    while true
      invariant a < |t.chains[d]| && cluster == t.chains[d][a] && j == SlotIndex(fs.g, a, 0)
      invariant globalEntryIndex == Wrap32(j) && j <= |ss| && forall k | 0 <= k < j :: !IsFree(ss[k])
      decreases |t.chains[d]| - a
    {
      var sectorInCluster := 0;
      while sectorInCluster < fs.g.sectorsPerCluster
        invariant 0 <= sectorInCluster <= fs.g.sectorsPerCluster
        invariant j == SlotIndex(fs.g, a, sectorInCluster) <= |ss| && globalEntryIndex == Wrap32(j)
        invariant forall k | 0 <= k < j :: !IsFree(ss[k])
      {
        SlotRange(fs.g, a, sectorInCluster, |t.chains[d]|);
        var ok := LoadDirSector(fs, cluster, sectorInCluster, t, d, a);
        if !ok {
          r := IoError;
          return;
        }
        var found, i := ScanFree(fs.sectorBuffer, ss, j);
        if found {
          WrapAdd(j, i);
          return Ok, Wrap32(globalEntryIndex + i), j + i;
        }
        WrapAdd(j, 16);
        globalEntryIndex := Wrap32(globalEntryIndex + 16);
        j := j + 16;
        sectorInCluster := sectorInCluster + 1;
      }
      var next;
      r, next := NextDirCluster(fs, cluster, t, d, a);
      if r == EndOfFile {
        r := Error;
        return;
      }
      if r != Ok {
        return;
      }
      cluster := next;
      a := a + 1;
    }
  }

  lemma SlotStart(g: Geometry)
    ensures SlotIndex(g, 0, 0) == 0
  {
  }
}
