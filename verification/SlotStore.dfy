/** Rewriting one directory slot on the disk: the addressing they share, and the four kinds of rewrite. */
module SlotStore {
  import opened Bytes
  import opened Geometry
  import opened Volumes
  import opened Chains
  import opened Allocation
  import opened Contents
  import opened FileRead
  import opened Slots
  import opened Trees
  import opened TreeSteps

  ghost predicate SlotExists(fs: Volume, t: Tree, d: nat, i: nat)
    reads fs, fs.device
  {
    fs.Ready() && Shape(fs.g, fs.Now(), t) && d in t.dirs && i < |AllSlots(fs.g, fs.Now(), t)[d]|
  }

  ghost function SlotNow(fs: Volume, t: Tree, d: nat, i: nat): Slot
    requires SlotExists(fs, t, d, i)
    reads fs, fs.device
  {
    AllSlots(fs.g, fs.Now(), t)[d][i]
  }

  lemma SlotChain(g: Geometry, v: View, t: Tree, d: nat, i: nat)
    requires Shape(g, v, t) && d in t.dirs && i < |AllSlots(g, v, t)[d]|
    ensures d in t.chains && IsChain(v.fat, t.chains[d]) && t.chains[d][0] == d && g.InRange(d)
    ensures Placed(g, t.chains[d]) && i < 16 * Sectors(g, |t.chains[d]|)
    ensures AllSlots(g, v, t)[d][i] == SlotsOf(ChainBytes(g, v, t.chains[d]))[i]
  {
    ShapeFacts(g, v, t);
    ChainPlaced(g, v, t.chains[d]);
  }

  /** The addressing every slot operation starts with: from a slot's running index to its sector. */
  method LocateSlot(fs: Volume, directoryCluster: nat, entryIndex: nat, ghost t: Tree)
    returns (r: Status, lba: nat, ghost c: nat, ghost s: nat)
    requires SlotExists(fs, t, directoryCluster, entryIndex)
    modifies fs.sectorBuffer
    ensures r == Ok && fs.g.InRange(c) && s < fs.g.sectorsPerCluster && lba == ClusterToLba(fs.g, c) + s
    ensures directoryCluster in t.chains && Placed(fs.g, t.chains[directoryCluster])
    ensures entryIndex / 16 < Sectors(fs.g, |t.chains[directoryCluster]|)
    ensures ChainSector(fs.g, t.chains[directoryCluster], entryIndex / 16) == DataIndex(fs.g, c, s)
  {
    hide Kept, ViewOf, AllSlots, ChainBytes, Quot, Rem;
    ghost var ch := t.chains[directoryCluster];
    SlotChain(fs.g, fs.Now(), t, directoryCluster, entryIndex);
    lba, c, s := 0, 2, 0;
    var entriesPerSector := SECTOR / 32;
    var sectorIndex := entryIndex / entriesPerSector;
    var clusterIndex := Quot(sectorIndex, fs.g.sectorsPerCluster);
    var sectorInCluster := Rem(sectorIndex, fs.g.sectorsPerCluster);
    ChainSectorOf(fs.g, ch, sectorIndex);
    PathLength(fs.Now().fat, ch);
    WalkChain(fs.Now().fat, ch, 0, clusterIndex);
    var cluster;
    r, cluster := GetClusterAt(fs, directoryCluster, clusterIndex);
    if r != Ok {
      return;
    }
    c, s := cluster, sectorInCluster;
    ClusterToLbaPlaces(fs.g, c, s);
    lba := ClusterToLba(fs.g, cluster);
    if lba == 0 {
      r := Error;
      return;
    }
    lba := lba + sectorInCluster;
  }

  /** Read the sector of a slot into the shared buffer. */
  method LoadSlot(fs: Volume, directoryCluster: nat, entryIndex: nat, ghost t: Tree)
    returns (r: Status, lba: nat, ghost c: nat, ghost s: nat)
    requires SlotExists(fs, t, directoryCluster, entryIndex)
    modifies fs.sectorBuffer
    ensures r == Ok && fs.g.InRange(c) && s < fs.g.sectorsPerCluster && lba == ClusterToLba(fs.g, c) + s
    ensures directoryCluster in t.chains && Placed(fs.g, t.chains[directoryCluster])
    ensures entryIndex / 16 < Sectors(fs.g, |t.chains[directoryCluster]|)
    ensures ChainSector(fs.g, t.chains[directoryCluster], entryIndex / 16) == DataIndex(fs.g, c, s)
    ensures fs.sectorBuffer[..] == fs.Now().data[DataIndex(fs.g, c, s)]
    ensures fs.sectorBuffer[32 * (entryIndex % 16)..32 * (entryIndex % 16) + 32] == SlotNow(fs, t, directoryCluster, entryIndex)
  {
    hide Kept, ViewOf, AllSlots, ChainBytes, ChainSector, Shape;
    r, lba, c, s := LocateSlot(fs, directoryCluster, entryIndex, t);
    if r != Ok {
      return;
    }
    var ok := ReadDataSector(fs, lba, c, s);
    if !ok {
      r := IoError;
      return;
    }
    SlotChain(fs.g, fs.Now(), t, directoryCluster, entryIndex);
    RecordInSector(fs.g, fs.Now(), t.chains[directoryCluster], entryIndex);
  }

  /** Write the shared buffer back once it holds the slot's sector with the slot replaced. */
  method StoreSlot(fs: Volume, directoryCluster: nat, entryIndex: nat, lba: nat, ghost c: nat, ghost s: nat,
                   ghost slot: Slot, ghost t: Tree)
    returns (r: Status)
    requires SlotExists(fs, t, directoryCluster, entryIndex)
    requires fs.g.InRange(c) && s < fs.g.sectorsPerCluster && lba == ClusterToLba(fs.g, c) + s
    requires directoryCluster in t.chains && Placed(fs.g, t.chains[directoryCluster])
    requires entryIndex / 16 < Sectors(fs.g, |t.chains[directoryCluster]|)
    requires ChainSector(fs.g, t.chains[directoryCluster], entryIndex / 16) == DataIndex(fs.g, c, s)
    requires fs.sectorBuffer[..] == Splice(fs.Now().data[DataIndex(fs.g, c, s)], 32 * (entryIndex % 16), slot)
    modifies fs`journal, fs.device
    ensures fs.Ready() && r == Ok
    ensures fs.Now() == WithSlot(fs.g, old(fs.Now()), t, directoryCluster, entryIndex, slot)
    ensures fs.journal == old(fs.journal) + [fs.Now()]
  {
    hide Kept, ViewOf, AllSlots, ChainBytes, ChainSector, Shape;
    SlotChain(fs.g, fs.Now(), t, directoryCluster, entryIndex);
    var ok := WriteDataSector(fs, lba, c, s, fs.sectorBuffer[..]);
    r := if ok then Ok else IoError;
  }

  /** fat32_update_file_entry: first cluster and size of the handle's slot. */
  method UpdateFileEntry(fs: Volume, file: FileHandle, ghost t: Tree) returns (r: Status)
    requires !file.directory ==> SlotExists(fs, t, file.directoryCluster, file.entryIndex)
    requires file.firstCluster < U32 && file.size < U32
    modifies fs`journal, fs.device, fs.sectorBuffer
    ensures file.directory ==> r == NotAFile && fs.device.sectors == old(fs.device.sectors) && fs.journal == old(fs.journal)
    ensures !file.directory ==> r == Ok && fs.Ready() && fs.journal == old(fs.journal) + [fs.Now()]
    ensures !file.directory ==>
              fs.Now() == WithSlot(fs.g, old(fs.Now()), t, file.directoryCluster, file.entryIndex,
                ExtentSlot(old(SlotNow(fs, t, file.directoryCluster, file.entryIndex)), file.firstCluster, file.size))
  {
    hide Kept, ViewOf, AllSlots, ChainBytes, ChainSector, WithSlot;
    if file.directory {
      return NotAFile;
    }
    SlotChain(fs.g, fs.Now(), t, file.directoryCluster, file.entryIndex);
    if file.directoryCluster < 2 {
      return Error;
    }
    var lba;
    ghost var c, s;
    r, lba, c, s := LoadSlot(fs, file.directoryCluster, file.entryIndex, t);
    if r != Ok {
      return;
    }
    var o := file.entryIndex % 16 * 32;
    ghost var sector := fs.sectorBuffer[..];
    FillExtent(fs.sectorBuffer, o, file.firstCluster, file.size);
    r := StoreSlot(fs, file.directoryCluster, file.entryIndex, lba, c, s,
                   ExtentSlot(sector[o..o + 32], file.firstCluster, file.size), t);
  }

  /** The stores of fat32_update_file_entry. */
  method FillExtent(buffer: array<byte>, o: nat, firstCluster: nat, size: nat)
    requires buffer.Length == 512 && o + 32 <= 512 && firstCluster < U32 && size < U32
    modifies buffer
    ensures buffer[..] == Splice(old(buffer[..]), o, ExtentSlot(old(buffer[o..o + 32]), firstCluster, size))
  {
    hide ExtentSlot, Enc16, Enc32, Splice;
    ExtentInSector(buffer[..], o, firstCluster, size);
    WriteU16(buffer, o + 20, firstCluster / 0x1_0000);
    WriteU16(buffer, o + 26, firstCluster % 0x1_0000);
    WriteU32(buffer, o + 28, size);
  }

  lemma ExtentInSector(b: Sector, o: nat, cluster: nat, size: nat)
    requires o + 32 <= 512 && cluster < U32 && size < U32
    ensures Splice(Splice(Splice(b, o + 20, Enc16(cluster / 0x1_0000)), o + 26, Enc16(cluster % 0x1_0000)), o + 28, Enc32(size))
         == Splice(b, o, ExtentSlot(b[o..o + 32], cluster, size))
  {
    var hi, lo, z := Enc16(cluster / 0x1_0000), Enc16(cluster % 0x1_0000), Enc32(size);
    var s0 := b[o..o + 32];
    var s1 := Splice(s0, 20, hi);
    var s2 := Splice(s1, 26, lo);
    SpliceWindow(b, o, 32, 20, hi);
    var b1 := Splice(b, o, s1);
    assert b1[o..o + 32] == s1;
    SpliceWindow(b1, o, 32, 26, lo);
    SpliceTwice(b, o, s1, s2);
    var b2 := Splice(b, o, s2);
    assert b2[o..o + 32] == s2;
    SpliceWindow(b2, o, 32, 28, z);
    SpliceTwice(b, o, s2, Splice(s2, 28, z));
  }

  lemma SpliceTwice<T>(b: seq<T>, o: nat, s: seq<T>, t: seq<T>)
    requires o + |s| <= |b| && |s| == |t|
    ensures Splice(Splice(b, o, s), o, t) == Splice(b, o, t)
  {
  }

  /** fat32_update_directory_entry_size. */
  method UpdateEntrySize(fs: Volume, directoryCluster: nat, entryIndex: nat, size: nat, ghost t: Tree) returns (r: Status)
    requires SlotExists(fs, t, directoryCluster, entryIndex) && size < U32
    modifies fs`journal, fs.device, fs.sectorBuffer
    ensures fs.Ready() && r == Ok && fs.journal == old(fs.journal) + [fs.Now()]
    ensures fs.Now() == WithSlot(fs.g, old(fs.Now()), t, directoryCluster, entryIndex,
                                 SizedSlot(old(SlotNow(fs, t, directoryCluster, entryIndex)), size))
  {
    hide Kept, ViewOf, AllSlots, ChainBytes, ChainSector, WithSlot, Shape;
    var lba;
    ghost var c, s;
    r, lba, c, s := LoadSlot(fs, directoryCluster, entryIndex, t);
    if r != Ok {
      return;
    }
    var o := entryIndex % 16 * 32;
    ghost var sector := fs.sectorBuffer[..];
    WriteU32(fs.sectorBuffer, o + 28, size);
    SpliceWindow(sector, o, 32, 28, Enc32(size));
    r := StoreSlot(fs, directoryCluster, entryIndex, lba, c, s, SizedSlot(sector[o..o + 32], size), t);
  }

  /** fat32_delete_directory_entry. */
  method DeleteEntry(fs: Volume, directoryCluster: nat, entryIndex: nat, ghost t: Tree) returns (r: Status)
    requires SlotExists(fs, t, directoryCluster, entryIndex)
    modifies fs`journal, fs.device, fs.sectorBuffer
    ensures fs.Ready() && r == Ok && fs.journal == old(fs.journal) + [fs.Now()]
    ensures fs.Now() == WithSlot(fs.g, old(fs.Now()), t, directoryCluster, entryIndex,
                                 DeletedSlot(old(SlotNow(fs, t, directoryCluster, entryIndex))))
  {
    hide Kept, ViewOf, AllSlots, ChainBytes, ChainSector, WithSlot;
    SlotChain(fs.g, fs.Now(), t, directoryCluster, entryIndex);
    if directoryCluster < 2 || directoryCluster > fs.g.totalClusters + 1 {
      return Error;
    }
    var lba;
    ghost var c, s;
    r, lba, c, s := LoadSlot(fs, directoryCluster, entryIndex, t);
    if r != Ok {
      return;
    }
    var o := entryIndex % 16 * 32;
    ghost var sector := fs.sectorBuffer[..];
    fs.sectorBuffer[o] := DELETED;
    assert fs.sectorBuffer[..] == Splice(sector, o, DeletedSlot(sector[o..o + 32]));
    r := StoreSlot(fs, directoryCluster, entryIndex, lba, c, s, DeletedSlot(sector[o..o + 32]), t);
  }

  /** fat32_write_directory_entry_data: a whole new slot. */
  method WriteEntryData(fs: Volume, directoryCluster: nat, entryIndex: nat, name: Name83, attributes: byte,
                        firstCluster: nat, size: nat, ghost t: Tree)
    returns (r: Status)
    requires SlotExists(fs, t, directoryCluster, entryIndex) && firstCluster < U32 && size < U32
    modifies fs`journal, fs.device, fs.sectorBuffer
    ensures fs.Ready() && r == Ok && fs.journal == old(fs.journal) + [fs.Now()]
    ensures fs.Now() == WithSlot(fs.g, old(fs.Now()), t, directoryCluster, entryIndex,
                                 EntrySlot(name, attributes, firstCluster, size))
  {
    hide Kept, ViewOf, AllSlots, ChainBytes, ChainSector, WithSlot;
    SlotChain(fs.g, fs.Now(), t, directoryCluster, entryIndex);
    if directoryCluster < 2 || directoryCluster > fs.g.totalClusters + 1 {
      return Error;
    }
    var lba;
    ghost var c, s;
    r, lba, c, s := LoadSlot(fs, directoryCluster, entryIndex, t);
    if r != Ok {
      return;
    }
    var o := entryIndex % 16 * 32;
    ghost var sector := fs.sectorBuffer[..];
    FillEntry(fs.sectorBuffer, o, name, attributes, firstCluster, size);
    r := StoreSlot(fs, directoryCluster, entryIndex, lba, c, s, EntrySlot(name, attributes, firstCluster, size), t);
  }

  /** The clearing and naming loops of fat32_write_directory_entry_data. */
  method FillName(buffer: array<byte>, o: nat, name: Name83)
    requires buffer.Length == 512 && o + 32 <= 512
    modifies buffer
    ensures buffer[..] == Splice(old(buffer[..]), o, name + Zeros(21))
  {
    ghost var b := buffer[..];
    var i := 0;
    while i < 32
      invariant 0 <= i <= 32 && buffer[..] == Splice(b, o, Zeros(i))
    {
      buffer[o + i] := 0;
      i := i + 1;
    }
    i := 0;
    while i < 11
      invariant 0 <= i <= 11 && buffer[..] == Splice(b, o, name[..i] + Zeros(32 - i))
    {
      buffer[o + i] := name[i];
      i := i + 1;
    }
    assert name[..11] == name;
  }

  lemma EntryInSlot(name: Name83, attributes: byte, cluster: nat, size: nat)
    requires cluster < U32 && size < U32
    ensures Splice(Splice(Splice(Splice(name + Zeros(21), 11, [attributes]), 20, Enc16(cluster / 0x1_0000)),
                          26, Enc16(cluster % 0x1_0000)), 28, Enc32(size))
         == EntrySlot(name, attributes, cluster, size)
  {
  }

  lemma SpliceInside<T>(b: seq<T>, o: nat, s: seq<T>, p: nat, t: seq<T>)
    requires o + |s| <= |b| && p + |t| <= |s|
    ensures Splice(Splice(b, o, s), o + p, t) == Splice(b, o, Splice(s, p, t))
  {
  }

  /** The stores of fat32_write_directory_entry_data: clear the slot, then fill in name, attributes, cluster and size. */
  method FillEntry(buffer: array<byte>, o: nat, name: Name83, attributes: byte, firstCluster: nat, size: nat)
    requires buffer.Length == 512 && o + 32 <= 512 && firstCluster < U32 && size < U32
    modifies buffer
    ensures buffer[..] == Splice(old(buffer[..]), o, EntrySlot(name, attributes, firstCluster, size))
  {
    ghost var b := buffer[..];
    ghost var s0, hi, lo, z := name + Zeros(21), Enc16(firstCluster / 0x1_0000), Enc16(firstCluster % 0x1_0000), Enc32(size);
    FillName(buffer, o, name);
    buffer[o + 11] := attributes;
    ghost var s1 := Splice(s0, 11, [attributes]);
    assert buffer[..] == Splice(b, o, s1);
    FillRest(buffer, o, firstCluster, size, b, s1);
    EntryInSlot(name, attributes, firstCluster, size);
  }

  method FillRest(buffer: array<byte>, o: nat, firstCluster: nat, size: nat, ghost b: seq<byte>, ghost s: seq<byte>)
    requires buffer.Length == 512 && o + 32 <= 512 && firstCluster < U32 && size < U32
    requires |b| == 512 && |s| == 32 && buffer[..] == Splice(b, o, s)
    modifies buffer
    ensures buffer[..] == Splice(b, o, Splice(Splice(Splice(s, 20, Enc16(firstCluster / 0x1_0000)),
                                                     26, Enc16(firstCluster % 0x1_0000)), 28, Enc32(size)))
  {
    hide Splice, Enc16, Enc32;
    ghost var hi, lo, z := Enc16(firstCluster / 0x1_0000), Enc16(firstCluster % 0x1_0000), Enc32(size);
    SpliceInside(b, o, s, 20, hi);
    SpliceInside(b, o, Splice(s, 20, hi), 26, lo);
    SpliceInside(b, o, Splice(Splice(s, 20, hi), 26, lo), 28, z);
    WriteU16(buffer, o + 20, firstCluster / 0x1_0000);
    WriteU16(buffer, o + 26, firstCluster % 0x1_0000);
    WriteU32(buffer, o + 28, size);
  }
}
