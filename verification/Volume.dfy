/** The block device, the mounted volume with its shared sector buffer, and the abstract view of a disk. */
module Volumes {
  import opened Bytes
  import opened Geometry

  datatype Status =
    | Ok | Error | IoError | InvalidBootSector | NotFat32 | InvalidBpb
    | NotFound | NotAFile | NotADirectory | EndOfFile | DirectoryNotEmpty

  /** The read/write pair of block_device_t on single sectors. Transfers inside the device succeed. */
  class BlockDevice {
    const sectorSize: nat
    var sectors: Disk
    ghost var trace: seq<Disk>  // the disk as it stood after each block write

    constructor (sectorSize: nat, sectors: Disk)
      ensures this.sectorSize == sectorSize && this.sectors == sectors && trace == []
    {
      this.sectorSize := sectorSize;
      this.sectors := sectors;
      trace := [];
    }

    method Read(lba: nat, buffer: array<byte>) returns (ok: bool)
      requires buffer.Length == SECTOR
      modifies buffer
      ensures ok <==> lba < |sectors|
      ensures buffer[..] == if ok then sectors[lba] else old(buffer[..])
    {
      if lba >= |sectors| {
        return false;
      }
      var s := sectors[lba];
      for i := 0 to SECTOR
        invariant buffer[..i] == s[..i]
      {
        buffer[i] := s[i];
      }
      return true;
    }

    method Write(lba: nat, data: Sector) returns (ok: bool)
      modifies this
      ensures ok <==> lba < |old(sectors)|
      ensures ok ==> sectors == old(sectors)[lba := data] && trace == old(trace) + [sectors]
      ensures !ok ==> sectors == old(sectors) && trace == old(trace)
    {
      if lba >= |sectors| {
        return false;
      }
      sectors := sectors[lba := data];
      trace := trace + [sectors];
      return true;
    }
  }

  // ---------------------------------------------------------------- the abstract view

  /** What the file system sees: the 28-bit FAT values of copy 0, and the sectors of the data area. */
  datatype View = View(fat: seq<nat>, data: seq<Sector>)

  ghost predicate Fits(g: Geometry, d: Disk) {
    g.Valid() && g.totalSectors <= |d|
  }

  /** The raw 32-bit entry of cluster c in one FAT copy. */
  function RawEntry(g: Geometry, d: Disk, copy: nat, c: nat): (v: nat)
    requires Fits(g, d) && copy < g.numberOfFats && c < g.fatSize * 128
    ensures v < U32
  {
    FatSectorBound(g, copy, c / 128);
    Le32(d[FatSector(g, copy, c / 128)], 4 * (c % 128))
  }

  ghost predicate Fitted(g: Geometry, v: View) {
    |v.fat| == g.totalClusters + 2 && |v.data| == g.DataSectors()
  }

  ghost function ViewOf(g: Geometry, d: Disk): (v: View)
    requires Fits(g, d)
    ensures Fitted(g, v)
    ensures forall c | 0 <= c < |v.fat| :: v.fat[c] < VALUE_MOD
  {
    View(
      seq(g.totalClusters + 2, c requires 0 <= c < g.totalClusters + 2 => RawEntry(g, d, 0, c) % VALUE_MOD),
      d[g.dataStart..g.dataStart + g.DataSectors()])
  }

  /** Every FAT copy holds the same sectors. */
  ghost predicate Mirrored(g: Geometry, d: Disk) {
    forall k: nat, o: nat {:trigger FatSector(g, k, o)} |
      k < g.numberOfFats && o < g.fatSize && FatSector(g, k, o) < |d| && FatSector(g, 0, o) < |d| ::
      d[FatSector(g, k, o)] == d[FatSector(g, 0, o)]
  }

  /** What no operation may do to the disk it was mounted from: resize it, touch a sector outside the FATs and the
      data area, let FAT copies drift apart, or change the four reserved bits of an entry. */
  ghost predicate Kept(g: Geometry, base: Disk, d: Disk)
    requires Fits(g, base) && Fits(g, d)
  {
    && |d| == |base|
    && (forall lba: nat | lba < g.fatStart || g.dataStart + g.DataSectors() <= lba < |d| :: d[lba] == base[lba])
    && (Mirrored(g, base) ==>
          && Mirrored(g, d)
          && forall k: nat, c: nat | k < g.numberOfFats && c < g.fatSize * 128 ::
            RawEntry(g, d, k, c) / VALUE_MOD == RawEntry(g, base, k, c) / VALUE_MOD)
  }

  /** fat32_t, with the static sector_buffer that every operation shares. */
  class Volume {
    const g: Geometry
    const device: BlockDevice
    const sectorBuffer: array<byte>
    ghost const base: Disk          // the disk at mount time
    ghost var journal: seq<View>    // the view after each block write

    ghost predicate Wired()
      reads this, device
    {
      && sectorBuffer.Length == SECTOR
      && Fits(g, device.sectors)
      && |journal| == |device.trace|
      && forall i | 0 <= i < |journal| :: Fits(g, device.trace[i]) && journal[i] == ViewOf(g, device.trace[i])
    }

    ghost predicate Ready()
      reads this, device
    {
      Wired() && Fits(g, base) && Kept(g, base, device.sectors)
    }

    ghost function Now(): (v: View)
      reads this, device
      requires Wired()
      ensures Fitted(g, v)
    {
      ViewOf(g, device.sectors)
    }

    constructor (g: Geometry, device: BlockDevice, buffer: array<byte>)
      requires Fits(g, device.sectors) && buffer.Length == SECTOR && device.trace == []
      ensures this.g == g && this.device == device && sectorBuffer == buffer && base == device.sectors
      ensures Ready() && journal == []
    {
      this.g := g;
      this.device := device;
      sectorBuffer := buffer;
      base := device.sectors;
      journal := [];
    }
  }

  /** One device write, noted in the journal. */
  method WriteBlock(fs: Volume, lba: nat, data: Sector) returns (ok: bool)
    requires fs.Wired()
    modifies fs`journal, fs.device
    ensures fs.Wired()
    ensures ok <==> lba < |old(fs.device.sectors)|
    ensures ok ==> fs.device.sectors == old(fs.device.sectors)[lba := data] && fs.journal == old(fs.journal) + [fs.Now()]
    ensures !ok ==> fs.device.sectors == old(fs.device.sectors) && fs.journal == old(fs.journal)
  {
    ok := fs.device.Write(lba, data);
    if ok {
      fs.journal := fs.journal + [ViewOf(fs.g, fs.device.sectors)];
    }
  }

  /** A write to a data sector changes that sector of the view and nothing else. */
  lemma DataWriteView(g: Geometry, base: Disk, d: Disk, i: nat, data: Sector)
    requires Fits(g, base) && Fits(g, d) && Kept(g, base, d) && i < g.DataSectors()
    ensures Fits(g, d[g.dataStart + i := data]) && Kept(g, base, d[g.dataStart + i := data])
    ensures ViewOf(g, d[g.dataStart + i := data]) == ViewOf(g, d).(data := ViewOf(g, d).data[i := data])
  {
    var d' := d[g.dataStart + i := data];
    forall k: nat, o: nat | k < g.numberOfFats && o < g.fatSize
      ensures FatSector(g, k, o) < g.dataStart && d'[FatSector(g, k, o)] == d[FatSector(g, k, o)]
    {
      FatSectorBound(g, k, o);
    }
    forall k: nat, c: nat | k < g.numberOfFats && c < g.fatSize * 128
      ensures RawEntry(g, d', k, c) == RawEntry(g, d, k, c)
    {
      assert c / 128 < g.fatSize;
    }
    forall k: nat, o: nat | k < g.numberOfFats && o < g.fatSize && Mirrored(g, d)
      ensures d'[FatSector(g, k, o)] == d'[FatSector(g, 0, o)]
    {
      FatSectorBound(g, 0, o);
    }
    assert ViewOf(g, d').data == ViewOf(g, d).data[i := data];
    assert ViewOf(g, d').fat == ViewOf(g, d).fat;
  }

  /** A block write to sector s of cluster c. */
  method WriteDataSector(fs: Volume, lba: nat, ghost c: nat, ghost s: nat, data: Sector) returns (ok: bool)
    requires fs.Ready() && fs.g.InRange(c) && s < fs.g.sectorsPerCluster
    requires lba == ClusterToLba(fs.g, c) + s
    modifies fs`journal, fs.device
    ensures fs.Ready() && ok
    ensures fs.Now() == old(fs.Now()).(data := old(fs.Now()).data[DataIndex(fs.g, c, s) := data])
    ensures fs.journal == old(fs.journal) + [fs.Now()]
  {
    ClusterToLbaPlaces(fs.g, c, s);
    DataWriteView(fs.g, fs.base, fs.device.sectors, DataIndex(fs.g, c, s), data);
    ok := WriteBlock(fs, lba, data);
  }

  /** A block read of sector s of cluster c into the shared buffer. */
  method ReadDataSector(fs: Volume, lba: nat, ghost c: nat, ghost s: nat) returns (ok: bool)
    requires fs.Ready() && fs.g.InRange(c) && s < fs.g.sectorsPerCluster
    requires lba == ClusterToLba(fs.g, c) + s
    modifies fs.sectorBuffer
    ensures ok && fs.sectorBuffer[..] == fs.Now().data[DataIndex(fs.g, c, s)]
  {
    ClusterToLbaPlaces(fs.g, c, s);
    ok := fs.device.Read(lba, fs.sectorBuffer);
  }
}
