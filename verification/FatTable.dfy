/** The File Allocation Table on disk: reading an entry, writing it to every copy, following a link. */
module FatTable {
  import opened Bytes
  import opened Geometry
  import opened Volumes

  /** The stored word: new low 28 bits under the old reserved top four. */
  function Merged(old32: nat, value: nat): (v: nat)
    requires old32 < U32
    ensures v < U32 && v % VALUE_MOD == value % VALUE_MOD && v / VALUE_MOD == old32 / VALUE_MOD
  {
    old32 / VALUE_MOD * VALUE_MOD + value % VALUE_MOD
  }

  /** The FAT sector holding cluster c's entry, with that entry's low 28 bits replaced. */
  function PatchedSector(s: Sector, c: nat, value: nat): Sector {
    Splice(s, 4 * (c % 128), Enc32(Merged(Le32(s, 4 * (c % 128)), value)))
  }

  lemma PatchedSectorEntries(s: Sector, c: nat, value: nat, e: nat)
    requires e < 128
    ensures Le32(PatchedSector(s, c, value), 4 * e)
         == if e == c % 128 then Merged(Le32(s, 4 * e), value) else Le32(s, 4 * e)
  {
    var o := 4 * (c % 128);
    if e == c % 128 {
      PutGet32(s, o, Merged(Le32(s, o), value));
    } else {
      SpliceKeeps32(s, o, Enc32(Merged(Le32(s, o), value)), 4 * e);
    }
  }

  /** The disk after the first n copies of FAT sector `off` have been overwritten with `data`. */
  ghost function CopiesWritten(g: Geometry, d: Disk, off: nat, data: Sector, n: nat): (r: Disk)
    requires Fits(g, d) && off < g.fatSize && n <= g.numberOfFats
    ensures |r| == |d|
    ensures forall k: nat | k < n :: FatSector(g, k, off) < |d| && r[FatSector(g, k, off)] == data
    ensures forall lba: nat | lba < |d| && (forall k: nat | k < n :: lba != FatSector(g, k, off)) :: r[lba] == d[lba]
  {
    if n == 0 then d else
      FatSectorBound(g, n - 1, off);
      CopiesWritten(g, d, off, data, n - 1)[FatSector(g, n - 1, off) := data]
  }

  /** What one FAT entry write means for the raw disk: in every copy, that entry's low 28 bits change and no other
      32-bit entry does. */
  ghost predicate EntryWritten(g: Geometry, d: Disk, d': Disk, c: nat, value: nat)
    requires Fits(g, d) && Fits(g, d')
  {
    forall k: nat, e: nat | k < g.numberOfFats && e < g.fatSize * 128 ::
      RawEntry(g, d', k, e) == if e == c then Merged(RawEntry(g, d, k, e), value) else RawEntry(g, d, k, e)
  }

  lemma CopiesEntry(g: Geometry, d: Disk, c: nat, value: nat, n: nat, k: nat, e: nat)
    requires Fits(g, d) && c < g.fatSize * 128 && n <= g.numberOfFats && k < g.numberOfFats && e < g.fatSize * 128
    ensures FatSector(g, 0, c / 128) < |d|
    ensures var d' := CopiesWritten(g, d, c / 128, PatchedSector(d[FatSector(g, 0, c / 128)], c, value), n);
            RawEntry(g, d', k, e) ==
            if k < n && e / 128 == c / 128 then
              (if e == c then Merged(RawEntry(g, d, 0, e), value) else RawEntry(g, d, 0, e))
            else RawEntry(g, d, k, e)
  {
    FatSectorBound(g, 0, c / 128);
    FatSectorBound(g, k, e / 128);
    var data := PatchedSector(d[FatSector(g, 0, c / 128)], c, value);
    var d' := CopiesWritten(g, d, c / 128, data, n);
    var lba := FatSector(g, k, e / 128);
    if k < n && e / 128 == c / 128 {
      PatchedSectorEntries(d[FatSector(g, 0, c / 128)], c, value, e % 128);
    } else {
      forall j: nat | j < n ensures lba != FatSector(g, j, c / 128) {
        if lba == FatSector(g, j, c / 128) {
          FatSectorInjective(g, k, e / 128, j, c / 128);
        }
      }
    }
  }

  /** After one or more copies are written the view has changed at exactly one cluster. */
  lemma CopiesView(g: Geometry, d: Disk, c: nat, value: nat, n: nat)
    requires Fits(g, d) && g.InRange(c) && 1 <= n <= g.numberOfFats
    ensures FatSector(g, 0, c / 128) < |d|
    ensures ViewOf(g, CopiesWritten(g, d, c / 128, PatchedSector(d[FatSector(g, 0, c / 128)], c, value), n))
         == ViewOf(g, d).(fat := ViewOf(g, d).fat[c := value % VALUE_MOD])
  {
    FatSectorBound(g, 0, c / 128);
    var data := PatchedSector(d[FatSector(g, 0, c / 128)], c, value);
    var d' := CopiesWritten(g, d, c / 128, data, n);
    forall e: nat | e < g.totalClusters + 2
      ensures ViewOf(g, d').fat[e] == if e == c then value % VALUE_MOD else ViewOf(g, d).fat[e]
    {
      CopiesEntry(g, d, c, value, n, 0, e);
    }
    assert ViewOf(g, d').fat == ViewOf(g, d).fat[c := value % VALUE_MOD];
    forall lba: nat | g.dataStart <= lba < |d| ensures d'[lba] == d[lba] {
      CopiesFrame(g, d, c / 128, data, n, lba);
    }
    assert ViewOf(g, d').data == ViewOf(g, d).data;
  }

  lemma CopiesFrame(g: Geometry, d: Disk, off: nat, data: Sector, n: nat, lba: nat)
    requires Fits(g, d) && off < g.fatSize && n <= g.numberOfFats && lba < |d|
    requires lba < g.fatStart || g.dataStart <= lba
    ensures CopiesWritten(g, d, off, data, n)[lba] == d[lba]
  {
    forall k: nat | k < n ensures lba != FatSector(g, k, off) {
      FatSectorBound(g, k, off);
    }
  }

  lemma CopiesSector(g: Geometry, d: Disk, off: nat, data: Sector, k: nat, o: nat)
    requires Fits(g, d) && off < g.fatSize && k < g.numberOfFats && o < g.fatSize
    ensures FatSector(g, k, o) < |d|
    ensures CopiesWritten(g, d, off, data, g.numberOfFats)[FatSector(g, k, o)]
         == if o == off then data else d[FatSector(g, k, o)]
  {
    FatSectorBound(g, k, o);
    if o != off {
      forall j: nat | j < g.numberOfFats ensures FatSector(g, k, o) != FatSector(g, j, off) {
        if FatSector(g, k, o) == FatSector(g, j, off) {
          FatSectorInjective(g, k, o, j, off);
        }
      }
    }
  }

  lemma CopiesAlike(g: Geometry, d: Disk, off: nat, data: Sector)
    requires Fits(g, d) && off < g.fatSize && Mirrored(g, d)
    ensures Mirrored(g, CopiesWritten(g, d, off, data, g.numberOfFats))
  {
    var d' := CopiesWritten(g, d, off, data, g.numberOfFats);
    forall k: nat, o: nat | k < g.numberOfFats && o < g.fatSize && FatSector(g, k, o) < |d'| && FatSector(g, 0, o) < |d'|
      ensures d'[FatSector(g, k, o)] == d'[FatSector(g, 0, o)]
    {
      CopiesSector(g, d, off, data, k, o);
      CopiesSector(g, d, off, data, 0, o);
    }
  }

  lemma MirroredEntry(g: Geometry, d: Disk, k: nat, e: nat)
    requires Fits(g, d) && Mirrored(g, d) && k < g.numberOfFats && e < g.fatSize * 128
    ensures RawEntry(g, d, k, e) == RawEntry(g, d, 0, e)
  {
    FatSectorBound(g, k, e / 128);
    FatSectorBound(g, 0, e / 128);
  }

  /** Once all copies are written, mirrored FATs are mirrored again and only the one entry has changed. */
  lemma CopiesMirrored(g: Geometry, d: Disk, c: nat, value: nat)
    requires Fits(g, d) && g.InRange(c) && Mirrored(g, d)
    ensures FatSector(g, 0, c / 128) < |d|
    ensures var d' := CopiesWritten(g, d, c / 128, PatchedSector(d[FatSector(g, 0, c / 128)], c, value), g.numberOfFats);
            Mirrored(g, d') && EntryWritten(g, d, d', c, value)
  {
    FatSectorBound(g, 0, c / 128);
    var data := PatchedSector(d[FatSector(g, 0, c / 128)], c, value);
    CopiesAlike(g, d, c / 128, data);
    forall k: nat, e: nat | k < g.numberOfFats && e < g.fatSize * 128
      ensures RawEntry(g, CopiesWritten(g, d, c / 128, data, g.numberOfFats), k, e)
           == if e == c then Merged(RawEntry(g, d, k, e), value) else RawEntry(g, d, k, e)
    {
      CopiesEntry(g, d, c, value, g.numberOfFats, k, e);
      MirroredEntry(g, d, k, e);
    }
  }

  lemma KeptStep(g: Geometry, base: Disk, d: Disk, d': Disk, c: nat, value: nat)
    requires Fits(g, base) && Fits(g, d) && Kept(g, base, d) && |d'| == |d|
    requires forall lba: nat | lba < g.fatStart || g.dataStart <= lba < |d| :: d'[lba] == d[lba]
    requires Mirrored(g, d) ==> Mirrored(g, d') && EntryWritten(g, d, d', c, value)
    ensures Kept(g, base, d')
  {
    hide Mirrored, RawEntry;
  }

  lemma CopiesKept(g: Geometry, base: Disk, d: Disk, c: nat, value: nat)
    requires Fits(g, base) && Fits(g, d) && Kept(g, base, d) && g.InRange(c)
    ensures FatSector(g, 0, c / 128) < |d|
    ensures Kept(g, base, CopiesWritten(g, d, c / 128, PatchedSector(d[FatSector(g, 0, c / 128)], c, value), g.numberOfFats))
  {
    hide Mirrored, Kept, EntryWritten;
    FatSectorBound(g, 0, c / 128);
    var data := PatchedSector(d[FatSector(g, 0, c / 128)], c, value);
    var d' := CopiesWritten(g, d, c / 128, data, g.numberOfFats);
    forall lba: nat | lba < g.fatStart || g.dataStart <= lba < |d| ensures d'[lba] == d[lba] {
      CopiesFrame(g, d, c / 128, data, g.numberOfFats, lba);
    }
    if Mirrored(g, d) {
      CopiesMirrored(g, d, c, value);
    }
    KeptStep(g, base, d, d', c, value);
  }

  lemma EntryAddress(c: nat)
    ensures c * 4 / SECTOR == c / 128 && c * 4 % SECTOR == 4 * (c % 128)
  {
  }

  lemma CopiesNone(g: Geometry, d: Disk, off: nat, data: Sector)
    requires Fits(g, d) && off < g.fatSize
    ensures CopiesWritten(g, d, off, data, 0) == d
  {
  }

  lemma CopiesStep(g: Geometry, d: Disk, off: nat, data: Sector, n: nat)
    requires Fits(g, d) && off < g.fatSize && n < g.numberOfFats
    ensures FatSector(g, n, off) < |d|
    ensures CopiesWritten(g, d, off, data, n + 1) == CopiesWritten(g, d, off, data, n)[FatSector(g, n, off) := data]
  {
    FatSectorBound(g, n, off);
  }

  /** fat32_read_fat_entry. */
  method ReadFatEntry(fs: Volume, cluster: nat) returns (r: Status, value: nat)
    requires fs.Ready()
    modifies fs.sectorBuffer
    ensures fs.g.InRange(cluster) ==> r == Ok && value == fs.Now().fat[cluster]
    ensures !fs.g.InRange(cluster) ==> r == Error
  {
    value := 0;
    if cluster < 2 {
      return Error, value;
    }
    if cluster > fs.g.MaxCluster() {
      return Error, value;
    }
    EntryAddress(cluster);
    var fatOffset := cluster * 4;
    var fatSector := fs.g.fatStart + fatOffset / SECTOR;
    var offset := fatOffset % SECTOR;
    FatSectorBound(fs.g, 0, cluster / 128);
    var ok := fs.device.Read(fatSector, fs.sectorBuffer);
    if !ok {
      return IoError, value;
    }
    value := Le32(fs.sectorBuffer[..], offset) % VALUE_MOD;
    return Ok, value;
  }

  /** One turn of the copy loop of fat32_write_fat_entry. */
  method WriteCopy(fs: Volume, ghost d: Disk, ghost cluster: nat, ghost value: nat, copy: nat, sectorOffset: nat, data: Sector)
    returns (ok: bool)
    requires fs.Wired() && Fits(fs.g, d) && fs.g.InRange(cluster) && sectorOffset == cluster / 128
    requires FatSector(fs.g, 0, cluster / 128) < |d| && copy < fs.g.numberOfFats
    requires data == PatchedSector(d[FatSector(fs.g, 0, cluster / 128)], cluster, value)
    requires fs.device.sectors == CopiesWritten(fs.g, d, cluster / 128, data, copy)
    modifies fs`journal, fs.device
    ensures fs.Wired() && ok
    ensures fs.device.sectors == CopiesWritten(fs.g, d, cluster / 128, data, copy + 1)
    ensures fs.Now() == ViewOf(fs.g, d).(fat := ViewOf(fs.g, d).fat[cluster := value % VALUE_MOD])
    ensures fs.journal == old(fs.journal) + [fs.Now()]
  {
    CopiesStep(fs.g, d, cluster / 128, data, copy);
    CopiesView(fs.g, d, cluster, value, copy + 1);
    ok := WriteBlock(fs, FatSector(fs.g, copy, sectorOffset), data);
  }

  /** The copy loop of fat32_write_fat_entry. */
  method WriteCopies(fs: Volume, ghost cluster: nat, ghost value: nat, sectorOffset: nat, data: Sector) returns (r: Status)
    requires fs.Ready() && fs.g.InRange(cluster) && sectorOffset == cluster / 128
    requires FatSector(fs.g, 0, cluster / 128) < |fs.device.sectors|
    requires data == PatchedSector(fs.device.sectors[FatSector(fs.g, 0, cluster / 128)], cluster, value)
    modifies fs`journal, fs.device
    ensures fs.Wired() && r == Ok
    ensures fs.device.sectors == CopiesWritten(fs.g, old(fs.device.sectors), cluster / 128, data, fs.g.numberOfFats)
    ensures fs.Now() == old(fs.Now()).(fat := old(fs.Now()).fat[cluster := value % VALUE_MOD])
    ensures |fs.journal| == |old(fs.journal)| + fs.g.numberOfFats && old(fs.journal) <= fs.journal
    ensures forall i | |old(fs.journal)| <= i < |fs.journal| :: fs.journal[i] == fs.Now()
  {
    hide Kept, ViewOf, PatchedSector, Mirrored, CopiesWritten, FatSector;
    CopiesNone(fs.g, fs.device.sectors, cluster / 128, data);
    ghost var view := fs.Now().(fat := fs.Now().fat[cluster := value % VALUE_MOD]);
    var copy := 0;
    while copy < fs.g.numberOfFats
      invariant 0 <= copy <= fs.g.numberOfFats
      invariant fs.Wired()
      invariant fs.device.sectors == CopiesWritten(fs.g, old(fs.device.sectors), cluster / 128, data, copy)
      invariant copy > 0 ==> fs.Now() == view
      invariant |fs.journal| == |old(fs.journal)| + copy && old(fs.journal) <= fs.journal
      invariant forall i | |old(fs.journal)| <= i < |fs.journal| :: fs.journal[i] == view
    {
      var ok := WriteCopy(fs, old(fs.device.sectors), cluster, value, copy, sectorOffset, data);
      if !ok {
        return IoError;
      }
      copy := copy + 1;
    }
    r := Ok;
  }

  /** The read-modify part of fat32_write_fat_entry: the shared buffer holds copy 0's sector with the entry replaced. */
  method PatchBuffer(fs: Volume, cluster: nat, sectorOffset: nat, offset: nat, value: nat) returns (r: Status)
    requires fs.Ready() && fs.g.InRange(cluster) && sectorOffset == cluster / 128 && offset == 4 * (cluster % 128)
    modifies fs.sectorBuffer
    ensures r == Ok && FatSector(fs.g, 0, cluster / 128) < |fs.device.sectors|
    ensures fs.sectorBuffer[..] == PatchedSector(fs.device.sectors[FatSector(fs.g, 0, cluster / 128)], cluster, value)
  {
    FatSectorBound(fs.g, 0, cluster / 128);
    var ok := fs.device.Read(fs.g.fatStart + sectorOffset, fs.sectorBuffer);
    if !ok {
      return IoError;
    }
    var oldValue := Le32(fs.sectorBuffer[..], offset);
    WriteU32(fs.sectorBuffer, offset, Merged(oldValue, value));
    return Ok;
  }

  /** fat32_write_fat_entry: the view changes at one cluster, at once and for every later boundary; the reserved bits,
      the other entries, the mirroring and every sector outside the FATs stay (Ready carries Kept). */
  method WriteFatEntry(fs: Volume, cluster: nat, value: nat) returns (r: Status)
    requires fs.Ready()
    modifies fs`journal, fs.device, fs.sectorBuffer
    ensures fs.Ready()
    ensures r == if fs.g.InRange(cluster) then Ok else Error
    ensures r == Ok ==> fs.Now() == old(fs.Now()).(fat := old(fs.Now()).fat[cluster := value % VALUE_MOD])
    ensures r == Ok && Mirrored(fs.g, old(fs.device.sectors)) ==>
              EntryWritten(fs.g, old(fs.device.sectors), fs.device.sectors, cluster, value)
    ensures r == Ok ==> |fs.journal| == |old(fs.journal)| + fs.g.numberOfFats && old(fs.journal) <= fs.journal
    ensures r == Ok ==> forall i | |old(fs.journal)| <= i < |fs.journal| :: fs.journal[i] == fs.Now()
    ensures r != Ok ==> fs.device.sectors == old(fs.device.sectors) && fs.journal == old(fs.journal)
  {
    hide ViewOf, PatchedSector, Kept, Mirrored, EntryWritten, CopiesWritten;
    if cluster < 2 {
      return Error;
    }
    if cluster > fs.g.MaxCluster() {
      return Error;
    }
    EntryAddress(cluster);
    var fatOffset := cluster * 4;
    r := PatchBuffer(fs, cluster, fatOffset / SECTOR, fatOffset % SECTOR, value);
    if r != Ok {
      return r;
    }
    CopiesKept(fs.g, fs.base, fs.device.sectors, cluster, value);
    if Mirrored(fs.g, fs.device.sectors) {
      CopiesMirrored(fs.g, fs.device.sectors, cluster, value);
    }
    r := WriteCopies(fs, cluster, value, fatOffset / SECTOR, fs.sectorBuffer[..]);
  }
}
