/** fat32_mount: from a boot sector to a geometry. */
module Mounting {
  import opened Bytes
  import opened Geometry
  import opened Volumes

  // ---------------------------------------------------------------- the fields of the boot sector

  function BytesPerSector(s: Sector): nat { Le16(s, 11) }
  function SectorsPerCluster(s: Sector): nat { var b: int := s[13]; b }
  function ReservedSectors(s: Sector): nat { Le16(s, 14) }
  function NumberOfFats(s: Sector): nat { var b: int := s[16]; b }
  function RootEntryCount(s: Sector): nat { Le16(s, 17) }
  function TotalSectors(s: Sector): nat { if Le16(s, 19) != 0 then Le16(s, 19) else Le32(s, 32) }
  function FatSize(s: Sector): nat { Le32(s, 36) }
  function RootCluster(s: Sector): nat { Le32(s, 44) }

  /** The start of the data area in 32-bit arithmetic: both the product and the sum may wrap around. */
  function DataStart(s: Sector): nat {
    (ReservedSectors(s) + NumberOfFats(s) * FatSize(s) % U32) % U32
  }

  predicate Signed(s: Sector) {
    s[510] == 0x55 && s[511] == 0xAA
  }

  /** The checks that come before those for the FAT type. */
  predicate WellFramed(s: Sector) {
    && Signed(s) && BytesPerSector(s) == 512 && SectorsPerCluster(s) in {1, 2, 4, 8, 16, 32, 64, 128}
    && ReservedSectors(s) > 0 && NumberOfFats(s) > 0
  }

  /** Too few clusters for FAT32, by the FAT type rule of section "FAT Type Determination" of the FAT32 specification. */
  predicate TooSmall(s: Sector) {
    && SectorsPerCluster(s) > 0 && DataStart(s) < TotalSectors(s)
    && (TotalSectors(s) - DataStart(s)) / SectorsPerCluster(s) < 65525
  }

  /** The boot sectors fat32_mount accepts. */
  predicate Acceptable(s: Sector) {
    && Signed(s) && BytesPerSector(s) == 512 && SectorsPerCluster(s) in {1, 2, 4, 8, 16, 32, 64, 128}
    && ReservedSectors(s) > 0 && NumberOfFats(s) > 0 && RootEntryCount(s) == 0 && FatSize(s) > 0
    && DataStart(s) < TotalSectors(s)
    && (TotalSectors(s) - DataStart(s)) / SectorsPerCluster(s) >= 65525
    && RootCluster(s) >= 2
  }

  /** What it stores. */
  function GeometryOf(s: Sector): Geometry
    requires Acceptable(s)
  {
    Geometry(SectorsPerCluster(s), NumberOfFats(s), FatSize(s), TotalSectors(s), RootCluster(s), ReservedSectors(s),
             DataStart(s), (TotalSectors(s) - DataStart(s)) / SectorsPerCluster(s))
  }

  predicate PowerOfTwo(b: bv32) {
    b in {0x1, 0x2, 0x4, 0x8, 0x10, 0x20, 0x40, 0x80, 0x100, 0x200, 0x400, 0x800, 0x1000, 0x2000, 0x4000, 0x8000,
          0x1_0000, 0x2_0000, 0x4_0000, 0x8_0000, 0x10_0000, 0x20_0000, 0x40_0000, 0x80_0000,
          0x100_0000, 0x200_0000, 0x400_0000, 0x800_0000, 0x1000_0000, 0x2000_0000, 0x4000_0000, 0x8000_0000}
  }

  /** is_power_of_two: n and n - 1 have no bit in common. */
  method IsPowerOfTwo(value: bv32) returns (yes: bool)
    ensures yes <==> PowerOfTwo(value)
  {
    yes := value != 0 && value & (value - 1) == 0;
  }

  /** A byte of the boot sector, widened for that test. */
  function Widened(b: byte): bv32 {
    (b as int as bv8) as bv32
  }

  lemma PowersInByte(b: byte)
    ensures PowerOfTwo(Widened(b)) <==> b in {1, 2, 4, 8, 16, 32, 64, 128}
  {
    PowersInBits(b as int as bv8);
    BitsOf(b);
  }

  lemma PowersInBits(b: bv8)
    ensures PowerOfTwo(b as bv32) <==> b in {1, 2, 4, 8, 16, 32, 64, 128}
  {
  }

  lemma BitsOf(value: byte)
    ensures (value as int as bv8 == 1 <==> value == 1) && (value as int as bv8 == 2 <==> value == 2)
    ensures (value as int as bv8 == 4 <==> value == 4) && (value as int as bv8 == 8 <==> value == 8)
    ensures (value as int as bv8 == 16 <==> value == 16) && (value as int as bv8 == 32 <==> value == 32)
    ensures (value as int as bv8 == 64 <==> value == 64) && (value as int as bv8 == 128 <==> value == 128)
  {
  }

  /** An accepted boot sector describes a geometry that satisfies what mount checks. */
  lemma AcceptableMounted(s: Sector)
    requires Acceptable(s)
    ensures GeometryOf(s).Mounted()
  {
    hide Le16, Le32;
  }

  /** fat32_mount: the geometry of the boot sector if that is acceptable; otherwise the first check that fails. */
  method Mount(device: BlockDevice, buffer: array<byte>) returns (r: Status, g: Geometry)
    requires buffer.Length == SECTOR
    modifies buffer
    ensures r == Ok <==> device.sectorSize == SECTOR && |device.sectors| > 0 && Acceptable(device.sectors[0])
    ensures r == Ok ==> g == GeometryOf(device.sectors[0]) && g.Mounted()
    ensures r == InvalidBootSector <==> device.sectorSize == SECTOR && |device.sectors| > 0 && !Signed(device.sectors[0])
    ensures r == NotFat32 <==>
              && device.sectorSize == SECTOR && |device.sectors| > 0 && WellFramed(device.sectors[0])
              && (RootEntryCount(device.sectors[0]) != 0 || FatSize(device.sectors[0]) == 0 || TooSmall(device.sectors[0]))
    ensures r in {Ok, IoError, InvalidBootSector, InvalidBpb, NotFat32}
    ensures r == IoError <==> device.sectorSize == SECTOR && |device.sectors| == 0
  {
    hide Le16, Le32, Geometry.Mounted, Zeros, PowerOfTwo, Widened;
    g := Geometry(0, 0, 0, 0, 0, 0, 0, 0);
    if device.sectorSize != SECTOR {
      return InvalidBpb, g;
    }
    var ok := device.Read(0, buffer);
    if !ok {
      return IoError, g;
    }
    if buffer[510] != 0x55 || buffer[511] != 0xAA {
      return InvalidBootSector, g;
    }
    var s: Sector := buffer[..];
    if BytesPerSector(s) != 512 {
      return InvalidBpb, g;
    }
    var power := IsPowerOfTwo(Widened(s[13]));
    PowersInByte(s[13]);
    if !power {
      return InvalidBpb, g;
    }
    if ReservedSectors(s) == 0 {
      return InvalidBpb, g;
    }
    if NumberOfFats(s) == 0 {
      return InvalidBpb, g;
    }
    if RootEntryCount(s) != 0 {
      return NotFat32, g;
    }
    if FatSize(s) == 0 {
      return NotFat32, g;
    }
    var totalSectors := TotalSectors(s);
    if totalSectors == 0 {
      return InvalidBpb, g;
    }
    var fatStart := ReservedSectors(s);
    var dataStart := (fatStart + NumberOfFats(s) * FatSize(s) % U32) % U32;
    if dataStart >= totalSectors {
      return InvalidBpb, g;
    }
    var dataSectors := totalSectors - dataStart;
    var totalClusters := dataSectors / SectorsPerCluster(s);
    if totalClusters < 65525 {
      return NotFat32, g;
    }
    if RootCluster(s) < 2 {
      return InvalidBpb, g;
    }
    AcceptableMounted(s);
    g := Geometry(SectorsPerCluster(s), NumberOfFats(s), FatSize(s), totalSectors, RootCluster(s), fatStart, dataStart, totalClusters);
    return Ok, g;
  }

  /** Mounting, as far as a volume every other operation works on; that the geometry is sound and fits the device is what
      fat32_mount does not check. */
  method MountVolume(device: BlockDevice, buffer: array<byte>) returns (r: Status, fs: Volume?)
    requires buffer.Length == SECTOR && device.trace == []
    requires |device.sectors| > 0 && Acceptable(device.sectors[0]) ==>
               GeometryOf(device.sectors[0]).Sound() && TotalSectors(device.sectors[0]) <= |device.sectors|
    modifies buffer
    ensures r == Ok <==> device.sectorSize == SECTOR && |device.sectors| > 0 && Acceptable(device.sectors[0])
    ensures r == Ok <==> fs != null
    ensures r == Ok ==> fresh(fs) && fs.Ready() && fs.g == GeometryOf(device.sectors[0]) && fs.journal == []
    ensures r == Ok ==> fs.device == device && fs.sectorBuffer == buffer && fs.base == device.sectors
  {
    hide Le16, Le32, Geometry.Mounted, Geometry.Sound, Kept, ViewOf;
    fs := null;
    var g;
    r, g := Mount(device, buffer);
    if r != Ok {
      return;
    }
    MountedValid(g);
    fs := new Volume(g, device, buffer);
  }

  // ---------------------------------------------------------------- what mount does not check

  /** A boot sector with these fields. */
  function BootSector(spc: byte, nfats: byte, total: nat, fatSize: nat, root: nat): (s: Sector)
    requires total < U32 && fatSize < U32 && root < U32
  {
    Zeros(11) + Enc16(512) + [spc] + Enc16(32) + [nfats] + Zeros(15) + Enc32(total) + Enc32(fatSize) + Zeros(4) + Enc32(root)
    + Zeros(462) + [0x55, 0xAA]
  }

  lemma BootFields(spc: byte, nfats: byte, total: nat, fatSize: nat, root: nat)
    requires total < U32 && fatSize < U32 && root < U32
    ensures var s := BootSector(spc, nfats, total, fatSize, root);
            && Signed(s) && BytesPerSector(s) == 512 && s[13] == spc && ReservedSectors(s) == 32 && s[16] == nfats
            && RootEntryCount(s) == 0 && TotalSectors(s) == total && FatSize(s) == fatSize && RootCluster(s) == root
  {
    var s := BootSector(spc, nfats, total, fatSize, root);
    var a, b, c, d := Enc16(512), Enc32(total), Enc32(fatSize), Enc32(root);
    assert s[11] == a[0] && s[12] == a[1];
    assert s[32] == b[0] && s[33] == b[1] && s[34] == b[2] && s[35] == b[3];
    assert s[36] == c[0] && s[37] == c[1] && s[38] == c[2] && s[39] == c[3];
    assert s[44] == d[0] && s[45] == d[1] && s[46] == d[2] && s[47] == d[3];
    Enc32Digits(total);
    Enc32Digits(fatSize);
    Enc32Digits(root);
  }

  lemma BootGeometry(nfats: byte, total: nat, fatSize: nat, root: nat, start: nat)
    requires total < U32 && 0 < fatSize < U32 && 2 <= root < U32 && nfats > 0
    requires start == (32 + nfats as nat * fatSize % U32) % U32 && 65525 <= total - start
    ensures var s := BootSector(1, nfats, total, fatSize, root);
            Acceptable(s) && GeometryOf(s) == Geometry(1, nfats as nat, fatSize, total, root, 32, start, total - start)
  {
    hide Le16, Le32, BootSector;
    BootFields(1, nfats, total, fatSize, root);
  }

  /** Each of the four conditions fails, and it alone, on some boot sector that fat32_mount accepts: FATs whose size wraps
      around to zero, FATs too small for the clusters, clusters beyond the bad-cluster mark, a root cluster off the volume. */
  lemma MountAcceptsUnsound(k: nat) returns (s: Sector)
    requires k < 4
    ensures Acceptable(s)
    ensures var g := GeometryOf(s);
            && (g.fatStart + g.numberOfFats * g.fatSize < U32 <==> k != 0)
            && (g.totalClusters + 2 <= g.fatSize * 128 <==> k != 1)
            && (g.MaxCluster() < BAD <==> k != 2)
            && (g.rootCluster <= g.MaxCluster() <==> k != 3)
    ensures !GeometryOf(s).Sound()
  {
    hide Acceptable, GeometryOf, BootSector;
    if k == 0 {
      s := BootSector(1, 2, 0x2_0000, 0x8000_0000, 2);
      BootGeometry(2, 0x2_0000, 0x8000_0000, 2, 32);
    } else if k == 1 {
      s := BootSector(1, 1, 70000, 1, 2);
      BootGeometry(1, 70000, 1, 2, 33);
    } else if k == 2 {
      s := BootSector(1, 1, 0xFFFF_FFFF, 0x200_0000, 2);
      BootGeometry(1, 0xFFFF_FFFF, 0x200_0000, 2, 32 + 0x200_0000);
    } else {
      s := BootSector(1, 2, 70000, 600, 0xFFFF_FFFF);
      BootGeometry(2, 70000, 600, 0xFFFF_FFFF, 1232);
    }
  }

  // ---------------------------------------------------------------- the boot sector in plain numbers

  function Word(s: Sector, o: nat): nat
    requires o + 2 <= 512
  {
    s[o] as int + 256 * s[o + 1] as int
  }

  function Long(s: Sector, o: nat): nat
    requires o + 4 <= 512
  {
    s[o] as int + 256 * s[o + 1] as int + 65536 * s[o + 2] as int + 16777216 * s[o + 3] as int
  }

  /** The fields of the boot sector, as the FAT specification numbers their bytes: bytes per sector at 11, sectors per cluster
      at 13, reserved sectors at 14, FATs at 16, root entries at 17, sectors at 19 or else at 32, sectors per FAT at 36, root
      cluster at 44, signature at 510. */
  lemma FieldsMean(s: Sector)
    ensures BytesPerSector(s) == Word(s, 11) && SectorsPerCluster(s) == s[13] as int && ReservedSectors(s) == Word(s, 14)
    ensures NumberOfFats(s) == s[16] as int && RootEntryCount(s) == Word(s, 17)
    ensures TotalSectors(s) == (if Word(s, 19) != 0 then Word(s, 19) else Long(s, 32))
    ensures FatSize(s) == Long(s, 36) && RootCluster(s) == Long(s, 44)
    ensures DataStart(s) == (Word(s, 14) + s[16] as int * Long(s, 36) % 0x1_0000_0000) % 0x1_0000_0000
    ensures Signed(s) <==> s[510] == 0x55 && s[511] == 0xAA
  {
    hide Le16, Le32;
    LittleEndian(s);
  }

  lemma LittleEndian(s: Sector)
    ensures forall o: nat {:trigger Le16(s, o)} | o + 2 <= 512 :: Le16(s, o) == Word(s, o)
    ensures forall o: nat {:trigger Le32(s, o)} | o + 4 <= 512 :: Le32(s, o) == Long(s, o)
  {
  }

  /** What fat32_mount accepts, and what it answers otherwise. */
  lemma AcceptableMeans(s: Sector)
    ensures Acceptable(s) <==>
            && s[510] == 0x55 && s[511] == 0xAA && Word(s, 11) == 512 && s[13] in {1, 2, 4, 8, 16, 32, 64, 128}
            && Word(s, 14) >= 1 && s[16] >= 1 && Word(s, 17) == 0 && Long(s, 36) >= 1
            && DataStart(s) + 65525 * SectorsPerCluster(s) <= TotalSectors(s) && Long(s, 44) >= 2
    ensures Acceptable(s) ==>
              && GeometryOf(s).sectorsPerCluster == s[13] as int && GeometryOf(s).numberOfFats == s[16] as int
              && GeometryOf(s).fatSize == Long(s, 36) && GeometryOf(s).totalSectors == TotalSectors(s)
              && GeometryOf(s).rootCluster == Long(s, 44) && GeometryOf(s).fatStart == Word(s, 14)
              && GeometryOf(s).dataStart == DataStart(s)
              && 0 <= TotalSectors(s) - DataStart(s) - GeometryOf(s).totalClusters * s[13] as int < s[13] as int
    ensures WellFramed(s) <==>
            && s[510] == 0x55 && s[511] == 0xAA && Word(s, 11) == 512 && s[13] in {1, 2, 4, 8, 16, 32, 64, 128}
            && Word(s, 14) >= 1 && s[16] >= 1
    ensures TooSmall(s) <==>
            s[13] >= 1 && DataStart(s) < TotalSectors(s) < DataStart(s) + 65525 * SectorsPerCluster(s)
  {
    hide Le16, Le32, DataStart, TotalSectors, Word, Long;
    FieldsMean(s);
    if s[13] >= 1 && DataStart(s) < TotalSectors(s) {
      AtLeast(TotalSectors(s) - DataStart(s), SectorsPerCluster(s), 65525);
    }
  }

  lemma AtLeast(a: nat, n: nat, k: nat)
    requires n > 0
    ensures a / n >= k <==> a >= k * n
    ensures 0 <= a - a / n * n < n
  {
    TimesIsProduct(k, n);
    QuotIsDivision(a, n);
    QuotLess(a, n, k);
    assert a == a / n * n + a % n;
  }
}
