/** Where the model's FAT values and byte strings are on a raw disk, in plain numbers. */
module DiskLayout {
  import opened Bytes
  import opened Geometry
  import opened Volumes
  import opened Chains
  import opened Contents

  /** Byte o of sector lba is b. */
  ghost predicate ByteAt(d: Disk, lba: nat, o: nat, b: byte) {
    lba < |d| && o < 512 && d[lba][o] == b
  }

  // ---------------------------------------------------------------- the FAT

  /** A 32-bit little-endian field, byte by byte. */
  lemma Le32Is(s: seq<byte>, o: nat)
    requires o + 4 <= |s|
    ensures Le32(s, o) == s[o] as int + 256 * s[o + 1] as int + 65536 * s[o + 2] as int + 16777216 * s[o + 3] as int
  {
  }

  /** And a 16-bit one. */
  lemma Le16Is(s: seq<byte>, o: nat)
    requires o + 2 <= |s|
    ensures Le16(s, o) == s[o] as int + 256 * s[o + 1] as int
  {
  }

  /** The four bytes of cluster c's entry, 4 * c bytes into a FAT copy. */
  ghost predicate EntryBytes(g: Geometry, d: Disk, copy: nat, c: nat, b0: byte, b1: byte, b2: byte, b3: byte) {
    var lba, o := g.fatStart + copy * g.fatSize + 4 * c / 512, 4 * c % 512;
    ByteAt(d, lba, o, b0) && ByteAt(d, lba, o + 1, b1) && ByteAt(d, lba, o + 2, b2) && ByteAt(d, lba, o + 3, b3)
  }

  /** The stored word of an entry in any copy. */
  lemma RawEntryOnDisk(g: Geometry, d: Disk, copy: nat, c: nat) returns (b0: byte, b1: byte, b2: byte, b3: byte)
    requires Fits(g, d) && copy < g.numberOfFats && c < g.fatSize * 128
    ensures EntryBytes(g, d, copy, c, b0, b1, b2, b3)
    ensures RawEntry(g, d, copy, c) == b0 as int + 256 * b1 as int + 65536 * b2 as int + 16777216 * b3 as int
  {
    FatSectorIs(g, copy, c / 128);
    FatSectorBound(g, copy, c / 128);
    var lba, o := FatSector(g, copy, c / 128), 4 * (c % 128);
    assert 4 * c / 512 == c / 128 && 4 * c % 512 == o;
    b0, b1, b2, b3 := d[lba][o], d[lba][o + 1], d[lba][o + 2], d[lba][o + 3];
  }

  lemma Low28(b0: byte, b1: byte, b2: byte, b3: byte)
    ensures (b0 as int + 256 * b1 as int + 65536 * b2 as int + 16777216 * b3 as int) % VALUE_MOD
         == b0 as int + 256 * b1 as int + 65536 * b2 as int + 16777216 * (b3 as int % 16)
  {
  }

  /** What the file system takes for the entry: the low 28 bits of the word in the first copy. */
  lemma FatOnDisk(g: Geometry, d: Disk, c: nat) returns (b0: byte, b1: byte, b2: byte, b3: byte)
    requires Fits(g, d) && c <= g.totalClusters + 1
    ensures EntryBytes(g, d, 0, c, b0, b1, b2, b3) && c < |ViewOf(g, d).fat|
    ensures ViewOf(g, d).fat[c] == b0 as int + 256 * b1 as int + 65536 * b2 as int + 16777216 * (b3 as int % 16)
  {
    hide EntryBytes, RawEntry;
    b0, b1, b2, b3 := RawEntryOnDisk(g, d, 0, c);
    Low28(b0, b1, b2, b3);
  }

  /** What an entry says, by its value: 0x0FFFFFF8 and above end a chain, 0x0FFFFFF7 is a bad cluster, 0 and 1 and clusters
      off the volume are no links. */
  lemma LinkMeans(fat: seq<nat>, c: nat)
    requires c < |fat|
    ensures LinkOf(fat, c) == End <==> fat[c] >= 0x0FFF_FFF8
    ensures LinkOf(fat, c).To? <==> 2 <= fat[c] < |fat| && fat[c] < 0x0FFF_FFF7
    ensures LinkOf(fat, c).To? ==> LinkOf(fat, c).next == fat[c]
    ensures LinkOf(fat, c) == Broken <==> fat[c] < 0x0FFF_FFF8 && !(2 <= fat[c] < |fat| && fat[c] != 0x0FFF_FFF7)
    ensures EOC == 0x0FFF_FFFF
  {
  }

  // ---------------------------------------------------------------- the data area

  /** A chain of n clusters holds n times the cluster size. */
  lemma ChainLength(g: Geometry, v: View, ch: seq<nat>)
    requires Placed(g, ch) && Fitted(g, v)
    ensures |ChainBytes(g, v, ch)| == 512 * (|ch| * g.sectorsPerCluster)
  {
    TimesIsProduct(|ch|, g.sectorsPerCluster);
  }

  /** Byte p of a chain is b: byte r of its q-th cluster, that is byte r % 512 of that cluster's sector r / 512, with p taken
      apart by the cluster size. */
  ghost predicate ByteOnDisk(g: Geometry, d: Disk, ch: seq<nat>, p: nat, b: byte) {
    exists q: nat :: q < |ch| && ByteInCluster(g, d, ch[q], p - q * (512 * g.sectorsPerCluster), b)
  }

  /** Byte r of cluster c is b. The clusters, numbered from 2, stand in order from the start of the data area. */
  ghost predicate ByteInCluster(g: Geometry, d: Disk, c: nat, r: int, b: byte) {
    && 2 <= c <= g.totalClusters + 1 && 0 <= r < 512 * g.sectorsPerCluster
    && ByteAt(d, g.dataStart + (c - 2) * g.sectorsPerCluster + r / 512, r % 512, b)
  }

  lemma ByteOfSector(g: Geometry, d: Disk, c: nat, r: nat)
    requires Fits(g, d) && g.InRange(c) && r < 512 * g.sectorsPerCluster
    ensures ByteInCluster(g, d, c, r, ViewOf(g, d).data[DataIndex(g, c, r / 512)][r % 512])
  {
    hide RawEntry;
    DataIndexIs(g, c, r / 512);
  }

  /** Taking p apart. */
  lemma Apart(p: nat, n: nat)
    requires n > 0
    ensures Rem(p, 512 * n) == p - Quot(p, 512 * n) * (512 * n)
    ensures Quot(p / 512, n) == Quot(p, 512 * n) && Rem(p / 512, n) == Rem(p, 512 * n) / 512 && Rem(p, 512 * n) % 512 == p % 512
  {
    ByteSector(p, n);
    QuotRem(p, 512 * n);
    TimesIsProduct(Quot(p, 512 * n), 512 * n);
  }

  lemma ChainByteOnDisk(g: Geometry, d: Disk, ch: seq<nat>, p: nat)
    requires Fits(g, d) && Placed(g, ch) && p < |ChainBytes(g, ViewOf(g, d), ch)|
    ensures ByteOnDisk(g, d, ch, p, ChainBytes(g, ViewOf(g, d), ch)[p])
  {
    hide Quot, Rem, Times, DataIndex, ViewOf, ByteInCluster;
    ChainSectorOf(g, ch, p / 512);
    Apart(p, g.sectorsPerCluster);
    var q := Quot(p, 512 * g.sectorsPerCluster);
    ByteOfSector(g, d, ch[q], Rem(p, 512 * g.sectorsPerCluster));
  }

  /** No other byte is there. */
  lemma ByteOnDiskUnique(g: Geometry, d: Disk, ch: seq<nat>, p: nat, b: byte, c: byte)
    requires ByteOnDisk(g, d, ch, p, b) && ByteOnDisk(g, d, ch, p, c)
    ensures b == c
  {
    hide ByteInCluster;
    var q: nat :| q < |ch| && ByteInCluster(g, d, ch[q], p - q * (512 * g.sectorsPerCluster), b);
    var k: nat :| k < |ch| && ByteInCluster(g, d, ch[k], p - k * (512 * g.sectorsPerCluster), c);
    InCluster(g, d, ch[q], p - q * (512 * g.sectorsPerCluster), b);
    InCluster(g, d, ch[k], p - k * (512 * g.sectorsPerCluster), c);
    OneQuotient(q, k, 512 * g.sectorsPerCluster, p);
    SameByte(g, d, ch[q], p - q * (512 * g.sectorsPerCluster), b, c);
  }

  lemma InCluster(g: Geometry, d: Disk, c: nat, r: int, b: byte)
    requires ByteInCluster(g, d, c, r, b)
    ensures 0 <= r < 512 * g.sectorsPerCluster
  {
  }

  lemma SameByte(g: Geometry, d: Disk, c: nat, r: int, b: byte, b': byte)
    requires ByteInCluster(g, d, c, r, b) && ByteInCluster(g, d, c, r, b')
    ensures b == b'
  {
  }

  lemma OneQuotient(q: nat, k: nat, n: nat, p: int)
    requires 0 <= p - q * n < n && 0 <= p - k * n < n
    ensures q == k
  {
    TimesIsProduct(q, n);
    TimesIsProduct(k, n);
    QuotRemUnique(p, n, q, p - q * n);
    QuotRemUnique(p, n, k, p - k * n);
  }
}
