/** Open files, and fat32_read as a reader of the byte string a chain holds. */
module FileRead {
  import opened Bytes
  import opened Geometry
  import opened Volumes
  import opened Chains
  import opened Allocation
  import opened Contents
  import opened DiskLayout

  /** fat32_file_t; the volume it belongs to is passed alongside. */
  class FileHandle {
    var firstCluster: nat
    var size: nat
    var position: nat
    var directoryCluster: nat
    var entryIndex: nat
    var directory: bool

    constructor ()
    {
      firstCluster, size, position, directoryCluster, entryIndex, directory := 0, 0, 0, 0, 0, false;
    }
  }

  /** ch is the chain of a file with that first cluster and size: none for a file without clusters, otherwise a chain
      with room for the size. */
  ghost predicate Stores(g: Geometry, v: View, first: nat, size: nat, ch: seq<nat>) {
    && Fitted(g, v) && Placed(g, ch)
    && size <= 512 * Sectors(g, |ch|)
    && if ch == [] then first == 0 else IsChain(v.fat, ch) && ch[0] == first
  }

  /** The bytes a reader of the file sees. */
  ghost function Content(g: Geometry, v: View, ch: seq<nat>, size: nat): (b: seq<byte>)
    requires Fitted(g, v) && Placed(g, ch) && size <= 512 * Sectors(g, |ch|)
    ensures |b| == size
  {
    ChainBytes(g, v, ch)[..size]
  }

  /** ch is what a reader of a file with that first cluster comes by: nothing for a first cluster below 2, that cluster alone
      for one beyond the volume, otherwise a run of links from it that has room for the size or ends where no link leads on. */
  ghost predicate Walked(g: Geometry, v: View, first: nat, size: nat, ch: seq<nat>) {
    && g.Valid() && Fitted(g, v)
    && if first < 2 then ch == []
       else if first > g.MaxCluster() then ch == [first]
       else
         && IsTrail(v.fat, ch) && ch[0] == first && OnVolume(v.fat, ch[|ch| - 1])
         && (size <= 512 * Sectors(g, |ch|) || !LinkOf(v.fat, ch[|ch| - 1]).To?)
  }

  /** There is such a run on every FAT, cyclic and broken ones included, and for every first cluster. */
  lemma WalkedExists(g: Geometry, v: View, first: nat, size: nat) returns (ch: seq<nat>)
    requires g.Valid() && Fitted(g, v)
    ensures Walked(g, v, first, size, ch)
  {
    ch := [];
    if first > g.MaxCluster() {
      ch := [first];
    } else if first >= 2 {
      ch := TrailExists(v.fat, first, size);
      TrailPlaced(g, v, ch);
      TimesAtLeast(|ch|, g.sectorsPerCluster);
    }
  }

  /** The clusters of a run are on the volume, or its only one is beyond it. */
  ghost predicate Reached(g: Geometry, ch: seq<nat>) {
    g.Valid() && (Placed(g, ch) || (|ch| == 1 && ch[0] > g.MaxCluster()))
  }

  /** The first n sectors of a disk. */
  ghost function FirstBytes(d: Disk, n: nat): (b: seq<byte>)
    requires n <= |d|
    ensures |b| == 512 * n
  {
    if n == 0 then [] else FirstBytes(d, n - 1) + d[n - 1]
  }

  /** What is read along a run: the bytes of its clusters. A cluster beyond the volume has address 0, and is read from there. */
  ghost function ReadBytes(g: Geometry, d: Disk, ch: seq<nat>): (b: seq<byte>)
    requires Fits(g, d) && Reached(g, ch)
    ensures |b| == 512 * Sectors(g, |ch|)
  {
    if Placed(g, ch) then ChainBytes(g, ViewOf(g, d), ch)
    else OneCluster(g, d); FirstBytes(d, g.sectorsPerCluster)
  }

  lemma OneCluster(g: Geometry, d: Disk)
    requires Fits(g, d)
    ensures g.sectorsPerCluster <= |d| && Sectors(g, 1) == g.sectorsPerCluster
  {
    TimesMonotone(1, g.totalClusters, g.sectorsPerCluster);
    TimesIsProduct(1, g.sectorsPerCluster);
  }

  lemma {:induction false} FirstBytesAt(d: Disk, n: nat, k: nat)
    requires k < n <= |d|
    ensures FirstBytes(d, n)[512 * k..512 * k + 512] == d[k]
  {
    if k < n - 1 {
      FirstBytesAt(d, n - 1, k);
    }
  }

  lemma {:induction false} TimesAtLeast(k: nat, n: nat)
    requires n > 0
    ensures Times(k, n) >= k
    decreases k
  {
    if k > 0 {
      TimesAtLeast(k - 1, n);
    }
  }

  /** A chain with room for the size is one. */
  lemma StoresWalked(g: Geometry, v: View, first: nat, size: nat, ch: seq<nat>)
    requires g.Valid() && Stores(g, v, first, size, ch)
    ensures Walked(g, v, first, size, ch) && |ch| <= g.totalClusters && size <= 512 * Sectors(g, |ch|) && Placed(g, ch)
  {
    if ch != [] {
      PathLength(v.fat, ch);
      PathStep(v.fat, ch, |ch| - 1);
    }
  }

  lemma TrailPlaced(g: Geometry, v: View, ch: seq<nat>)
    requires g.Valid() && Fitted(g, v) && IsTrail(v.fat, ch)
    ensures Placed(g, ch)
  {
    forall i | 0 <= i < |ch| ensures g.InRange(ch[i]) {
      assert OnVolume(v.fat, ch[i]);
    }
  }

  lemma ChainPlaced(g: Geometry, v: View, ch: seq<nat>)
    requires g.Valid() && Fitted(g, v) && IsPath(v.fat, ch)
    ensures Placed(g, ch)
  {
    forall i | 0 <= i < |ch| ensures g.InRange(ch[i]) {
      PathStep(v.fat, ch, i);
    }
  }

  /** What dividing a file position by the cluster size says about the sector that holds it. */
  lemma Locate(g: Geometry, ch: seq<nat>, p: nat)
    requires Placed(g, ch) && p < 512 * Sectors(g, |ch|)
    ensures Quot(p, g.ClusterSize()) < |ch| && p / 512 < Sectors(g, |ch|)
    ensures var r := Rem(p, g.ClusterSize()); r / 512 < g.sectorsPerCluster && r % 512 == p % 512
    ensures ChainSector(g, ch, p / 512) == DataIndex(g, ch[Quot(p, g.ClusterSize())], Rem(p, g.ClusterSize()) / 512)
  {
    ByteSector(p, g.sectorsPerCluster);
    ChainSectorOf(g, ch, p / 512);
  }

  /** Moving on within a sector either stays in the cluster or lands on the start of the next. */
  lemma Advance(g: Geometry, p: nat, amount: nat)
    requires g.Valid() && p % 512 + amount <= 512
    ensures var r := Rem(p, g.ClusterSize());
            && r + amount <= g.ClusterSize()
            && Quot(p + amount, g.ClusterSize()) == Quot(p, g.ClusterSize()) + (if r + amount == g.ClusterSize() then 1 else 0)
            && Rem(p + amount, g.ClusterSize()) == if r + amount == g.ClusterSize() then 0 else r + amount
  {
    var n := g.ClusterSize();
    var q, r := Quot(p, n), Rem(p, n);
    ByteSector(p, g.sectorsPerCluster);
    QuotRem(p, n);
    assert r / 512 < g.sectorsPerCluster && r % 512 + amount <= 512;
    assert r + amount <= n;
    if r + amount == n {
      QuotRemUnique(p + amount, n, q + 1, 0);
    } else {
      QuotRemUnique(p + amount, n, q, r + amount);
    }
  }

  /** The byte-copy loop out of the sector buffer. */
  method CopyOut(output: array<byte>, at: nat, source: array<byte>, from: nat, amount: nat)
    requires output != source && at + amount <= output.Length && from + amount <= source.Length
    modifies output
    ensures output[..] == Splice(old(output[..]), at, source[from..from + amount])
  {
    hide Splice;
    ghost var o, s := output[..], source[..];
    SpliceNone(o, at);
    assert s[from..from] == [];
    var i := 0;
    while i < amount
      invariant 0 <= i <= amount && source[..] == s
      invariant output[..] == Splice(o, at, s[from..from + i])
    {
      SpliceNext(o, at, s, from, i);
      output[at + i] := source[from + i];
      i := i + 1;
    }
  }

  lemma SliceOfSlice<T>(b: seq<T>, o: nat, n: nat, i: nat, m: nat)
    requires o + n <= |b| && i + m <= n
    ensures b[o..o + n][i..i + m] == b[o + i..o + i + m]
  {
    var x, y := b[o..o + n][i..i + m], b[o + i..o + i + m];
    assert |x| == |y|;
    forall j | 0 <= j < m ensures x[j] == y[j] {
      assert b[o..o + n][i + j] == b[o + (i + j)];
    }
  }

  /** Position p of the run of clusters is at that offset of that cluster. */
  ghost predicate Standing(g: Geometry, ch: seq<nat>, p: nat, cluster: nat, offset: nat) {
    && g.Valid() && p < 512 * Sectors(g, |ch|) && Quot(p, g.ClusterSize()) < |ch|
    && cluster == ch[Quot(p, g.ClusterSize())] && offset == Rem(p, g.ClusterSize())
  }

  /** The address a position is read from holds its sector. */
  lemma Addressed(g: Geometry, d: Disk, ch: seq<nat>, p: nat, cluster: nat, offset: nat)
    requires Fits(g, d) && Reached(g, ch) && Standing(g, ch, p, cluster, offset)
    ensures offset % 512 == p % 512 && p / 512 < Sectors(g, |ch|)
    ensures var lba := ClusterToLba(g, cluster) + offset / 512;
            lba < |d| && ReadBytes(g, d, ch)[512 * (p / 512)..512 * (p / 512) + 512] == d[lba]
  {
    hide ChainBytes, ChainSector, Quot, Rem, Times;
    if Placed(g, ch) {
      Locate(g, ch, p);
      ClusterToLbaPlaces(g, cluster, offset / 512);
      ChainBytesSector(g, ViewOf(g, d), ch, p / 512);
    } else {
      OneCluster(g, d);
      QuotRem(p, g.ClusterSize());
      NoneBefore(g.ClusterSize());
      FirstBytesAt(d, g.sectorsPerCluster, p / 512);
    }
  }

  lemma NoneBefore(n: nat)
    ensures Times(0, n) == 0
  {
  }

  /** One turn of the transfer loop of fat32_read: deliver the part of one sector that is wanted. */
  method ReadPiece(fs: Volume, output: array<byte>, done: nat, cluster: nat, clusterOffset: nat, wanted: nat,
                   ghost ch: seq<nat>, ghost p: nat)
    returns (r: Status, amount: nat)
    requires fs.Ready() && fs.sectorBuffer != output && Reached(fs.g, ch) && Standing(fs.g, ch, p, cluster, clusterOffset)
    requires wanted > 0 && done + wanted <= output.Length
    modifies output, fs.sectorBuffer
    ensures r == Ok && 0 < amount <= wanted && p % 512 + amount <= 512 && p + amount <= 512 * Sectors(fs.g, |ch|)
    ensures output[..] == Splice(old(output[..]), done, ReadBytes(fs.g, fs.device.sectors, ch)[p..p + amount])
  {
    hide Kept, ViewOf, ReadBytes, Standing, Reached, ClusterToLba, Times;
    Addressed(fs.g, fs.device.sectors, ch, p, cluster, clusterOffset);
    amount := 0;
    var sectorInCluster := clusterOffset / SECTOR;
    var offsetInSector := clusterOffset % SECTOR;
    var lba := ClusterToLba(fs.g, cluster) + sectorInCluster;
    var ok := fs.device.Read(lba, fs.sectorBuffer);
    if !ok {
      r := IoError;
      return;
    }
    var available := SECTOR - offsetInSector;
    amount := if wanted < available then wanted else available;
    CopyOut(output, done, fs.sectorBuffer, offsetInSector, amount);
    ghost var k := p / 512;
    SliceOfSlice(ReadBytes(fs.g, fs.device.sectors, ch), 512 * k, 512, p % 512, amount);
    assert 512 * k + p % 512 == p;
    r := Ok;
  }

  /** The link step of the transfer loops: from the chain's q-th cluster to the next. */
  method NextInChain(fs: Volume, cluster: nat, ghost ch: seq<nat>, ghost q: nat) returns (r: Status, next: nat)
    requires fs.Ready() && IsChain(fs.Now().fat, ch) && q + 1 < |ch| && cluster == ch[q]
    modifies fs.sectorBuffer
    ensures r == Ok && next == ch[q + 1]
  {
    hide Kept, ViewOf;
    PathStep(fs.Now().fat, ch, q);
    r, next := NextCluster(fs, cluster);
  }

  lemma SpliceGrow(s: seq<byte>, b: seq<byte>, start: nat, p: nat, amount: nat)
    requires start <= p && p + amount <= |b| && p + amount - start <= |s|
    ensures Splice(s, 0, b[start..start]) == s
    ensures Splice(Splice(s, 0, b[start..p]), p - start, b[p..p + amount]) == Splice(s, 0, b[start..p + amount])
  {
    assert b[start..p] + b[p..p + amount] == b[start..p + amount];
    SpliceAdjacent(s, 0, b[start..p], b[p..p + amount]);
  }

  /** The link step of fat32_read: on to the next cluster of the run, or the error a chain that is too short comes to. */
  method NextOfTrail(fs: Volume, cluster: nat, ghost ch: seq<nat>, ghost q: nat) returns (r: Status, next: nat)
    requires fs.Ready() && q < |ch| && cluster == ch[q]
    requires if fs.g.InRange(cluster) then
               IsTrail(fs.Now().fat, ch) && (q + 1 < |ch| || !LinkOf(fs.Now().fat, cluster).To?)
             else q + 1 == |ch|
    modifies fs.sectorBuffer
    ensures if q + 1 < |ch| then r == Ok && next == ch[q + 1] else r == Error
  {
    hide Kept, ViewOf;
    assert q + 1 < |ch| ==> LinkOf(fs.Now().fat, ch[q]) == To(ch[q + 1]);
    r, next := NextCluster(fs, cluster);
    if r == EndOfFile {
      r := Error;
      return;
    }
  }

  /** The transfer loop of fat32_read: as much of what is wanted as the run of clusters holds, and an error if that is not
      all. */
  method ReadLoop(fs: Volume, file: FileHandle, output: array<byte>, want: nat, startCluster: nat, ghost ch: seq<nat>)
    returns (r: Status, bytesRead: nat)
    requires fs.Ready() && fs.sectorBuffer != output && want <= output.Length && file.position + want <= file.size
    requires Walked(fs.g, fs.Now(), file.firstCluster, file.size, ch) && file.firstCluster >= 2 && Reached(fs.g, ch)
    requires Standing(fs.g, ch, file.position, startCluster, Rem(file.position, fs.g.ClusterSize()))
    modifies file`position, output, fs.sectorBuffer
    ensures bytesRead == Min(want, 512 * Sectors(fs.g, |ch|) - old(file.position))
    ensures r == (if bytesRead == want then Ok else Error) && file.position == old(file.position) + bytesRead
    ensures output[..] == Splice(old(output[..]), 0,
                                 ReadBytes(fs.g, fs.device.sectors, ch)[old(file.position)..file.position])
  {
    hide Kept, ViewOf, ReadBytes, Quot, Rem, Splice, Placed, Walked, IsTrail, Times, Standing, Reached;
    bytesRead := 0;
    var clusterSize := fs.g.ClusterSize();
    var clusterOffset := Rem(file.position, clusterSize);
    var cluster := startCluster;
    ghost var v := fs.Now();
    ghost var b := ReadBytes(fs.g, fs.device.sectors, ch);
    ghost var start := file.position;
    ghost var out := output[..];
    StandingFacts(fs.g, ch, start, cluster, clusterOffset);
    SpliceGrow(out, b, start, start, 0);
    while bytesRead < want
      invariant 0 <= bytesRead <= want && file.position == start + bytesRead <= |b|
      invariant fs.Ready() && fs.Now() == v
      invariant output[..] == Splice(out, 0, b[start..start + bytesRead])
      invariant bytesRead < want ==> Standing(fs.g, ch, file.position, cluster, clusterOffset)
    {
      ghost var p, offset := file.position, clusterOffset;
      var amount;
      r, amount := ReadPiece(fs, output, bytesRead, cluster, clusterOffset, want - bytesRead, ch, p);
      if r != Ok {
        return;
      }
      MovesOn(fs.g, ch, p, amount, cluster, offset);
      SpliceGrow(out, b, start, p, amount);
      assert output[..] == Splice(out, 0, b[start..p + amount]);
      bytesRead := bytesRead + amount;
      file.position := file.position + amount;
      clusterOffset := clusterOffset + amount;
      if clusterOffset >= clusterSize {
        clusterOffset := 0;
        if bytesRead >= want {
          break;
        }
        AtBoundary(fs.g, v, file.firstCluster, file.size, ch, p, amount, cluster, offset);
        var next;
        r, next := NextOfTrail(fs, cluster, ch, Quot(p, clusterSize));
        if r != Ok {
          return;
        }
        cluster := next;
      }
    }
    r := Ok;
  }

  lemma WalkedReached(g: Geometry, v: View, first: nat, size: nat, ch: seq<nat>)
    requires Walked(g, v, first, size, ch)
    ensures Reached(g, ch)
  {
    if 2 <= first <= g.MaxCluster() {
      TrailPlaced(g, v, ch);
    }
  }

  lemma StandingFacts(g: Geometry, ch: seq<nat>, p: nat, cluster: nat, offset: nat)
    requires Standing(g, ch, p, cluster, offset)
    ensures g.Valid() && p < 512 * Sectors(g, |ch|) && offset == Rem(p, g.ClusterSize())
  {
  }

  /** Moving on within a sector stays in the cluster, or comes to its end. */
  lemma MovesOn(g: Geometry, ch: seq<nat>, p: nat, amount: nat, cluster: nat, offset: nat)
    requires Standing(g, ch, p, cluster, offset) && p % 512 + amount <= 512
    ensures offset + amount <= g.ClusterSize()
    ensures offset + amount < g.ClusterSize() ==> Standing(g, ch, p + amount, cluster, offset + amount)
    ensures offset + amount == g.ClusterSize() ==>
              Quot(p + amount, g.ClusterSize()) == Quot(p, g.ClusterSize()) + 1 && Rem(p + amount, g.ClusterSize()) == 0
  {
    hide Quot, Rem, Times;
    Advance(g, p, amount);
    WithinCluster(g, ch, p + amount);
  }

  /** At the end of a cluster the run either goes on or is at its end. */
  lemma AtBoundary(g: Geometry, v: View, first: nat, size: nat, ch: seq<nat>, p: nat, amount: nat, cluster: nat,
                   offset: nat)
    requires Walked(g, v, first, size, ch) && first >= 2 && p + amount < size
    requires Standing(g, ch, p, cluster, offset) && Rem(p + amount, g.ClusterSize()) == 0
    requires Quot(p + amount, g.ClusterSize()) == Quot(p, g.ClusterSize()) + 1
    ensures var q := Quot(p, g.ClusterSize());
            && q < |ch| && cluster == ch[q]
            && (if g.InRange(cluster) then IsTrail(v.fat, ch) && (q + 1 < |ch| || !LinkOf(v.fat, cluster).To?) else q + 1 == |ch|)
            && (q + 1 < |ch| ==> Standing(g, ch, p + amount, ch[q + 1], 0))
            && (q + 1 == |ch| ==> p + amount == 512 * Sectors(g, |ch|))
  {
    hide Quot, Rem, Times;
    var q := Quot(p, g.ClusterSize());
    WithinCluster(g, ch, p + amount);
    assert first <= g.MaxCluster() ==> OnVolume(v.fat, ch[q]);
  }

  /** A position lies in the run's clusters exactly if it lies in its bytes; one at a cluster's start is where the clusters
      before it end. */
  lemma WithinCluster(g: Geometry, ch: seq<nat>, p: nat)
    requires g.Valid()
    ensures p < 512 * Sectors(g, |ch|) <==> Quot(p, g.ClusterSize()) < |ch|
    ensures Rem(p, g.ClusterSize()) == 0 ==> p == 512 * Sectors(g, Quot(p, g.ClusterSize()))
  {
    ByteSector(p, g.sectorsPerCluster);
    QuotRem(p / 512, g.sectorsPerCluster);
    QuotLess(p / 512, g.sectorsPerCluster, |ch|);
    if Quot(p, g.ClusterSize()) >= |ch| {
      TimesMonotone(|ch|, Quot(p, g.ClusterSize()), g.sectorsPerCluster);
    }
  }

  /** fat32_read, on every FAT and for every first cluster: it delivers content[position..position + n] for the largest n that the request, the file's
      size and the clusters there are allow. If those end too soon it fails: at once if the position itself is past them,
      otherwise after the bytes there are. */
  method Read(fs: Volume, file: FileHandle, output: array<byte>, size: nat, ghost ch: seq<nat>)
    returns (r: Status, bytesRead: nat)
    requires fs.Ready() && fs.sectorBuffer != output && size <= output.Length
    requires !file.directory ==> Walked(fs.g, fs.Now(), file.firstCluster, file.size, ch)
    modifies file`position, output, fs.sectorBuffer
    ensures file.directory ==> r == NotAFile
    ensures !file.directory && old(file.position) >= file.size ==> r == EndOfFile
    ensures file.directory || old(file.position) >= file.size || Past(fs.g, old(file.position), ch) ==>
              bytesRead == 0 && file.position == old(file.position) && output[..] == old(output[..])
    ensures !file.directory && old(file.position) < file.size && Past(fs.g, old(file.position), ch) ==>
              r == PastStatus(fs.g, old(fs.Now()), old(file.position), ch)
    ensures !file.directory && old(file.position) < file.size && !Past(fs.g, old(file.position), ch) ==>
              && bytesRead == Min(Min(size, file.size - old(file.position)), 512 * Sectors(fs.g, |ch|) - old(file.position))
              && r == (if bytesRead == Min(size, file.size - old(file.position)) then Ok else Error)
              && file.position == old(file.position) + bytesRead
              && output[..] == Splice(old(output[..]), 0,
                                      ReadBytes(fs.g, fs.device.sectors, ch)[old(file.position)..file.position])
    ensures forall i :: 0 <= i < bytesRead ==>
              FileByteOnDisk(fs.g, fs.device.sectors, file.firstCluster, ch, old(file.position) + i, output[i])
  {
    hide Kept, ViewOf, ReadBytes, Quot, Rem, Times, Splice, FileByteOnDisk;
    r, bytesRead := NotAFile, 0;
    if file.directory {
      return;
    }
    if file.position >= file.size {
      r := EndOfFile;
      return;
    }
    var remaining := file.size - file.position;
    var want := if size > remaining then remaining else size;
    var clusterIndex := Quot(file.position, fs.g.ClusterSize());
    WithinCluster(fs.g, ch, file.position);
    WalkedReached(fs.g, fs.Now(), file.firstCluster, file.size, ch);
    if fs.g.InRange(file.firstCluster) {
      WalkTrail(fs.Now().fat, ch, 0, clusterIndex);
    }
    var cluster;
    r, cluster := GetClusterAt(fs, file.firstCluster, clusterIndex);
    if r != Ok {
      return;
    }
    ghost var start, before := file.position, output[..];
    r, bytesRead := ReadLoop(fs, file, output, want, cluster, ch);
    forall i | 0 <= i < bytesRead
      ensures FileByteOnDisk(fs.g, fs.device.sectors, file.firstCluster, ch, start + i, output[i])
    {
      SplicedByte(before, ReadBytes(fs.g, fs.device.sectors, ch)[start..start + bytesRead], output[..], i);
      ReadByteOnDisk(fs.g, fs.device.sectors, file.firstCluster, file.size, ch, start + i);
    }
  }

  /** Byte p of a file on the raw disk: in the run of clusters, or, for a first cluster beyond the volume, counted from the
      start of the disk. */
  ghost predicate FileByteOnDisk(g: Geometry, d: Disk, first: nat, ch: seq<nat>, p: nat, b: byte) {
    if first > g.totalClusters + 1 then ByteAt(d, p / 512, p % 512, b) else ByteOnDisk(g, d, ch, p, b)
  }

  lemma SplicedByte(o: seq<byte>, t: seq<byte>, r: seq<byte>, i: nat)
    requires |t| <= |o| && r == Splice(o, 0, t) && i < |t|
    ensures r[i] == t[i]
  {
  }

  lemma ReadByteOnDisk(g: Geometry, d: Disk, first: nat, size: nat, ch: seq<nat>, p: nat)
    requires Fits(g, d) && Walked(g, ViewOf(g, d), first, size, ch) && Reached(g, ch) && p < 512 * Sectors(g, |ch|)
    ensures FileByteOnDisk(g, d, first, ch, p, ReadBytes(g, d, ch)[p])
  {
    hide ViewOf, ChainBytes, ByteOnDisk, Times, IsTrail;
    if first <= g.MaxCluster() {
      WalkedPlaced(g, ViewOf(g, d), first, size, ch);
      ChainByteOnDisk(g, d, ch, p);
    } else {
      OneCluster(g, d);
      NoneBefore(g.sectorsPerCluster);
      FirstBytesAt(d, g.sectorsPerCluster, p / 512);
      assert ReadBytes(g, d, ch)[p] == ReadBytes(g, d, ch)[512 * (p / 512)..512 * (p / 512) + 512][p % 512];
    }
  }

  lemma WalkedPlaced(g: Geometry, v: View, first: nat, size: nat, ch: seq<nat>)
    requires Walked(g, v, first, size, ch) && first <= g.MaxCluster()
    ensures Placed(g, ch)
  {
    if 2 <= first {
      TrailPlaced(g, v, ch);
    }
  }

  /** The walk to a position's cluster fails: the clusters end before it, or there are not so many on the volume. */
  predicate Past(g: Geometry, position: nat, ch: seq<nat>)
    requires g.Valid()
  {
    position >= 512 * Sectors(g, |ch|) || Quot(position, g.ClusterSize()) >= g.totalClusters
  }

  /** And what it fails with. */
  ghost function PastStatus(g: Geometry, v: View, position: nat, ch: seq<nat>): Status
    requires Fitted(g, v) && g.Valid()
  {
    if ch == [] || Quot(position, g.ClusterSize()) >= g.totalClusters || ch[|ch| - 1] >= |v.fat| then Error
    else EndStatus(v.fat, ch[|ch| - 1])
  }

  lemma PrefixSlice(b: seq<byte>, size: nat, p: nat, n: nat)
    requires p + n <= size <= |b|
    ensures b[..size][p..p + n] == b[p..p + n]
  {
  }

  /** On a chain with room for the file's size a read never fails, and what it delivers is the file's content. */
  lemma StoresNotPast(g: Geometry, v: View, first: nat, size: nat, ch: seq<nat>, position: nat, n: nat)
    requires g.Valid() && Stores(g, v, first, size, ch) && position < size && position + n <= size
    ensures !Past(g, position, ch) && n <= 512 * Sectors(g, |ch|) - position
    ensures Placed(g, ch) && ChainBytes(g, v, ch)[position..position + n] == Content(g, v, ch, size)[position..position + n]
  {
    hide ChainBytes, Quot, Times;
    StoresWalked(g, v, first, size, ch);
    WithinCluster(g, ch, position);
    PrefixSlice(ChainBytes(g, v, ch), size, position, n);
  }
}
